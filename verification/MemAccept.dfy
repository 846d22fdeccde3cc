/** gh_rm_mem_accept: the list of a memparcel may arrive in fragments, over several MEM_ACCEPT calls. */
module MemAccept {
  import opened Common
  import opened Bytes
  import opened Errno
  import opened MemShare

  const U16_MAX: nat := 0xFFFF
  const RESP_HDR_SIZE: nat := 4
  const SGL_ENTRY_SIZE: nat := 16

  /** One MEM_ACCEPT answer: an error, or a payload of `size` bytes whose header counts `nSgl` entries. */
  datatype Resp = CallErr(code: int) | CallOk(size: nat, nSgl: nat, incomplete: bool, entries: seq<Sgl>) {
    /** The entries are those in the payload, as many as its size leaves room for. */
    predicate WellFormed() {
      CallOk? ==> nSgl <= U16_MAX && (size >= RESP_HDR_SIZE ==> |entries| == (size - RESP_HDR_SIZE) / SGL_ENTRY_SIZE)
    }
  }

  datatype AcceptCall = Accept(done: bool) | Release

  /** `Waiting`: the answers seen so far do not let the call return. */
  datatype Outcome = Waiting | Failed(ret: int) | Accepted(list: seq<Sgl>)

  /** gh_rm_mem_accept_check_resp. */
  predicate SizeOk(r: Resp, hasSgl: bool)
    requires r.CallOk?
  {
    r.size == if hasSgl then 0 else if r.size < RESP_HDR_SIZE then RESP_HDR_SIZE
              else RESP_HDR_SIZE + r.nSgl * SGL_ENTRY_SIZE
  }

  predicate Fragment(r: Resp) { r.CallOk? && SizeOk(r, false) }

  function Lists(resps: seq<Resp>): (l: seq<seq<Sgl>>)
    requires forall i :: 0 <= i < |resps| ==> resps[i].CallOk?
    ensures |l| == |resps|
  {
    seq(|resps|, i requires 0 <= i < |resps| => resps[i].entries)
  }

  /** The fragments in the order the list keeps them: most recent first. */
  function NewestFirst<T>(parts: seq<T>): (r: seq<T>)
    ensures |r| == |parts|
  {
    if parts == [] then [] else [parts[|parts| - 1]] + NewestFirst(parts[..|parts| - 1])
  }

  function Total(parts: seq<seq<Sgl>>): nat {
    if parts == [] then 0 else |parts[0]| + Total(parts[1..])
  }

  lemma {:induction false} TotalIsLength(parts: seq<seq<Sgl>>)
    ensures Total(parts) == |Concat(parts)|
  {
    if parts != [] { TotalIsLength(parts[1..]); }
  }

  /** Every entry of every fragment is in the combined list exactly as often as it arrived. */
  lemma {:induction false} NewestFirstKeepsEntries(parts: seq<seq<Sgl>>)
    ensures multiset(Concat(NewestFirst(parts))) == multiset(Concat(parts))
    ensures |Concat(NewestFirst(parts))| == |Concat(parts)|
  {
    if parts != [] {
      var init, last := parts[..|parts| - 1], parts[|parts| - 1];
      NewestFirstKeepsEntries(init);
      ConcatAppend(init, last);
      assert parts == init + [last];
      assert NewestFirst(parts)[1..] == NewestFirst(init);
    }
  }

  /** Fragment i is found whole and in its own order, behind the later ones. */
  lemma {:induction false} FragmentContiguous(parts: seq<seq<Sgl>>, i: nat)
    requires i < |parts|
    ensures var at := |Concat(parts[i + 1..])|;
            at + |parts[i]| <= |Concat(NewestFirst(parts))| &&
            Concat(NewestFirst(parts))[at .. at + |parts[i]|] == parts[i]
  {
    var init, last := parts[..|parts| - 1], parts[|parts| - 1];
    assert NewestFirst(parts)[1..] == NewestFirst(init);
    assert Concat(NewestFirst(parts)) == last + Concat(NewestFirst(init));
    if i == |parts| - 1 {
      assert parts[i + 1..] == [];
    } else {
      FragmentContiguous(init, i);
      assert parts[i + 1..] == init[i + 1..] + [last];
      ConcatAppend(init[i + 1..], last);
    }
  }

  /** struct gh_sgl_fragment: the list head and the running u16 count. */
  class Gather {
    var list: seq<seq<Sgl>>
    var n: nat

    ghost predicate Valid()
      reads this
    {
      n == Total(list) <= U16_MAX
    }

    constructor ()
      ensures Valid() && list == [] && n == 0
    {
      list, n := [], 0;
    }

    /** Refuses exactly the fragment that would take the count past U16_MAX (or one it has no memory for). */
    method Append(entries: seq<Sgl>, allocOk: bool) returns (ret: int)
      requires Valid()
      modifies this
      ensures Valid()
      ensures ret == 0 <==> old(n) + |entries| <= U16_MAX && allocOk
      ensures ret == 0 ==> list == [entries] + old(list) && n == old(n) + |entries|
      ensures ret != 0 ==> list == old(list) && n == old(n)
    {
      if |entries| > U16_MAX - n { return EINVAL; }
      if !allocOk { return ENOMEM; }
      assert ([entries] + list)[1..] == list;
      list := [entries] + list;
      n := n + |entries|;
      ret := 0;
    }

    /** Copies the fragments one behind the other; the copies fill the allocation of `n` entries exactly. */
    method Combine() returns (dst: array<Sgl>)
      requires Valid()
      modifies this
      ensures fresh(dst) && dst.Length == old(n) && dst[..] == Concat(old(list))
      ensures Valid() && list == [] && n == 0
    {
      dst := new Sgl[n](_ => Sgl(0, 0));
      var p := 0;
      ghost var all := list;
      TotalIsLength(all);
      ghost var done := 0;
      while list != []
        invariant done <= |all| && list == all[done..] && n == old(n) == dst.Length == |Concat(all)| && fresh(dst)
        invariant p == |Concat(all[..done])| <= dst.Length && dst[..p] == Concat(all[..done])
        decreases |list|
      {
        hide Concat, Total;
        var entry := list[0];
        NextPart(all, done);
        forall i | 0 <= i < |entry| { dst[p + i] := entry[i]; }
        assert dst[..p + |entry|] == Concat(all[..done]) + entry;
        p := p + |entry|;
        done := done + 1;
        list := list[1..];
      }
      assert all[..done] == all;
      n := 0;
    }
  }

  lemma NextPart(all: seq<seq<Sgl>>, i: nat)
    requires i < |all|
    ensures Concat(all[..i + 1]) == Concat(all[..i]) + all[i]
    ensures |Concat(all[..i + 1])| <= |Concat(all)|
  {
    assert all[..i + 1] == all[..i] + [all[i]];
    ConcatAppend(all[..i], all[i]);
    PrefixShorter(all, i + 1);
  }

  lemma {:induction false} PrefixShorter(all: seq<seq<Sgl>>, i: nat)
    requires i <= |all|
    ensures |Concat(all[..i])| <= |Concat(all)|
    decreases |all| - i
  {
    if i < |all| {
      PrefixShorter(all, i + 1);
      assert all[..i + 1] == all[..i] + [all[i]];
      ConcatAppend(all[..i], all[i]);
    } else {
      assert all[..i] == all;
    }
  }

  /** The first m answers are fragments, all but the last marked incomplete, and together at most U16_MAX entries. */
  ghost predicate Gathered(resps: seq<Resp>, m: nat, complete: bool) {
    && m <= |resps|
    && (forall i :: 0 <= i < m ==> Fragment(resps[i]))
    && (forall i :: 0 <= i < m - 1 ==> resps[i].incomplete)
    && (m > 0 ==> resps[m - 1].incomplete == !complete)
    && |Concat(Lists(resps[..m]))| <= U16_MAX
  }

  lemma FragmentSize(r: Resp)
    requires Fragment(r) && r.WellFormed()
    ensures |r.entries| == r.nSgl
  {
  }

  lemma GatherNone(resps: seq<Resp>)
    ensures Lists(resps[..0]) == [] && Concat(Lists(resps[..0])) == [] && NewestFirst(Lists(resps[..0])) == []
  {
  }

  /** While every answer so far is marked incomplete, the list is not complete, and its size only grows. */
  lemma NoShorter(resps: seq<Resp>, m: nat)
    requires Gathered(resps, m, false)
    ensures forall k: nat :: k >= 1 && Gathered(resps, k, true) ==> k > m
    ensures forall k: nat :: k > m && Gathered(resps, k, true) ==>
              Fragment(resps[m]) && |Concat(Lists(resps[..m + 1]))| <= U16_MAX && (!resps[m].incomplete ==> k == m + 1)
  {
    hide Concat;
    forall k: nat | k > m && Gathered(resps, k, true)
      ensures Fragment(resps[m]) && |Concat(Lists(resps[..m + 1]))| <= U16_MAX && (!resps[m].incomplete ==> k == m + 1)
    {
      assert Lists(resps[..k])[..m + 1] == Lists(resps[..m + 1]);
      PrefixShorter(Lists(resps[..k]), m + 1);
    }
  }

  lemma GatherOne(resps: seq<Resp>, m: nat)
    requires m < |resps| && forall i :: 0 <= i <= m ==> resps[i].CallOk?
    ensures Lists(resps[..m + 1]) == Lists(resps[..m]) + [resps[m].entries]
    ensures Concat(Lists(resps[..m + 1])) == Concat(Lists(resps[..m])) + resps[m].entries
    ensures NewestFirst(Lists(resps[..m + 1])) == [resps[m].entries] + NewestFirst(Lists(resps[..m]))
  {
    var l := Lists(resps[..m]);
    assert Lists(resps[..m + 1]) == l + [resps[m].entries];
    ConcatAppend(l, resps[m].entries);
    assert (l + [resps[m].entries])[..|l|] == l;
  }

  function Requests(n: nat, done: bool): (c: seq<AcceptCall>)
    ensures |c| == n
  {
    seq(n, i => Accept(done))
  }

  /** The caller's arguments and the results of the allocations made on the way, one for each fragment's list node. */
  datatype Args = Args(wantDone: bool, contiguous: bool, sgl: Option<seq<Sgl>>, prepareRet: int,
                       gatherAlloc: bool, entryAlloc: nat -> bool, combineAlloc: bool) {
    predicate MultiCall() { !contiguous && sgl.None? }
  }

  /** The list nodes of the first k fragments can all be allocated. */
  ghost predicate AllAllocated(args: Args, k: nat) { forall i: nat :: i < k ==> args.entryAlloc(i) }

  /**
    The do-while loop, when no SGL was supplied. `m` is the number of fragments gathered; the loop ends with the last
    fragment (`ret` = 0), fails on answer m, or still waits for answer m.
   */
  method GatherFragments(args: Args, firstDone: bool, resps: seq<Resp>, gather: Gather)
    returns (ret: int, m: nat, waiting: bool, calls: seq<AcceptCall>)
    requires args.sgl.None? && forall i :: 0 <= i < |resps| ==> resps[i].WellFormed()
    requires forall i :: 0 <= i < |resps| && resps[i].CallErr? ==> resps[i].code != 0
    requires gather.Valid() && gather.list == [] && gather.n == 0
    modifies gather
    ensures gather.Valid() && (forall i :: 0 <= i < m && i < |resps| ==> resps[i].CallOk?)
    ensures m <= |resps| && (waiting ==> ret == 0)
    ensures gather.list == NewestFirst(Lists(resps[..m]))
    ensures ret == 0 && !waiting ==> m >= 1 && Gathered(resps, m, true) && calls == Requests(m, firstDone)
    ensures waiting ==> m == |resps| && Gathered(resps, m, false) && calls == Requests(m, firstDone)
    ensures ret != 0 ==> m < |resps| && Gathered(resps, m, false) && calls == Requests(m + 1, firstDone)
    ensures ret != 0 ==>
              var r := resps[m];
              || (r.CallErr? && ret == r.code)
              || (r.CallOk? && !SizeOk(r, false) && ret == EINVAL)
              || (Fragment(r) && ret == ENOMEM &&
                  (|Concat(Lists(resps[..m + 1]))| > U16_MAX || !args.entryAlloc(m)))
    ensures forall k: nat :: k >= 1 && Gathered(resps, k, true) && AllAllocated(args, k) ==> ret == 0 && !waiting && m == k
  {
    hide Lists, NewestFirst, Concat, Total;
    GatherNone(resps);
    calls, m, ret, waiting := [], 0, 0, false;
    while m < |resps|
      invariant m <= |resps| && ret == 0 && !waiting && calls == Requests(m, firstDone)
      invariant Gathered(resps, m, false) && gather.Valid()
      invariant gather.list == NewestFirst(Lists(resps[..m])) && gather.n == |Concat(Lists(resps[..m]))|
    {
      var r := resps[m];
      calls := calls + [Accept(firstDone)];
      NoShorter(resps, m);
      if r.CallErr? { ret := r.code; return; }
      if !SizeOk(r, false) { ret := EINVAL; return; }
      FragmentSize(r);
      GatherOne(resps, m);
      var appended := gather.Append(r.entries, args.entryAlloc(m));
      if appended != 0 { ret := ENOMEM; return; }
      m := m + 1;
      if !r.incomplete { return; }
    }
    waiting := true;
    NoShorter(resps, m);
  }

  /** The first k answers bring the whole list, and the DONE request, if there is one, is answered without error. */
  ghost predicate Suffices(args: Args, resps: seq<Resp>, k: nat) {
    && k >= 1 && Gathered(resps, k, true) && AllAllocated(args, k)
    && (args.MultiCall() && args.wantDone ==> k < |resps| && resps[k].CallOk?)
  }

  /**
    gh_rm_mem_accept. `m` counts the fragments it gathered. The clauses say, for every sequence of answers:
    which requests go out and which of them carry DONE; when the one release is issued; and what an accepted list holds.
   */
  method MemAcceptCall(args: Args, resps: seq<Resp>) returns (out: Outcome, calls: seq<AcceptCall>, m: nat)
    requires forall i :: 0 <= i < |resps| ==> resps[i].WellFormed()
    requires forall i :: 0 <= i < |resps| && resps[i].CallErr? ==> resps[i].code != 0
    // nothing is sent when the request cannot be prepared
    ensures args.prepareRet != 0 ==> out == Failed(args.prepareRet) && calls == []
    ensures args.prepareRet == 0 && !args.gatherAlloc ==> out == Failed(ENOMEM) && calls == []
    // exactly one release, as the last call, iff it fails after an answer that was not an error
    ensures forall i :: 0 <= i < |calls| && calls[i] == Release ==> i == |calls| - 1
    ensures (calls != [] && calls[|calls| - 1] == Release) <==>
              (out.Failed? && args.prepareRet == 0 && args.gatherAlloc && resps != [] && resps[0].CallOk?)
    // DONE: held back until the last fragment, then sent exactly once iff asked for
    ensures args.MultiCall() ==> forall i :: 0 <= i < |calls| && calls[i] == Accept(true) ==>
              args.wantDone && m >= 1 && i == m && Gathered(resps, m, true)
    ensures args.MultiCall() && out.Accepted? ==>
              calls == Requests(m, false) + if args.wantDone then [Accept(true)] else []
    ensures !args.MultiCall() ==> forall i :: 0 <= i < |calls| && calls[i].Accept? ==> calls[i].done == args.wantDone
    // the list
    ensures out.Accepted? && args.sgl.Some? ==> out.list == args.sgl.value && |calls| == 1
    ensures out.Accepted? && args.sgl.None? ==>
              m >= 1 && Gathered(resps, m, true) && out.list == Concat(NewestFirst(Lists(resps[..m])))
    // and it is accepted whenever the answers allow it
    ensures args.prepareRet == 0 && args.gatherAlloc && args.sgl.None? && args.combineAlloc ==>
              forall k: nat :: Suffices(args, resps, k) ==> out.Accepted? && m == k
    ensures args.prepareRet == 0 && args.gatherAlloc && args.sgl.Some? && resps != [] && resps[0].CallOk? ==>
              (out.Accepted? <==> resps[0].size == 0)
  {
    hide Lists, NewestFirst, Concat, Total;
    calls, m := [], 0;
    if args.prepareRet != 0 { return Failed(args.prepareRet), calls, m; }
    var firstDone := args.wantDone && !args.MultiCall();
    if !args.gatherAlloc { return Failed(ENOMEM), calls, m; }
    if args.sgl.Some? {
      if resps == [] { return Waiting, calls, m; }
      calls := [Accept(firstDone)];
      if resps[0].CallErr? { return Failed(resps[0].code), calls, m; }
      if !SizeOk(resps[0], true) {
        calls := calls + [Release];
        return Failed(EINVAL), calls, m;
      }
      return Accepted(args.sgl.value), calls, m;
    }
    var gather := new Gather();
    var ret, waiting;
    ret, m, waiting, calls := GatherFragments(args, firstDone, resps, gather);
    if waiting { return Waiting, calls, m; }
    if ret != 0 {
      if m > 0 || resps[m].CallOk? { calls := calls + [Release]; }
      return Failed(ret), calls, m;
    }
    if args.MultiCall() && args.wantDone {
      if m == |resps| { return Waiting, calls, m; }
      calls := calls + [Accept(true)];
      if resps[m].CallErr? {
        calls := calls + [Release];
        return Failed(resps[m].code), calls, m;
      }
    }
    if !args.combineAlloc {
      calls := calls + [Release];
      return Failed(ENOMEM), calls, m;
    }
    var dst := gather.Combine();
    out := Accepted(dst[..]);
  }

  /** An answer as RM gives it while a list is on its way: the size fits the count it announces. */
  predicate Announces(r: Resp, incomplete: bool) {
    r.CallOk? && r.size == 4 + 16 * r.nSgl && |r.entries| == r.nSgl && r.incomplete == incomplete
  }

  /**
    With the sizes written out: answers of 4 + 16 * n bytes for n entries, all but the last marked incomplete and together
    at most U16_MAX entries, are gathered, whatever follows them; with the DONE request answered, if there is one, and
    the memory there, the call succeeds.
   */
  lemma SizesSuffice(args: Args, resps: seq<Resp>, k: nat)
    requires 1 <= k <= |resps| && (forall i: nat :: i < k ==> args.entryAlloc(i))
    requires forall i :: 0 <= i < k ==> resps[i].CallOk? && Announces(resps[i], i < k - 1)
    requires |Concat(Lists(resps[..k]))| <= 65535
    requires !args.contiguous && args.sgl.None? && args.wantDone ==> k < |resps| && resps[k].CallOk?
    ensures Gathered(resps, k, true) && Suffices(args, resps, k)
  {
    hide Concat;
    forall i: nat | i < k ensures Fragment(resps[i]) && resps[i].incomplete == (i < k - 1) {
      assert Announces(resps[i], i < k - 1);
    }
  }

  /** And nothing else is gathered. */
  lemma GatheredSizes(resps: seq<Resp>, m: nat, complete: bool, i: nat)
    requires Gathered(resps, m, complete) && i < m && resps[i].WellFormed()
    ensures Announces(resps[i], i < m - 1 || !complete)
  {
  }

  /** The entries of part i stand together in `list`, in their own order, behind the later parts. */
  ghost predicate Holds(list: seq<Sgl>, parts: seq<seq<Sgl>>, i: nat)
    requires i < |parts|
  {
    var at := |Concat(parts[i + 1..])|;
    at + |parts[i]| <= |list| && list[at .. at + |parts[i]|] == parts[i]
  }

  /** An accepted list holds every entry of every fragment exactly once; its length is their sum, at most U16_MAX. */
  lemma AcceptedListConserves(resps: seq<Resp>, m: nat, list: seq<Sgl>)
    requires Gathered(resps, m, true) && list == Concat(NewestFirst(Lists(resps[..m])))
    ensures multiset(list) == multiset(Concat(Lists(resps[..m])))
    ensures |list| == Total(Lists(resps[..m])) <= U16_MAX
    ensures forall i: nat :: i < m ==> Holds(list, Lists(resps[..m]), i)
  {
    var parts := Lists(resps[..m]);
    assert |Concat(parts)| <= U16_MAX;
    hide Lists, Concat, NewestFirst, Total, Gathered;
    NewestFirstKeepsEntries(parts);
    TotalIsLength(parts);
    forall i: nat | i < m ensures Holds(list, parts, i) {
      FragmentContiguous(parts, i);
    }
  }
}
