/** gh_rm_mem_share/lend/donate: one transfer request, then MEM_APPEND calls for what does not fit in it. */
module MemShare {
  import opened Common
  import opened Bytes
  import opened Errno

  const MAX_SGL_ENTRIES: nat := 512
  const FLAG_SANITIZE: nat := 1
  const FLAG_APPEND: nat := 2
  const SHARE_RESP_SIZE: nat := 4

  datatype Sgl = Sgl(ipaBase: nat, size: nat)
  datatype Fn = MemLend | MemShareFn | MemDonate

  /** The calls that reach the Resource Manager. */
  datatype RmCall =
    | Transfer(fn: Fn, flags: nat, entries: seq<Sgl>)
    | Append(handle: nat, end: bool, entries: seq<Sgl>)
    | Reclaim(handle: nat)

  /** What the transfer call gives back: an error code, or a reply of some size with a handle in it. */
  datatype TransferResp = TransferErr(code: int) | TransferOk(size: nat, handle: nat)

  /** What happens in one gh_rm_mem_append: no memory for the request, an error, or a reply of some size. */
  datatype AppendResp = AppendNoMem | AppendErr(code: int) | AppendOk(size: nat)

  function AppendRet(r: AppendResp): int {
    match r
    case AppendNoMem => ENOMEM
    case AppendErr(code) => code
    case AppendOk(size) => if size == 0 then 0 else EINVAL
  }

  /** Number of requests an SGL is spread over. */
  function PieceCount(n: nat): nat { (n + 511) / 512 }

  function Piece(sgl: seq<Sgl>, i: nat): (p: seq<Sgl>)
    requires 512 * i <= |sgl|
    ensures |p| <= 512
  {
    sgl[512 * i .. Min(512 * (i + 1), |sgl|)]
  }

  /** The i-th MEM_APPEND. */
  function AppendCall(h: nat, sgl: seq<Sgl>, i: nat): RmCall
    requires 512 * i <= |sgl|
  {
    Append(h, i + 1 == PieceCount(|sgl|), Piece(sgl, i))
  }

  /** MEM_APPENDs number 1 to n - 1. */
  function AppendCalls(h: nat, sgl: seq<Sgl>, n: nat): (c: seq<RmCall>)
    requires n >= 1 && 512 * (n - 1) <= |sgl|
    ensures |c| == n - 1
  {
    seq(n - 1, i requires 0 <= i < n - 1 => AppendCall(h, sgl, i + 1))
  }

  /** Everything one successful call sends. */
  function AllCalls(fn: Fn, flags: nat, h: nat, sgl: seq<Sgl>): seq<RmCall>
    requires sgl != []
  {
    [FirstCall(fn, flags, sgl)] + AppendCalls(h, sgl, PieceCount(|sgl|))
  }

  function FirstCall(fn: Fn, flags: nat, sgl: seq<Sgl>): RmCall {
    Transfer(fn, if |sgl| > MAX_SGL_ENTRIES then flags + FLAG_APPEND else flags, sgl[..Min(|sgl|, MAX_SGL_ENTRIES)])
  }

  function EntriesOf(calls: seq<RmCall>): (e: seq<seq<Sgl>>)
    requires forall i :: 0 <= i < |calls| ==> !calls[i].Reclaim?
    ensures |e| == |calls|
  {
    seq(|calls|, i requires 0 <= i < |calls| => calls[i].entries)
  }

  lemma {:induction false} PiecesCover(sgl: seq<Sgl>, n: nat)
    requires n >= 1 ==> 512 * (n - 1) <= |sgl|
    ensures Concat(seq(n, i requires 0 <= i < n => Piece(sgl, i))) == sgl[..Min(512 * n, |sgl|)]
  {
    var pieces := seq(n, i requires 0 <= i < n => Piece(sgl, i));
    if n > 0 {
      var before := seq(n - 1, i requires 0 <= i < n - 1 => Piece(sgl, i));
      PiecesCover(sgl, n - 1);
      ConcatAppend(before, Piece(sgl, n - 1));
      assert pieces == before + [Piece(sgl, n - 1)];
    }
  }

  /**
    For every non-empty SGL: the requests concatenate to exactly the SGL, in order; the first carries min(n, 512)
    entries and the APPEND flag iff n > 512; every append carries 1 to 512 entries and END on the last one only.
   */
  lemma CallsCarryTheSgl(fn: Fn, flags: nat, h: nat, sgl: seq<Sgl>)
    requires sgl != []
    ensures var calls := AllCalls(fn, flags, h, sgl);
            && (forall i :: 0 <= i < |calls| ==> !calls[i].Reclaim?)
            && Concat(EntriesOf(calls)) == sgl
            && calls[0].Transfer? && calls[0].fn == fn && |calls[0].entries| == Min(|sgl|, 512)
            && calls[0].flags == (if |calls| > 1 then flags + FLAG_APPEND else flags)
            && (|calls| > 1 <==> |sgl| > 512)
            && forall i :: 1 <= i < |calls| ==>
                 calls[i].Append? && calls[i].handle == h && 1 <= |calls[i].entries| <= 512 &&
                 (calls[i].end <==> i == |calls| - 1)
  {
    var calls := AllCalls(fn, flags, h, sgl);
    var n := PieceCount(|sgl|);
    PiecesCover(sgl, n);
    assert EntriesOf(calls) == seq(n, i requires 0 <= i < n => Piece(sgl, i));
    assert sgl[..|sgl|] == sgl;
  }

  /** gh_rm_mem_append: a request longer than 512 entries is refused before it is sent. */
  method MemAppend(handle: nat, end: bool, entries: seq<Sgl>, resp: AppendResp) returns (ret: int, calls: seq<RmCall>)
    ensures |entries| > MAX_SGL_ENTRIES ==> ret == EINVAL && calls == []
    ensures |entries| <= MAX_SGL_ENTRIES ==>
              calls == if resp.AppendNoMem? then [] else [Append(handle, end, entries)]
    ensures |entries| <= MAX_SGL_ENTRIES ==>
              match resp
              case AppendNoMem => ret == ENOMEM
              case AppendErr(code) => ret == code
              case AppendOk(size) => ret == if size == 0 then 0 else EINVAL
  {
    calls := [];
    if |entries| > MAX_SGL_ENTRIES { return EINVAL, calls; }
    if resp.AppendNoMem? { return ENOMEM, calls; }
    calls := [Append(handle, end, entries)];
    ret := AppendRet(resp);
  }

  /** Number of appends that succeed before the first failing one; append i is number i, from 1 to n - 1. */
  function Succeeding(resp: nat -> AppendResp, n: nat): (k: nat)
    requires n >= 1
    ensures 1 <= k <= n
    ensures forall i: nat :: 1 <= i < k ==> AppendRet(resp(i)) == 0
    ensures k < n ==> AppendRet(resp(k)) != 0
  {
    if n == 1 then 1
    else var k := Succeeding(resp, n - 1); if k == n - 1 && AppendRet(resp(n - 1)) == 0 then n else k
  }

  lemma {:induction false} FailsAt(resp: nat -> AppendResp, i: nat, n: nat)
    requires 1 <= i < n && Succeeding(resp, i) == i && AppendRet(resp(i)) != 0
    ensures Succeeding(resp, n) == i
  {
    if n > i + 1 { FailsAt(resp, i, n - 1); }
  }

  /** The append loop over the entries after the first 512. */
  method AppendRest(handle: nat, sgl: seq<Sgl>, resp: nat -> AppendResp) returns (ret: int, calls: seq<RmCall>)
    requires sgl != []
    ensures var n := PieceCount(|sgl|);
            var k := Succeeding(resp, n);
            if k == n then ret == 0 && calls == AppendCalls(handle, sgl, n)
            else ret == AppendRet(resp(k)) &&
                 calls == AppendCalls(handle, sgl, if resp(k).AppendNoMem? then k else k + 1)
  {
    calls := [];
    ret := 0;
    var idx := Min(|sgl|, MAX_SGL_ENTRIES);
    ghost var i := 1;
    ghost var n := PieceCount(|sgl|);
    while idx < |sgl|
      invariant 1 <= i <= n && idx == Min(512 * i, |sgl|) && (idx == |sgl| <==> i == n)
      invariant ret == 0 && Succeeding(resp, i) == i && calls == AppendCalls(handle, sgl, i)
      decreases |sgl| - idx
    {
      var next := Min(idx + MAX_SGL_ENTRIES, |sgl|);
      var end := next == |sgl|;
      var c;
      ret, c := MemAppend(handle, end, sgl[idx..next], resp((idx + 511) / 512));
      assert (idx + 511) / 512 == i;
      assert AppendCall(handle, sgl, i) == Append(handle, end, sgl[idx..next]);
      calls := calls + c;
      if ret != 0 {
        FailsAt(resp, i, n);
        assert resp(i).AppendNoMem? || calls == AppendCalls(handle, sgl, i + 1);
        return;
      }
      assert calls == AppendCalls(handle, sgl, i + 1);
      idx := next;
      i := i + 1;
    }
  }

  /** The arguments gh_rm_mem_share_lend_helper insists on. */
  predicate ArgsOk(memType: nat, flags: nat, nAcl: Option<nat>, sgl: Option<seq<Sgl>>, nAttr: Option<nat>, handlePtr: bool) {
    && memType <= 1 && flags <= FLAG_SANITIZE
    && nAcl.Some? && nAcl.value > 0 && sgl.Some? && sgl.value != []
    && (nAttr.Some? ==> nAttr.value > 0) && handlePtr
  }

  /**
    Refused arguments and a failed allocation send nothing. Otherwise the first request goes out; an error or a reply
    of the wrong size ends it there. Then the appends go out until one fails: the handle is written exactly when all
    succeed, and a failed append is followed by exactly one reclaim of the handle.
   */
  method ShareLendHelper(fn: Fn, memType: nat, flags: nat, nAcl: Option<nat>, sgl: Option<seq<Sgl>>, nAttr: Option<nat>,
                         handlePtr: bool, allocOk: bool, resp: TransferResp, appendResp: nat -> AppendResp)
    returns (ret: int, handle: Option<nat>, calls: seq<RmCall>)
    requires sgl.Some? ==> |sgl.value| <= 0xFFFF
    requires resp.TransferErr? ==> resp.code != 0
    ensures !ArgsOk(memType, flags, nAcl, sgl, nAttr, handlePtr) ==> ret == EINVAL && handle.None? && calls == []
    ensures memType > 1 || flags > 1 || nAcl == None || nAcl == Some(0) ==> ret == EINVAL && calls == []
    ensures sgl == None || sgl == Some([]) || nAttr == Some(0) || !handlePtr ==> ret == EINVAL && calls == []
    ensures memType <= 1 && flags <= 1 && nAcl.Some? && nAcl.value > 0 && sgl.Some? && sgl.value != [] ==>
              nAttr != Some(0) && handlePtr && allocOk ==>
              calls != [] && calls[0] == Transfer(fn, if |sgl.value| > 512 then flags + 2 else flags,
                                                  sgl.value[..Min(|sgl.value|, 512)])
    ensures ArgsOk(memType, flags, nAcl, sgl, nAttr, handlePtr) && !allocOk ==> ret == ENOMEM && handle.None? && calls == []
    ensures ArgsOk(memType, flags, nAcl, sgl, nAttr, handlePtr) && allocOk ==>
              var first := FirstCall(fn, flags, sgl.value);
              match resp
              case TransferErr(code) => ret == code && handle.None? && calls == [first]
              case TransferOk(size, h) =>
                if size != SHARE_RESP_SIZE then ret == EINVAL && handle.None? && calls == [first]
                else
                  var n := PieceCount(|sgl.value|);
                  var k := Succeeding(appendResp, n);
                  if k == n then ret == 0 && handle == Some(h) && calls == AllCalls(fn, flags, h, sgl.value)
                  else
                    && ret == AppendRet(appendResp(k)) != 0 && handle.None?
                    && calls == [first] + AppendCalls(h, sgl.value, if appendResp(k).AppendNoMem? then k else k + 1)
                                + [Reclaim(h)]
  {
    handle, calls := None, [];
    if memType > 1 || flags > FLAG_SANITIZE || nAcl.None? || nAcl.value == 0 || sgl.None? || sgl.value == [] ||
       (nAttr.Some? && nAttr.value == 0) || !handlePtr {
      return EINVAL, handle, calls;
    }
    var reqEntries := |sgl.value|;
    var reqFlags := flags;
    if reqEntries > MAX_SGL_ENTRIES {
      reqFlags := reqFlags + FLAG_APPEND;
      reqEntries := MAX_SGL_ENTRIES;
    }
    if !allocOk { return ENOMEM, handle, calls; }
    calls := [Transfer(fn, reqFlags, sgl.value[..reqEntries])];
    if resp.TransferErr? { return resp.code, handle, calls; }
    if resp.size != SHARE_RESP_SIZE { return EINVAL, handle, calls; }
    var appended;
    ret, appended := AppendRest(resp.handle, sgl.value, appendResp);
    calls := calls + appended;
    if ret != 0 {
      calls := calls + [Reclaim(resp.handle)];
      return;
    }
    handle := Some(resp.handle);
  }
}
