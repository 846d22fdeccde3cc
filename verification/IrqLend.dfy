/**
  gh_irq_lend.c: the table of lendable interrupts, one entry for each label. API calls and RM notifications change the
  entries; reclaim, accept and release test the state, call RM and write the state without holding the lock, so each of
  them is a test step and a write step with anything allowed in between. What the documentation forbids is kept out:
  two reclaims of a label at once, and two of accept and release of a label at once.
 */
module IrqLend {
  import opened Errno

  const LABEL_MAX: nat := 5

  type Label = l: nat | l < LABEL_MAX
  datatype Status = None | WaitReleaseOrAccept | WaitLend | Released | Accepted | Lent
  datatype VmName = AnyVm | Named(id: nat)   // AnyVm is GH_VM_MAX

  datatype Entry = Entry(status: Status, vmid: nat, vmName: VmName, handle: nat)

  datatype SvmCall = Idle | Accepting | Releasing

  /** What has happened to a label. */
  datatype Event = Claimed | ReclaimBegun | ReclaimFailed | Reclaimed | EnteredAccepted | EnteredReleased | Other

  /** An entry, the calls that have tested it and not yet written it, and its history. */
  datatype Cell = Cell(e: Entry, reclaiming: bool, svm: SvmCall, hist: seq<Event>)

  datatype CellStep =
    | LendClaim(vmid: nat) | LendHandle(handle: nat) | WaitClaim(name: VmName)
    | ReclaimTest | ReclaimWrite(ok: bool)
    | AcceptTest | AcceptWrite(ok: bool)
    | ReleaseTest | ReleaseWrite(ok: bool)
    | GotReleased | GotAccepted | GotLent(owner: nat, handle: nat)

  predicate MatchesHandle(e: Entry, handle: nat) {
    (e.status == WaitReleaseOrAccept || e.status == Accepted) && e.handle == handle
  }

  predicate MatchesLent(e: Entry, name: VmName) {
    (e.status == WaitLend || e.status == Lent) && (e.vmName == AnyVm || e.vmName == name)
  }

  predicate CellEnabled(c: Cell, a: CellStep) {
    match a
    case LendClaim(_) => c.e.status == None
    case LendHandle(_) => true
    case WaitClaim(_) => c.e.status == None
    case ReclaimTest => !c.reclaiming && (c.e.status == WaitReleaseOrAccept || c.e.status == Released)
    case ReclaimWrite(_) => c.reclaiming
    case AcceptTest => c.svm == Idle && c.e.status == Lent
    case AcceptWrite(_) => c.svm == Accepting
    case ReleaseTest => c.svm == Idle && c.e.status == Accepted
    case ReleaseWrite(_) => c.svm == Releasing
    case GotReleased => c.e.status == WaitReleaseOrAccept || c.e.status == Accepted
    case GotAccepted => c.e.status == WaitReleaseOrAccept || c.e.status == Accepted
    case GotLent(_, _) => c.e.status == WaitLend || c.e.status == Lent
  }

  function Put(c: Cell, status: Status, ev: Event): Cell {
    c.(e := c.e.(status := status), hist := c.hist + [ev])
  }

  function CellApply(c: Cell, a: CellStep): Cell
    requires CellEnabled(c, a)
  {
    match a
    case LendClaim(vmid) => Put(c.(e := c.e.(vmid := vmid)), WaitReleaseOrAccept, Claimed)
    case LendHandle(handle) => c.(e := c.e.(handle := handle))
    case WaitClaim(name) => Put(c.(e := c.e.(vmName := name)), WaitLend, Claimed)
    case ReclaimTest => Put(c.(reclaiming := true), c.e.status, ReclaimBegun)
    case ReclaimWrite(ok) =>
      if ok then Put(c.(reclaiming := false), None, Reclaimed)
      else Put(c.(reclaiming := false), c.e.status, ReclaimFailed)
    case AcceptTest => c.(svm := Accepting)
    case AcceptWrite(ok) => if ok then Put(c.(svm := Idle), Accepted, EnteredAccepted) else c.(svm := Idle)
    case ReleaseTest => c.(svm := Releasing)
    case ReleaseWrite(ok) => if ok then Put(c.(svm := Idle), WaitLend, Other) else c.(svm := Idle)
    case GotReleased => Put(c, Released, EnteredReleased)
    case GotAccepted => Put(c, Accepted, EnteredAccepted)
    case GotLent(owner, handle) => Put(c.(e := c.e.(vmid := owner, handle := handle)), Lent, Other)
  }

  // The table.

  type State = s: seq<Cell> | |s| == LABEL_MAX witness seq(LABEL_MAX, _ => FreshCell())

  function FreshCell(): Cell { Cell(Entry(None, 0, AnyVm, 0), false, Idle, []) }
  function Init(): State { seq(LABEL_MAX, _ => FreshCell()) }

  datatype Step =
    | Api(l: Label, a: CellStep)
    | NotifyReleased(handle: nat) | NotifyAccepted(handle: nat)
    | NotifyLent(virqLabel: nat, owner: nat, ownerName: VmName, handle: nat)

  predicate IsApi(a: CellStep) { !a.GotReleased? && !a.GotAccepted? && !a.GotLent? }

  /** The first entry from `from` on that waits for this handle; LABEL_MAX if there is none. */
  function FirstMatch(s: State, handle: nat, from: nat): (k: nat)
    requires from <= LABEL_MAX
    ensures from <= k <= LABEL_MAX && (k < LABEL_MAX ==> MatchesHandle(s[k].e, handle))
    ensures forall i :: from <= i < k ==> !MatchesHandle(s[i].e, handle)
    decreases LABEL_MAX - from
  {
    if from == LABEL_MAX || MatchesHandle(s[from].e, handle) then from else FirstMatch(s, handle, from + 1)
  }

  /** What a step does to one label, if anything. */
  datatype Effect = Untouched | Does(a: CellStep)

  function EffectOn(s: State, a: Step, l: Label): Effect {
    match a
    case Api(l', x) => if l == l' then Does(x) else Untouched
    case NotifyReleased(h) => if l == FirstMatch(s, h, 0) then Does(GotReleased) else Untouched
    case NotifyAccepted(h) => if l == FirstMatch(s, h, 0) then Does(GotAccepted) else Untouched
    case NotifyLent(l', owner, name, h) =>
      if l == l' && MatchesLent(s[l].e, name) then Does(GotLent(owner, h)) else Untouched
  }

  predicate Enabled(s: State, a: Step) { a.Api? ==> IsApi(a.a) && CellEnabled(s[a.l], a.a) }

  function Apply(s: State, a: Step): State
    requires Enabled(s, a)
  {
    seq(LABEL_MAX, l requires 0 <= l < LABEL_MAX =>
      match EffectOn(s, a, l)
      case Untouched => s[l]
      case Does(x) => CellApply(s[l], x))
  }

  /** A notification changes at most one entry, and that entry waits for its handle or has its label and lender. */
  lemma NotificationTouchesOne(s: State, a: Step, l: Label, l': Label)
    requires !a.Api? && Apply(s, a)[l] != s[l]
    ensures l' != l ==> Apply(s, a)[l'] == s[l']
    ensures if a.NotifyLent? then a.virqLabel == l && MatchesLent(s[l].e, a.ownerName) else MatchesHandle(s[l].e, a.handle)
  {
  }

  // Runs.

  predicate Follows(states: seq<State>, steps: seq<Step>, i: nat)
    requires |states| == |steps| + 1 && i < |steps|
  {
    Enabled(states[i], steps[i]) && states[i + 1] == Apply(states[i], steps[i])
  }

  predicate IsRun(states: seq<State>, steps: seq<Step>) {
    && |states| == |steps| + 1 && states[0] == Init()
    && forall i: nat :: i < |steps| ==> Follows(states, steps, i)
  }

  function Count(h: seq<Event>, e: Event): nat {
    if h == [] then 0 else Count(h[..|h| - 1], e) + if h[|h| - 1] == e then 1 else 0
  }

  /** Claims and successful reclaims differ by at most one, and by one exactly while the label is in use. */
  predicate Balanced(c: Cell) {
    Count(c.hist, Claimed) == Count(c.hist, Reclaimed) + if c.e.status != None then 1 else 0
  }

  /** A reclaim has begun and not ended. */
  predicate InFlight(h: seq<Event>) {
    && h != []
    && var e := h[|h| - 1];
       e == ReclaimBegun || (e != Reclaimed && e != ReclaimFailed && InFlight(h[..|h| - 1]))
  }

  /** No RELEASED and no end of the label's use from i on. */
  predicate NotReleasedSince(h: seq<Event>, i: nat) {
    forall j :: i < j < |h| ==> h[j] != EnteredReleased && h[j] != Reclaimed
  }

  /** Entered ACCEPTED at i and not released since. */
  predicate AcceptedAt(h: seq<Event>, i: nat) {
    i < |h| && h[i] == EnteredAccepted && NotReleasedSince(h, i)
  }

  predicate NothingAccepted(h: seq<Event>) { forall i: nat :: i < |h| ==> !AcceptedAt(h, i) }

  /** A reclaim was under way at i and has not failed since. */
  predicate DuringReclaim(h: seq<Event>, i: nat)
    requires i <= |h|
  {
    InFlight(h[..i]) && forall k :: i < k < |h| ==> h[k] != ReclaimFailed
  }

  /** Whatever was accepted was accepted during the reclaim that is under way. */
  predicate AcceptedOnlyInFlight(h: seq<Event>) {
    forall i: nat :: i < |h| ==> (AcceptedAt(h, i) ==> DuringReclaim(h, i))
  }

  /** The property that every successful reclaim of a history has. */
  predicate ReclaimsLawful(h: seq<Event>) {
    forall j: nat :: j < |h| ==> (h[j] == Reclaimed ==> AcceptedOnlyInFlight(h[..j]))
  }

  predicate CellInv(c: Cell) {
    && c.reclaiming == InFlight(c.hist)
    && (c.reclaiming ==> AcceptedOnlyInFlight(c.hist))
    && (c.e.status == None || c.e.status == WaitReleaseOrAccept || c.e.status == Released ==> NothingAccepted(c.hist))
    && ReclaimsLawful(c.hist)
  }

  lemma SnocReads(h: seq<Event>, e: Event, x: Event)
    ensures Count(h + [e], x) == Count(h, x) + if e == x then 1 else 0
    ensures InFlight(h + [e]) <==> e == ReclaimBegun || (e != Reclaimed && e != ReclaimFailed && InFlight(h))
  {
    var u := h + [e];
    assert u[..|u| - 1] == h && u[|u| - 1] == e;
  }

  lemma SnocAccepted(h: seq<Event>, e: Event)
    ensures e == EnteredReleased || e == Reclaimed ==> NothingAccepted(h + [e])
    ensures e != EnteredAccepted && NothingAccepted(h) ==> NothingAccepted(h + [e])
    ensures AcceptedOnlyInFlight(h) && (e == EnteredAccepted ==> InFlight(h)) && e != ReclaimFailed ==>
              AcceptedOnlyInFlight(h + [e])
  {
    var u := h + [e];
    assert u[|h|] == e;
    forall i: nat | i < |h|
      ensures AcceptedAt(u, i) ==> AcceptedAt(h, i) && e != EnteredReleased && e != Reclaimed
    {
      if AcceptedAt(u, i) {
        assert u[i] == h[i];
        assert forall j :: i < j < |h| ==> h[j] == u[j];
      }
    }
    forall i: nat | i < |u| && AcceptedOnlyInFlight(h) && (e == EnteredAccepted ==> InFlight(h)) && e != ReclaimFailed
      ensures AcceptedAt(u, i) ==> DuringReclaim(u, i)
    {
      assert i < |h| ==> u[..i] == h[..i];
      assert i == |h| ==> u[..i] == h;
    }
  }

  lemma SnocLawful(h: seq<Event>, e: Event)
    requires ReclaimsLawful(h) && (e == Reclaimed ==> AcceptedOnlyInFlight(h))
    ensures ReclaimsLawful(h + [e])
  {
    hide AcceptedOnlyInFlight;
    var u := h + [e];
    forall j: nat | j < |u| ensures u[j] == Reclaimed ==> AcceptedOnlyInFlight(u[..j]) {
      assert j < |h| ==> u[..j] == h[..j] && u[j] == h[j];
      assert j == |h| ==> u[..j] == h;
    }
  }

  lemma PutKeeps(c: Cell, a: CellStep, e: Event)
    requires CellInv(c) && CellEnabled(c, a) && CellApply(c, a).hist == c.hist + [e]
    ensures CellInv(CellApply(c, a))
  {
    hide InFlight, AcceptedOnlyInFlight, NothingAccepted, ReclaimsLawful;
    SnocReads(c.hist, e, e);
    SnocAccepted(c.hist, e);
    SnocLawful(c.hist, e);
    if a == ReclaimTest { NothingIsOnlyInFlight(c.hist); }
  }

  lemma NothingIsOnlyInFlight(h: seq<Event>)
    requires NothingAccepted(h)
    ensures AcceptedOnlyInFlight(h)
  {
    hide AcceptedAt, DuringReclaim;
  }

  lemma CellKeeps(c: Cell, a: CellStep)
    requires CellInv(c) && CellEnabled(c, a)
    ensures CellInv(CellApply(c, a))
  {
    hide CellInv;
    var c' := CellApply(c, a);
    if c'.hist != c.hist {
      PutKeeps(c, a, c'.hist[|c.hist|]);
    } else {
      SilentKeeps(c, a);
    }
  }

  lemma SilentKeeps(c: Cell, a: CellStep)
    requires CellInv(c) && CellEnabled(c, a) && CellApply(c, a).hist == c.hist
    ensures CellInv(CellApply(c, a))
  {
    hide InFlight, AcceptedOnlyInFlight, NothingAccepted, ReclaimsLawful;
  }

  lemma StepEffect(s: State, a: Step, l: Label)
    requires Enabled(s, a)
    ensures match EffectOn(s, a, l)
            case Untouched => Apply(s, a)[l] == s[l]
            case Does(x) => CellEnabled(s[l], x) && Apply(s, a)[l] == CellApply(s[l], x)
  {
  }

  lemma {:induction false} RunKeeps(states: seq<State>, steps: seq<Step>, n: nat, l: Label)
    requires IsRun(states, steps) && n < |states|
    ensures CellInv(states[n][l])
  {
    if n > 0 {
      RunKeeps(states, steps, n - 1, l);
      assert Follows(states, steps, n - 1);
      hide CellInv, CellApply, CellEnabled;
      var s, a := states[n - 1], steps[n - 1];
      StepEffect(s, a, l);
      var f := EffectOn(s, a, l);
      if f.Does? { CellKeeps(s[l], f.a); }
    }
  }

  /** The reclaim that began at b has not ended before j. */
  predicate UnderWay(h: seq<Event>, b: nat, j: nat) {
    b < j <= |h| && h[b] == ReclaimBegun && forall k :: b < k < j ==> h[k] != Reclaimed && h[k] != ReclaimFailed
  }

  lemma {:induction false} BegunAt(h: seq<Event>) returns (b: nat)
    requires InFlight(h)
    ensures UnderWay(h, b, |h|)
  {
    var last := |h| - 1;
    if h[last] == ReclaimBegun {
      b := last;
    } else {
      b := BegunAt(h[..last]);
    }
  }

  /** RELEASED is entered, or the label's use ends, strictly between i and j. */
  predicate ReleasedBetween(h: seq<Event>, i: nat, j: nat)
    requires j <= |h|
  {
    exists k :: i < k < j && (h[k] == EnteredReleased || h[k] == Reclaimed)
  }

  lemma AcceptedThenReclaimed(h: seq<Event>, i: nat, j: nat)
    requires ReclaimsLawful(h) && i < j < |h| && h[i] == EnteredAccepted && h[j] == Reclaimed && !ReleasedBetween(h, i, j)
    ensures exists b: nat :: b < i && UnderWay(h, b, j)
  {
    var before := h[..j];
    assert AcceptedOnlyInFlight(before) by { assert h[j] == Reclaimed; }
    assert AcceptedAt(before, i);
    assert DuringReclaim(before, i);
    assert before[..i] == h[..i];
    var b := BegunAt(h[..i]);
    forall k | b < k < j ensures h[k] != Reclaimed && h[k] != ReclaimFailed {
      if k < i { assert h[..i][k] == h[k]; } else { assert before[k] == h[k]; }
    }
    assert UnderWay(h, b, j);
  }

  /**
    A label that entered ACCEPTED goes back to NONE only through RELEASED, unless the very reclaim that takes it there
    was already past its test when ACCEPTED was entered.
   */
  lemma AcceptedLeavesThroughReleased(states: seq<State>, steps: seq<Step>, n: nat, l: Label, i: nat, j: nat)
    requires IsRun(states, steps) && n < |states|
    requires i < j < |states[n][l].hist|
    requires states[n][l].hist[i] == EnteredAccepted && states[n][l].hist[j] == Reclaimed
    ensures var h := states[n][l].hist;
            ReleasedBetween(h, i, j) || exists b: nat :: b < i && UnderWay(h, b, j)
  {
    RunKeeps(states, steps, n, l);
    var h := states[n][l].hist;
    hide IsRun;
    if !ReleasedBetween(h, i, j) { AcceptedThenReclaimed(h, i, j); }
  }

  /** Every return from ACCEPTED to NONE passes through RELEASED. */
  ghost predicate LeavesThroughReleased(h: seq<Event>) {
    forall i: nat, j: nat :: i < j < |h| && h[i] == EnteredAccepted && h[j] == Reclaimed ==> ReleasedBetween(h, i, j)
  }

  /** No successful reclaim has an acceptance between its test and its write that is not released again before the write. */
  ghost predicate NotAcceptedMeanwhile(h: seq<Event>) {
    forall b: nat, i: nat, j: nat :: b < i < j < |h| && UnderWay(h, b, j) && h[j] == Reclaimed && h[i] == EnteredAccepted ==>
      ReleasedBetween(h, i, j)
  }

  /** The two are the same, for every label at every moment of every run. */
  lemma LeavesThroughReleasedExactly(states: seq<State>, steps: seq<Step>, n: nat, l: Label)
    requires IsRun(states, steps) && n < |states|
    ensures LeavesThroughReleased(states[n][l].hist) <==> NotAcceptedMeanwhile(states[n][l].hist)
  {
    RunKeeps(states, steps, n, l);
    var h := states[n][l].hist;
    hide IsRun;
    if NotAcceptedMeanwhile(h) {
      forall i: nat, j: nat | i < j < |h| && h[i] == EnteredAccepted && h[j] == Reclaimed ensures ReleasedBetween(h, i, j) {
        if !ReleasedBetween(h, i, j) { AcceptedThenReclaimed(h, i, j); }
      }
    }
  }

  // Claims and reclaims.

  /** A successful accept or release that writes to an entry nobody holds any more. */
  predicate WritesFree(s: State, a: Step, l: Label) {
    a.Api? && a.l == l && s[l].e.status == None && (a.a == AcceptWrite(true) || a.a == ReleaseWrite(true))
  }

  /** Only that step can unbalance a label. It always does. */
  lemma BalanceStep(s: State, a: Step, l: Label)
    requires Enabled(s, a) && Balanced(s[l]) && (s[l].reclaiming ==> s[l].e.status != None)
    ensures Balanced(Apply(s, a)[l]) <==> !WritesFree(s, a, l)
    ensures Apply(s, a)[l].reclaiming ==> Apply(s, a)[l].e.status != None
  {
    hide Count;
    StepEffect(s, a, l);
    var f, h := EffectOn(s, a, l), s[l].hist;
    if f.Does? && Apply(s, a)[l].hist != h {
      var e := Apply(s, a)[l].hist[|h|];
      SnocReads(h, e, Claimed);
      SnocReads(h, e, Reclaimed);
    }
  }

  predicate FreeWriteAt(states: seq<State>, steps: seq<Step>, n: nat, l: Label)
    requires |states| == |steps| + 1 && n < |steps|
  {
    WritesFree(states[n], steps[n], l)
  }

  lemma {:induction false} BalancedBefore(states: seq<State>, steps: seq<Step>, n: nat, l: Label)
    requires IsRun(states, steps) && n < |states|
    requires forall m: nat :: m < n ==> !FreeWriteAt(states, steps, m, l)
    ensures Balanced(states[n][l]) && (states[n][l].reclaiming ==> states[n][l].e.status != None)
  {
    if n > 0 {
      BalancedBefore(states, steps, n - 1, l);
      assert Follows(states, steps, n - 1) && !FreeWriteAt(states, steps, n - 1, l);
      BalanceStep(states[n - 1], steps[n - 1], l);
    }
  }

  ghost predicate AlwaysBalanced(states: seq<State>, l: Label) {
    forall n: nat :: n < |states| ==> Balanced(states[n][l])
  }

  /** Claims balance reclaims at every moment of a run if and only if no such write ever happens in it. */
  lemma BalancedExactly(states: seq<State>, steps: seq<Step>, l: Label)
    requires IsRun(states, steps)
    ensures AlwaysBalanced(states, l) <==> forall n: nat :: n < |steps| ==> !FreeWriteAt(states, steps, n, l)
  {
    hide Balanced;
    if forall n: nat :: n < |steps| ==> !FreeWriteAt(states, steps, n, l) {
      forall n: nat | n < |states| ensures Balanced(states[n][l]) { BalancedBefore(states, steps, n, l); }
    } else {
      var n := FirstFreeWrite(states, steps, l);
      BalancedBefore(states, steps, n, l);
      assert Follows(states, steps, n);
      BalanceStep(states[n], steps[n], l);
      assert !Balanced(states[n + 1][l]);
    }
  }

  ghost function FirstFreeWrite(states: seq<State>, steps: seq<Step>, l: Label): (n: nat)
    requires |states| == |steps| + 1 && exists m: nat :: m < |steps| && FreeWriteAt(states, steps, m, l)
    ensures n < |steps| && FreeWriteAt(states, steps, n, l)
    ensures forall m: nat :: m < n ==> !FreeWriteAt(states, steps, m, l)
  {
    var m: nat :| m < |steps| && FreeWriteAt(states, steps, m, l);
    Earliest(states, steps, l, m)
  }

  ghost function Earliest(states: seq<State>, steps: seq<Step>, l: Label, m: nat): (n: nat)
    requires |states| == |steps| + 1 && m < |steps| && FreeWriteAt(states, steps, m, l)
    ensures n <= m && FreeWriteAt(states, steps, n, l)
    ensures forall i: nat :: i < n ==> !FreeWriteAt(states, steps, i, l)
    decreases m
  {
    if i: nat :| i < m && FreeWriteAt(states, steps, i, l) then Earliest(states, steps, l, i) else m
  }

  /** No reclaim of the label completes while an accept or release of it is between its test and its write. */
  ghost predicate Separate(states: seq<State>, steps: seq<Step>, l: Label)
    requires |states| == |steps| + 1
  {
    forall n: nat :: n < |steps| ==> SeparateAt(states[n], steps[n], l)
  }

  predicate SeparateAt(s: State, a: Step, l: Label) { a == Api(l, ReclaimWrite(true)) ==> s[l].svm == Idle }

  /** A user's way of keeping the balance. */
  lemma {:induction false} SeparateIsEnough(states: seq<State>, steps: seq<Step>, n: nat, l: Label)
    requires IsRun(states, steps) && Separate(states, steps, l) && n < |states|
    ensures Balanced(states[n][l]) && (states[n][l].reclaiming || states[n][l].svm != Idle ==> states[n][l].e.status != None)
  {
    if n > 0 {
      SeparateIsEnough(states, steps, n - 1, l);
      assert Follows(states, steps, n - 1) && SeparateAt(states[n - 1], steps[n - 1], l);
      hide Balanced;
      BalanceStep(states[n - 1], steps[n - 1], l);
      StepEffect(states[n - 1], steps[n - 1], l);
    }
  }

  /**
    Both exceptions in one run: an interrupt is lent, a reclaim passes its test, the accept notification comes in, a
    release passes its test, the reclaim writes NONE and the release writes WAIT_LEND.
   */
  lemma RaceExample()
    ensures exists states: seq<State>, steps: seq<Step> :: IsRun(states, steps) && Raced(states[|steps|][0])
  {
    hide IsRun, Raced, CellApply, CellEnabled;
    var s0, none := [Init()], [];
    StartRun();
    RaceOfOne();
    var s1, a1 := Extend(s0, none, Api(0, LendClaim(1)), LendClaim(1));
    var s2, a2 := Extend(s1, a1, Api(0, ReclaimTest), ReclaimTest);
    var s3, a3 := Extend(s2, a2, NotifyAccepted(0), GotAccepted);
    var s4, a4 := Extend(s3, a3, Api(0, ReleaseTest), ReleaseTest);
    var s5, a5 := Extend(s4, a4, Api(0, ReclaimWrite(true)), ReclaimWrite(true));
    var s6, a6 := Extend(s5, a5, Api(0, ReleaseWrite(true)), ReleaseWrite(true));
    assert IsRun(s6, a6) && Raced(s6[|a6|][0]);
  }

  lemma StartRun()
    ensures IsRun([Init()], []) && Init()[0] == FreshCell()
  {
  }

  /** One more step, one that does x to label 0. */
  lemma Extend(states: seq<State>, steps: seq<Step>, a: Step, x: CellStep) returns (states': seq<State>, steps': seq<Step>)
    requires IsRun(states, steps) && |states| == |steps| + 1
    requires var c := states[|steps|][0];
             && CellEnabled(c, x)
             && ((a == Api(0, x) && IsApi(x)) || (a == NotifyAccepted(c.e.handle) && x == GotAccepted))
    ensures IsRun(states', steps') && |states'| == |steps'| + 1
    ensures states'[|steps'|][0] == CellApply(states[|steps|][0], x)
  {
    var s := states[|steps|];
    states', steps' := states + [Apply(s, a)], steps + [a];
    assert states'[0] == states[0];
    forall i: nat | i < |steps'| ensures Follows(states', steps', i) {
      if i < |steps| { assert Follows(states, steps, i); }
    }
  }

  /** The same steps on the one cell. */
  lemma RaceOfOne()
    ensures var c0 := FreshCell();
            && CellEnabled(c0, LendClaim(1)) && var c1 := CellApply(c0, LendClaim(1));
            && CellEnabled(c1, ReclaimTest) && var c2 := CellApply(c1, ReclaimTest);
            && c2.e.handle == 0 && CellEnabled(c2, GotAccepted) && var c3 := CellApply(c2, GotAccepted);
            && CellEnabled(c3, ReleaseTest) && var c4 := CellApply(c3, ReleaseTest);
            && CellEnabled(c4, ReclaimWrite(true)) && var c5 := CellApply(c4, ReclaimWrite(true));
            && CellEnabled(c5, ReleaseWrite(true)) && Raced(CellApply(c5, ReleaseWrite(true)))
  {
    hide Balanced;
    var c3 := CellApply(CellApply(CellApply(FreshCell(), LendClaim(1)), ReclaimTest), GotAccepted);
    CountRace(CellApply(CellApply(CellApply(c3, ReleaseTest), ReclaimWrite(true)), ReleaseWrite(true)));
  }

  predicate Raced(c: Cell) {
    && c.hist == [Claimed] + [ReclaimBegun] + [EnteredAccepted] + [Reclaimed] + [Other]
    && c.e.status == WaitLend && !Balanced(c)
  }

  lemma CountRace(c: Cell)
    requires c.hist == [Claimed] + [ReclaimBegun] + [EnteredAccepted] + [Reclaimed] + [Other] && c.e.status == WaitLend
    ensures !Balanced(c)
  {
    hide Count;
    CountsOfRace(Claimed);
    CountsOfRace(Reclaimed);
  }

  lemma CountsOfRace(x: Event)
    requires x == Claimed || x == Reclaimed
    ensures Count([Claimed] + [ReclaimBegun] + [EnteredAccepted] + [Reclaimed] + [Other], x) == 1
  {
    SnocReads([], Claimed, x);
    SnocReads([Claimed], ReclaimBegun, x);
    SnocReads([Claimed] + [ReclaimBegun], EnteredAccepted, x);
    SnocReads([Claimed] + [ReclaimBegun] + [EnteredAccepted], Reclaimed, x);
    SnocReads([Claimed] + [ReclaimBegun] + [EnteredAccepted] + [Reclaimed], Other, x);
    assert [] + [Claimed] == [Claimed];
  }

  /** gh_irq_entries, each method one stretch that nobody can interrupt. */
  class Table {
    const cells: array<Cell>

    ghost predicate Valid() { cells.Length == LABEL_MAX }

    function View(): State
      reads this, cells
      requires Valid()
    {
      cells[..]
    }

    constructor ()
      ensures Valid() && View() == Init() && fresh(cells)
    {
      cells := new Cell[LABEL_MAX](_ => FreshCell());
    }

    /** gh_irq_released_accepted_nb_handler. */
    method ReleasedAccepted(released: bool, handle: nat) returns (ok: bool, l: nat)
      requires Valid()
      modifies cells
      ensures View() == Apply(old(View()), if released then NotifyReleased(handle) else NotifyAccepted(handle))
      ensures ok <==> exists i :: 0 <= i < LABEL_MAX && old(cells[i]).e.handle == handle &&
                                  (old(cells[i]).e.status == WaitReleaseOrAccept || old(cells[i]).e.status == Accepted)
      ensures ok ==>
                && l < LABEL_MAX && old(View())[l].e.handle == handle
                && (old(View())[l].e.status == WaitReleaseOrAccept || old(View())[l].e.status == Accepted)
                && View()[l].e == old(View())[l].e.(status := if released then Released else Accepted)
                && View()[l].hist == old(View())[l].hist + [if released then EnteredReleased else EnteredAccepted]
                && forall i: nat :: i < LABEL_MAX && i != l ==> View()[i] == old(View())[i]
    {
      l := 0;
      while l < LABEL_MAX
        invariant l <= LABEL_MAX && View() == old(View())
        invariant forall i :: 0 <= i < l ==> !MatchesHandle(cells[i].e, handle)
      {
        var e := cells[l].e;
        if (e.status == WaitReleaseOrAccept || e.status == Accepted) && e.handle == handle {
          assert FirstMatch(old(View()), handle, 0) == l;
          cells[l] := if released then Put(cells[l], Released, EnteredReleased)
                      else Put(cells[l], Accepted, EnteredAccepted);
          return true, l;
        }
        l := l + 1;
      }
      ok := false;
    }

    /** gh_irq_lent_nb_handler, once the owner's name is known. */
    method LentNotified(virqLabel: nat, owner: nat, ownerName: VmName, handle: nat) returns (ok: bool)
      requires Valid()
      modifies cells
      ensures View() == Apply(old(View()), NotifyLent(virqLabel, owner, ownerName, handle))
      ensures ok <==>
                && virqLabel < LABEL_MAX
                && (old(View())[virqLabel].e.status == WaitLend || old(View())[virqLabel].e.status == Lent)
                && (old(View())[virqLabel].e.vmName == AnyVm || old(View())[virqLabel].e.vmName == ownerName)
      ensures ok ==>
                && View()[virqLabel].e.status == Lent && View()[virqLabel].e.vmid == owner
                && View()[virqLabel].e.handle == handle && View()[virqLabel].e.vmName == old(View())[virqLabel].e.vmName
                && View()[virqLabel].svm == old(View())[virqLabel].svm
                && forall i: nat :: i < LABEL_MAX && i != virqLabel ==> View()[i] == old(View())[i]
      ensures !ok ==> View() == old(View())
    {
      for l := 0 to LABEL_MAX
        invariant View() == old(View())
        invariant virqLabel < l ==> !MatchesLent(cells[virqLabel].e, ownerName)
      {
        var c := cells[l];
        if (c.e.status == WaitLend || c.e.status == Lent) && l == virqLabel
           && (c.e.vmName == AnyVm || c.e.vmName == ownerName) {
          cells[l] := Put(c.(e := c.e.(vmid := owner, handle := handle)), Lent, Other);
          return true;
        }
      }
      ok := false;
    }

    /** A wait, the matching notification and an accept that RM agrees to: the mapped number, and the label is ACCEPTED. */
    method WaitNotifyAccept(l: Label, name: VmName, owner: nat, ownerName: VmName, handle: nat, others: seq<Step>,
                            virq: nat, mapped: int)
      returns (ret: int)
      requires Valid() && Ok() && cells[l].e.status == None && cells[l].svm == Idle && (name == AnyVm || name == ownerName)
      modifies cells
      ensures Ok() && ret == mapped && View()[l].e.status == Accepted
      ensures others == [] ==> View()[l].e.vmid == owner && View()[l].e.handle == handle
    {
      hide CellInv, Apply, CellApply, Count;
      var waiting := WaitForLend(l, name);
      AllKeep(View(), NotifyLent(l, owner, ownerName, handle));
      var notified := LentNotified(l, owner, ownerName, handle);
      ret := Accept(l, -1, true, others, virq, mapped);
    }

    /** For every label: entry, calls under way and history fit together. */
    ghost predicate Ok()
      reads this, cells
      requires Valid()
    {
      forall l: nat :: l < LABEL_MAX ==> CellInv(cells[l])
    }

    /** One step of anybody's. */
    method Do(a: Step)
      requires Valid() && Ok() && Enabled(View(), a)
      modifies cells
      ensures View() == Apply(old(View()), a) && Ok()
    {
      AllKeep(View(), a);
      match a
      case Api(l, x) => cells[l] := CellApply(cells[l], x);
      case NotifyReleased(h) => var _, _ := ReleasedAccepted(true, h);
      case NotifyAccepted(h) => var _, _ := ReleasedAccepted(false, h);
      case NotifyLent(l, owner, name, h) => var _ := LentNotified(l, owner, name, h);
    }

    /** What others do while a call on label l is under way; its own write is nobody else's. */
    method Others(steps: seq<Step>, l: Label)
      requires Valid() && Ok()
      modifies cells
      ensures Ok() && Meanwhile(old(View())[l], cells[l]) && (steps == [] ==> View() == old(View()))
    {
      for i := 0 to |steps|
        invariant Ok() && Meanwhile(old(View())[l], cells[l]) && (i == 0 ==> View() == old(View()))
      {
        hide CellInv, CellEnabled, CellApply, Meanwhile;
        if Enabled(View(), steps[i]) && !Writes(steps[i], l) {
          MeanwhileStep(old(View())[l], View(), steps[i], l);
          Do(steps[i]);
        }
      }
    }

    method Set(l: Label, c: Cell)
      requires Valid() && Ok() && CellInv(c)
      modifies cells
      ensures Ok() && View() == old(View())[l := c]
    {
      hide CellInv;
      cells[l] := c;
    }

    /**
      gh_irq_reclaim. It returns 0 exactly when the label's count of reclaims goes up, by one, and the label is free;
      refused by its test it changes nothing; and nobody can claim the label while it is under way.
     */
    method Reclaim(l: nat, others: seq<Step>, rm: int) returns (ret: int)
      requires Valid() && Ok() && (l < LABEL_MAX ==> !cells[l].reclaiming)
      modifies cells
      ensures Ok()
      ensures !Reclaimable(old(View()), l) ==> ret == EINVAL && View() == old(View())
      ensures l < LABEL_MAX && old(View())[l].e.status == Released ==> ret == rm
      ensures l < LABEL_MAX && old(View())[l].e.status == WaitReleaseOrAccept ==> ret == rm
      ensures Reclaimable(old(View()), l) ==>
                && ret == rm && (ret == 0 <==> View()[l].e.status == None)
                && Count(View()[l].hist, Reclaimed) == Count(old(View())[l].hist, Reclaimed) + (if ret == 0 then 1 else 0)
                && Count(View()[l].hist, Claimed) == Count(old(View())[l].hist, Claimed)
    {
      hide CellInv, Count, Meanwhile;
      if l >= LABEL_MAX { return EINVAL; }
      var e := cells[l].e;
      if e.status != WaitReleaseOrAccept && e.status != Released { return EINVAL; }
      CellKeeps(cells[l], ReclaimTest);
      ghost var c0 := cells[l];
      Set(l, cells[l].(reclaiming := true, hist := cells[l].hist + [ReclaimBegun]));
      ghost var c1 := cells[l];
      Others(others, l);
      ghost var c2 := cells[l];
      ReclaimCounts(c0, c1, c2);
      CellKeeps(c2, ReclaimWrite(rm == 0));
      ret := rm;
      if ret == 0 {
        Set(l, cells[l].(e := cells[l].e.(status := None), reclaiming := false, hist := cells[l].hist + [Reclaimed]));
      } else {
        Set(l, cells[l].(reclaiming := false, hist := cells[l].hist + [ReclaimFailed]));
      }
    }

    /**
      gh_irq_accept; `mapped` is the Linux number RM's answer maps to. A number is returned exactly when RM agreed, and
      then the label is ACCEPTED, whatever happened in between; refused by a test it changes nothing.
     */
    method Accept(l: nat, irq: int, virqKnown: bool, others: seq<Step>, rm: int, mapped: int) returns (ret: int)
      requires Valid() && Ok() && (l < LABEL_MAX ==> cells[l].svm == Idle)
      modifies cells
      ensures Ok()
      ensures !(l < LABEL_MAX && old(View())[l].e.status == Lent && (irq != -1 ==> virqKnown)) ==>
                ret == EINVAL && View() == old(View())
      ensures l < LABEL_MAX && old(View())[l].e.status == Lent && (irq != -1 ==> virqKnown) ==>
                && ret == (if rm < 0 then rm else if irq == -1 then mapped else irq) && old(View())[l].hist <= View()[l].hist
                && (rm >= 0 ==> View()[l].e.status == Accepted && |old(View())[l].hist| < |View()[l].hist|)
                && (rm >= 0 ==> View()[l].hist[|View()[l].hist| - 1] == EnteredAccepted)
                && (others == [] ==> View()[l].e == old(View())[l].e.(status := if rm >= 0 then Accepted else Lent))
                && View()[l].svm == Idle
    {
      hide CellInv, Count;
      if l >= LABEL_MAX || cells[l].e.status != Lent { return EINVAL; }
      if irq != -1 && !virqKnown { return EINVAL; }
      CellKeeps(cells[l], AcceptTest);
      Set(l, cells[l].(svm := Accepting));
      Others(others, l);
      CellKeeps(cells[l], AcceptWrite(rm >= 0));
      if rm < 0 {
        Set(l, cells[l].(svm := Idle));
        return rm;
      }
      ret := if irq == -1 then mapped else irq;
      Set(l, cells[l].(svm := Idle, e := cells[l].e.(status := Accepted), hist := cells[l].hist + [EnteredAccepted]));
    }

    /** gh_irq_release. It returns RM's answer, and 0 leaves the label waiting for the next lend. */
    method Release(l: nat, others: seq<Step>, rm: int) returns (ret: int)
      requires Valid() && Ok() && (l < LABEL_MAX ==> cells[l].svm == Idle)
      modifies cells
      ensures Ok()
      ensures !(l < LABEL_MAX && old(View())[l].e.status == Accepted) ==> ret == EINVAL && View() == old(View())
      ensures l < LABEL_MAX && old(View())[l].e.status == Accepted ==>
                && ret == rm && (ret == 0 ==> View()[l].e.status == WaitLend)
                && View()[l].svm == Idle && old(View())[l].hist <= View()[l].hist
    {
      hide CellInv, Count;
      if l >= LABEL_MAX || cells[l].e.status != Accepted { return EINVAL; }
      CellKeeps(cells[l], ReleaseTest);
      Set(l, cells[l].(svm := Releasing));
      Others(others, l);
      CellKeeps(cells[l], ReleaseWrite(rm == 0));
      ret := rm;
      if ret == 0 {
        Set(l, cells[l].(svm := Idle, e := cells[l].e.(status := WaitLend), hist := cells[l].hist + [Other]));
      } else {
        Set(l, cells[l].(svm := Idle));
      }
    }

    /**
      gh_irq_lend_v2; `vmid` is negative when the VM's name is unknown. A claim is made exactly when the label is free
      and both lookups work, it comes first of all that happens to the label, and a failed RM call does not undo it.
     */
    method Lend(l: nat, virqKnown: bool, vmid: int, others: seq<Step>, rm: int, handle: nat) returns (ret: int)
      requires Valid() && Ok()
      modifies cells
      ensures Ok()
      ensures !(l < LABEL_MAX && virqKnown && old(View())[l].e.status == None && vmid >= 0) ==>
                ret < 0 && View() == old(View())
      ensures l < LABEL_MAX && virqKnown && old(View())[l].e.status == None && vmid >= 0 ==>
                && ret == rm && old(View())[l].hist + [Claimed] <= View()[l].hist
                && (ret == 0 ==> View()[l].e.handle == handle)
                && (others == [] ==> View()[l].e.status == WaitReleaseOrAccept && View()[l].e.vmid == vmid)
    {
      hide CellInv, Count;
      if l >= LABEL_MAX || !virqKnown || cells[l].e.status != None { return EINVAL; }
      if vmid < 0 { return vmid; }
      CellKeeps(cells[l], LendClaim(vmid));
      Set(l, cells[l].(e := cells[l].e.(vmid := vmid, status := WaitReleaseOrAccept), hist := cells[l].hist + [Claimed]));
      ghost var c1 := cells[l];
      Others(others, l);
      ret := rm;
      if ret == 0 {
        CellKeeps(cells[l], LendHandle(handle));
        Set(l, cells[l].(e := cells[l].e.(handle := handle)));
      }
    }

    /** gh_irq_wait_for_lend_v2: the label waits for the named lender exactly when it was free. */
    method WaitForLend(l: nat, name: VmName) returns (ret: int)
      requires Valid() && Ok()
      modifies cells
      ensures Ok() && (ret == 0 <==> l < LABEL_MAX && old(View())[l].e.status == None)
      ensures ret != 0 ==> ret == EINVAL && View() == old(View())
      ensures ret == 0 ==>
                && View()[l].hist == old(View())[l].hist + [Claimed] && View()[l].svm == old(View())[l].svm
                && View()[l].e == old(View())[l].e.(status := WaitLend, vmName := name)
                && (forall owner: VmName :: MatchesLent(View()[l].e, owner) <==> name == AnyVm || name == owner)
                && forall k: nat :: k < LABEL_MAX && k != l ==> View()[k] == old(View())[k]
    {
      hide CellInv;
      if l >= LABEL_MAX || cells[l].e.status != None { return EINVAL; }
      CellKeeps(cells[l], WaitClaim(name));
      Set(l, cells[l].(e := cells[l].e.(vmName := name, status := WaitLend), hist := cells[l].hist + [Claimed]));
      ret := 0;
    }
  }

  predicate Reclaimable(s: State, l: nat) {
    l < LABEL_MAX && (s[l].e.status == WaitReleaseOrAccept || s[l].e.status == Released)
  }

  /** A step that only a call already under way on the label can make. */
  predicate Writes(a: Step, l: Label) {
    a.Api? && a.l == l && (a.a.ReclaimWrite? || a.a.AcceptWrite? || a.a.ReleaseWrite?)
  }

  /** What others can do to a label on which a call is under way. */
  ghost predicate Meanwhile(c: Cell, c': Cell) {
    && c.hist <= c'.hist && (c.svm != Idle ==> c'.svm == c.svm) && (c.reclaiming ==> c'.reclaiming)
    && (c.reclaiming && c.e.status != None ==>
          && c'.e.status != None
          && Count(c'.hist, Reclaimed) == Count(c.hist, Reclaimed) && Count(c'.hist, Claimed) == Count(c.hist, Claimed))
  }

  lemma MeanwhileStep(c: Cell, s: State, a: Step, l: Label)
    requires Meanwhile(c, s[l]) && Enabled(s, a) && !Writes(a, l)
    ensures Meanwhile(c, Apply(s, a)[l])
  {
    StepEffect(s, a, l);
    var f := EffectOn(s, a, l);
    if f.Does? {
      hide Count, Apply;
      var h, h' := s[l].hist, CellApply(s[l], f.a).hist;
      if h' != h {
        SnocReads(h, h'[|h|], Claimed);
        SnocReads(h, h'[|h|], Reclaimed);
      }
    }
  }

  lemma AllKeep(s: State, a: Step)
    requires Enabled(s, a) && forall l: nat :: l < LABEL_MAX ==> CellInv(s[l])
    ensures forall l: nat :: l < LABEL_MAX ==> CellInv(Apply(s, a)[l])
  {
    hide CellInv, CellApply, CellEnabled;
    forall l: nat | l < LABEL_MAX ensures CellInv(Apply(s, a)[l]) {
      StepEffect(s, a, l);
      var f := EffectOn(s, a, l);
      if f.Does? { CellKeeps(s[l], f.a); }
    }
  }

  lemma ReclaimCounts(c0: Cell, c1: Cell, c2: Cell)
    requires c1.hist == c0.hist + [ReclaimBegun] && c1.reclaiming && c1.e.status != None && Meanwhile(c1, c2)
    ensures c2.reclaiming && c2.e.status != None
    ensures Count(c2.hist, Claimed) == Count(c0.hist, Claimed) && Count(c2.hist, Reclaimed) == Count(c0.hist, Reclaimed)
    ensures Count(c2.hist + [Reclaimed], Reclaimed) == Count(c2.hist, Reclaimed) + 1
    ensures Count(c2.hist + [Reclaimed], Claimed) == Count(c2.hist, Claimed)
    ensures Count(c2.hist + [ReclaimFailed], Reclaimed) == Count(c2.hist, Reclaimed)
    ensures Count(c2.hist + [ReclaimFailed], Claimed) == Count(c2.hist, Claimed)
  {
    hide Count;
    SnocReads(c0.hist, ReclaimBegun, Claimed);
    SnocReads(c0.hist, ReclaimBegun, Reclaimed);
    SnocReads(c2.hist, Reclaimed, Claimed);
    SnocReads(c2.hist, Reclaimed, Reclaimed);
    SnocReads(c2.hist, ReclaimFailed, Claimed);
    SnocReads(c2.hist, ReclaimFailed, Reclaimed);
  }
}
