/**
  gh_secure_vm_virtio_backend.c: the event words of a virtio backend device. An interrupt producer, any number of
  waiting threads, the registration of eventfds, the driver's acknowledgement, VM exit and re-initialisation all touch
  the same fields. A word is the set of its bit positions.
 */
module VirtioEvents {

  type Word = set<nat>

  const MAX_IO_CONTEXTS := 16
  const NEW_BUFFER: nat := 0
  const RESET_RQST: nat := 1
  const INTERRUPT_ACK: nat := 2
  const DRIVER_OK: nat := 3
  const MODULE_EXIT: nat := 5
  const VM_EXIT: nat := 6
  const APP_EXIT: nat := 8

  /** `ctx`: the queues that have an eventfd. */
  datatype Dev = Dev(event: Word, data: Word, curEvent: Word, curData: Word, avail: bool, ack: bool, ctx: Word)

  // The code under the device's lock.

  /** One turn of the loop in vdev_interrupt, and the queues it signals. */
  function Interrupted(d: Dev, event: Word, data: Word): Dev {
    if NEW_BUFFER in event && d.ack then
      var rest := event - {NEW_BUFFER};
      var d' := d.(data := d.data + data - d.ctx);
      if rest == {} then d' else d'.(event := d.event + rest, avail := true)
    else
      d.(event := d.event + event, data := d.data + data, avail := true)
  }

  function InterruptSignals(d: Dev, event: Word, data: Word): Word {
    if NEW_BUFFER in event && d.ack then (d.data + data) * d.ctx else {}
  }

  predicate Exiting(event: Word) { MODULE_EXIT in event || VM_EXIT in event }
  predicate TakesReset(d: Dev) { !Exiting(d.event) && RESET_RQST in d.event }
  predicate TakesBuffer(d: Dev) {
    !Exiting(d.event) && RESET_RQST !in d.event && DRIVER_OK !in d.event && NEW_BUFFER in d.event
  }

  /** The locked part of GH_WAIT_FOR_EVENT after its first three stores. */
  function Decided(d: Dev, ackReg: Word): Dev {
    if Exiting(d.event) then d.(curEvent := {APP_EXIT})
    else if TakesReset(d) then
      var rest := d.event - {RESET_RQST};
      d.(event := rest, curEvent := {RESET_RQST}, ack := false, ctx := {}, avail := d.avail || rest != {})
    else if DRIVER_OK in d.event then
      var rest := d.event - {DRIVER_OK};
      if d.ack then d.(event := rest)
      else d.(event := rest, curEvent := {DRIVER_OK}, avail := d.avail || rest != {})
    else if TakesBuffer(d) then
      var rest := d.event - {NEW_BUFFER};
      var left := if d.ack then d.data - d.ctx else d.data;
      if rest == {} then d.(event := {}, data := left)
      else d.(event := {}, data := {}, curEvent := rest, curData := if INTERRUPT_ACK in rest then ackReg else left)
    else if INTERRUPT_ACK in d.event then
      d.(event := d.event - {INTERRUPT_ACK}, data := {}, curEvent := {INTERRUPT_ACK}, curData := ackReg)
    else d
  }

  /** The first three stores of the locked section. */
  function Cleared(d: Dev): Dev { d.(curEvent := {}, curData := {}, avail := false) }

  /** gh_virtio_mmio_app_exit: whatever was pending gives way to the exit. */
  function Exited(d: Dev): Dev { d.(event := {VM_EXIT}, data := {}, avail := true) }

  /** init_vb_dev_open: nothing is pending; acknowledgement and eventfds stay. */
  function Opened(d: Dev): Dev { Dev({}, {}, {}, {}, false, d.ack, d.ctx) }

  function DecideSignals(d: Dev): Word {
    if TakesBuffer(d) && d.ack then d.data * d.ctx else {}
  }

  // The machine.

  datatype Holder = Nobody | Waiter(thread: nat)
  datatype Pc = Passed | Inside | Left | Checked

  datatype Event =
    | Deliver(event: Word, data: Word, sig: Word)
    | Take(thread: nat)                                               // a waiter takes the lock
    | Decide(thread: nat, seen: Word, report: Word, sig: Word)        // what it found pending, and cur_event when it leaves
    | Ack | Register(q: nat) | Exit | Open | Report(thread: nat, event: Word, busy: bool)

  datatype State = State(dev: Dev, holder: Holder, waiters: map<nat, Pc>, trace: seq<Event>)

  function Init(): State { State(Dev({}, {}, {}, {}, false, false, {}), Nobody, map[], []) }

  datatype Step =
    | Interrupt(event: Word, data: Word)
    | Pass(thread: nat)                          // evt_avail seen set
    | Enter(thread: nat)                         // lock taken, cur_event and evt_avail cleared
    | DecideAndUnlock(thread: nat, ackReg: Word)
    | Check(thread: nat)                         // unlocked test of cur_event
    | Read(thread: nat)                          // unlocked read of cur_event, and return
    | AckDriverOk | IoEventFd(q: nat) | AppExit | OpenDev

  predicate Enabled(s: State, a: Step) {
    match a
    case Interrupt(event, _) => s.holder == Nobody && event != {}
    case Pass(t) => t !in s.waiters && s.dev.avail
    case Enter(t) => t in s.waiters && s.waiters[t] == Passed && s.holder == Nobody
    case DecideAndUnlock(t, _) => s.holder == Waiter(t)
    case Check(t) => t in s.waiters && s.waiters[t] == Left
    case Read(t) => t in s.waiters && s.waiters[t] == Checked
    case AckDriverOk => true
    case IoEventFd(q) => s.holder == Nobody && q < MAX_IO_CONTEXTS
    case AppExit => s.holder == Nobody
    case OpenDev => s.holder == Nobody
  }

  function Apply(s: State, a: Step): State
    requires Enabled(s, a)
  {
    var d := s.dev;
    match a
    case Interrupt(event, data) =>
      s.(dev := Interrupted(d, event, data), trace := s.trace + [Deliver(event, data, InterruptSignals(d, event, data))])
    case Pass(t) => s.(waiters := s.waiters[t := Passed])
    case Enter(t) =>
      s.(dev := Cleared(d), holder := Waiter(t), waiters := s.waiters[t := Inside],
         trace := s.trace + [Take(t)])
    case DecideAndUnlock(t, ackReg) =>
      s.(dev := Decided(d, ackReg), holder := Nobody, waiters := s.waiters[t := Left],
         trace := s.trace + [Decide(t, d.event, Decided(d, ackReg).curEvent, DecideSignals(d))])
    case Check(t) =>
      if d.curEvent == {} then s.(waiters := s.waiters - {t}) else s.(waiters := s.waiters[t := Checked])
    case Read(t) =>
      s.(waiters := s.waiters - {t}, trace := s.trace + [Report(t, d.curEvent, s.holder != Nobody)])
    case AckDriverOk => s.(dev := d.(ack := true), trace := s.trace + [Ack])
    case IoEventFd(q) =>
      if q in d.ctx then s else s.(dev := d.(ctx := d.ctx + {q}), trace := s.trace + [Register(q)])
    case AppExit => s.(dev := Exited(d), trace := s.trace + [Exit])
    case OpenDev =>
      s.(dev := Opened(d), trace := s.trace + [Open])
  }

  predicate RunEnabled(s: State, run: seq<Step>)
    decreases |run|
  {
    run == [] || (Enabled(s, run[0]) && RunEnabled(Apply(s, run[0]), run[1..]))
  }

  function After(s: State, run: seq<Step>): State
    requires RunEnabled(s, run)
    decreases |run|
  {
    if run == [] then s else After(Apply(s, run[0]), run[1..])
  }

  // What a trace says, read on its own.

  function Signals(e: Event): Word {
    match e
    case Deliver(_, _, sig) => sig
    case Decide(_, _, _, sig) => sig
    case _ => {}
  }

  /** How many delivered event_data words had bit q. */
  function Delivered(t: seq<Event>, q: nat): nat {
    if t == [] then 0
    else
      var e := t[|t| - 1];
      Delivered(t[..|t| - 1], q) + (if e.Deliver? && q in e.data then 1 else 0)
  }

  /** How many times the eventfd of queue q was signalled. */
  function Signalled(t: seq<Event>, q: nat): nat {
    if t == [] then 0 else Signalled(t[..|t| - 1], q) + (if q in Signals(t[|t| - 1]) then 1 else 0)
  }

  /** Some `yes` event has happened and no `no` event after it. */
  predicate Since(t: seq<Event>, yes: Event -> bool, no: Event -> bool) {
    exists k: nat :: k < |t| && yes(t[k]) && forall j :: k < j < |t| ==> !no(t[j])
  }

  predicate IsAck(e: Event) { e.Ack? }
  /** A locked section that takes a reset: one is pending, and no exit. */
  predicate IsReset(e: Event) {
    e.Decide? && RESET_RQST in e.seen && MODULE_EXIT !in e.seen && VM_EXIT !in e.seen
  }
  predicate IsExit(e: Event) { e.Exit? }
  predicate IsOpen(e: Event) { e.Open? }
  function IsRegister(q: nat): Event -> bool { e => e == Register(q) }

  /** Something a waiter has to be woken for, and what ends that. */
  predicate IsAwaited(e: Event) { e.Exit? || (e.Deliver? && e.event - {NEW_BUFFER} != {}) }
  predicate IsTaken(e: Event) { e.Take? || e.Open? }

  /** The events that go before event b (RESET_RQST, DRIVER_OK or INTERRUPT_ACK) when both are pending. */
  function Above(b: nat): Word {
    if b == RESET_RQST then {MODULE_EXIT, VM_EXIT}
    else if b == DRIVER_OK then {MODULE_EXIT, VM_EXIT, RESET_RQST}
    else {MODULE_EXIT, VM_EXIT, RESET_RQST, DRIVER_OK}
  }

  predicate Ranked(b: nat) { b == RESET_RQST || b == DRIVER_OK || b == INTERRUPT_ACK }

  predicate DeliversIt(b: nat, e: Event) { e.Deliver? && b in e.event }
  function Delivers(b: nat): Event -> bool { e => DeliversIt(b, e) }

  /** What takes event b away: a locked section in which nothing goes before it, VM exit or a new open. */
  predicate RemovesIt(b: nat, e: Event) { e.Exit? || e.Open? || (e.Decide? && e.seen !! Above(b)) }
  function Removes(b: nat): Event -> bool { e => RemovesIt(b, e) }

  predicate ExitPending(t: seq<Event>) { Since(t, IsExit, IsOpen) }

  /** The thread went through a locked section with VM_EXIT pending, and the device was not opened again since. */
  predicate SawExit(t: seq<Event>, thread: nat) {
    && t != []
    && var before, e := t[..|t| - 1], t[|t| - 1];
       !e.Open? && (SawExit(before, thread) || (e.Decide? && e.thread == thread && ExitPending(before)))
  }

  /** A queue may be signalled now. */
  predicate MaySignal(before: seq<Event>, q: nat) {
    q < MAX_IO_CONTEXTS && Since(before, IsAck, IsReset) && Since(before, IsRegister(q), IsReset)
  }

  ghost predicate Allowed(before: seq<Event>, e: Event) {
    && (forall q: nat :: q in Signals(e) ==> MaySignal(before, q))
    && (e.Report? && SawExit(before, e.thread) ==> e.event == if e.busy then {} else {APP_EXIT})
    && (e.Decide? ==> e.report == Due(e.seen, Since(before, IsAck, IsReset)) && SeesAll(before, e.seen))
  }

  /** What a locked section has to report, given what is pending and whether the driver has acknowledged. */
  function Due(seen: Word, acked: bool): Word {
    if MODULE_EXIT in seen || VM_EXIT in seen then {APP_EXIT}
    else if RESET_RQST in seen then {RESET_RQST}
    else if DRIVER_OK in seen then (if acked then {} else {DRIVER_OK})
    else if NEW_BUFFER in seen then seen - {NEW_BUFFER}
    else if INTERRUPT_ACK in seen then {INTERRUPT_ACK}
    else {}
  }

  ghost predicate SeesAll(before: seq<Event>, seen: Word) { forall b: nat :: Ranked(b) ==> PendingOk(before, seen, b) }
  predicate PendingOk(t: seq<Event>, event: Word, b: nat) { Since(t, Delivers(b), Removes(b)) ==> b in event }

  ghost predicate Lawful(t: seq<Event>) {
    forall i: nat :: i < |t| ==> Allowed(t[..i], t[i])
  }

  // Invariants, one for each claim.

  predicate Credit(t: seq<Event>, data: Word, q: nat) {
    Signalled(t, q) + (if q in data then 1 else 0) <= Delivered(t, q)
  }

  ghost predicate CreditOk(t: seq<Event>, data: Word) { forall q: nat :: Credit(t, data, q) }

  predicate AckOk(t: seq<Event>, ack: bool) { ack <==> Since(t, IsAck, IsReset) }

  predicate AvailOk(t: seq<Event>, avail: bool) { Since(t, IsAwaited, IsTaken) ==> avail }

  predicate ContextOk(t: seq<Event>, q: nat) { q < MAX_IO_CONTEXTS && Since(t, IsRegister(q), IsReset) }
  predicate ContextsOk(t: seq<Event>, ctx: Word) { forall q: nat :: q in ctx ==> ContextOk(t, q) }

  predicate SeenOk(t: seq<Event>, thread: nat, curEvent: Word, holder: Holder) {
    SawExit(t, thread) ==> ExitPending(t) && curEvent == if holder == Nobody then {APP_EXIT} else {}
  }

  ghost predicate ExitOk(t: seq<Event>, d: Dev, holder: Holder) {
    && (ExitPending(t) ==> VM_EXIT in d.event)
    && (forall thread: nat :: SeenOk(t, thread, d.curEvent, holder))
  }

  predicate HolderOk(s: State) {
    s.holder == Nobody || (s.holder.thread in s.waiters && s.waiters[s.holder.thread] == Inside && s.dev.curEvent == {})
  }

  ghost predicate Inv(s: State) {
    && HolderOk(s)
    && CreditOk(s.trace, s.dev.data) && AckOk(s.trace, s.dev.ack) && ContextsOk(s.trace, s.dev.ctx)
    && ExitOk(s.trace, s.dev, s.holder) && Lawful(s.trace) && AvailOk(s.trace, s.dev.avail)
    && SeesAll(s.trace, s.dev.event)
  }

  lemma SnocSince(t: seq<Event>, e: Event, yes: Event -> bool, no: Event -> bool)
    ensures Since(t + [e], yes, no) <==> yes(e) || (!no(e) && Since(t, yes, no))
  {
    var u := t + [e];
    if yes(e) {
      assert yes(u[|t|]);
    } else if !no(e) && Since(t, yes, no) {
      var k: nat :| k < |t| && yes(t[k]) && forall j :: k < j < |t| ==> !no(t[j]);
      assert yes(u[k]);
    } else {
      forall k: nat | k < |u| && yes(u[k]) ensures exists j :: k < j < |u| && no(u[j]) {
        if no(e) {
          assert no(u[|t|]);
        } else {
          assert yes(t[k]);
          var j :| k < j < |t| && no(t[j]);
          assert no(u[j]);
        }
      }
    }
  }

  lemma SnocCounts(t: seq<Event>, e: Event, q: nat)
    ensures Delivered(t + [e], q) == Delivered(t, q) + (if e.Deliver? && q in e.data then 1 else 0)
    ensures Signalled(t + [e], q) == Signalled(t, q) + (if q in Signals(e) then 1 else 0)
  {
    var u := t + [e];
    assert u[..|u| - 1] == t && u[|u| - 1] == e;
  }

  lemma SnocSawExit(t: seq<Event>, e: Event, thread: nat)
    ensures SawExit(t + [e], thread) <==>
            !e.Open? && (SawExit(t, thread) || (e.Decide? && e.thread == thread && ExitPending(t)))
  {
    var u := t + [e];
    assert u[..|u| - 1] == t && u[|u| - 1] == e;
  }

  lemma SnocLawful(t: seq<Event>, e: Event)
    requires Lawful(t) && Allowed(t, e)
    ensures Lawful(t + [e])
  {
    hide Allowed;
    var u := t + [e];
    forall i: nat | i < |u| ensures Allowed(u[..i], u[i]) {
      assert u[..i] == t[..i];
      if i == |t| { assert t[..i] == t; }
    }
  }

  /** The event a step adds (for a step that adds none, any). */
  function EventOf(s: State, a: Step): Event {
    match a
    case Interrupt(event, data) => Deliver(event, data, InterruptSignals(s.dev, event, data))
    case Enter(t) => Take(t)
    case DecideAndUnlock(t, ackReg) => Decide(t, s.dev.event, Decided(s.dev, ackReg).curEvent, DecideSignals(s.dev))
    case Read(t) => Report(t, s.dev.curEvent, s.holder != Nobody)
    case AckDriverOk => Ack
    case IoEventFd(q) => Register(q)
    case AppExit => Exit
    case _ => Open
  }

  lemma CreditKeeps(s: State, a: Step)
    requires Enabled(s, a) && CreditOk(s.trace, s.dev.data)
    ensures CreditOk(Apply(s, a).trace, Apply(s, a).dev.data)
  {
    hide Delivered, Signalled;
    forall q: nat ensures Credit(Apply(s, a).trace, Apply(s, a).dev.data, q) {
      assert Credit(s.trace, s.dev.data, q);
      SnocCounts(s.trace, EventOf(s, a), q);
    }
  }

  lemma AckKeeps(s: State, a: Step)
    requires Enabled(s, a) && AckOk(s.trace, s.dev.ack)
    ensures AckOk(Apply(s, a).trace, Apply(s, a).dev.ack)
  {
    hide Since;
    SnocSince(s.trace, EventOf(s, a), IsAck, IsReset);
  }

  lemma AvailKeeps(s: State, a: Step)
    requires Enabled(s, a) && AvailOk(s.trace, s.dev.avail)
    ensures AvailOk(Apply(s, a).trace, Apply(s, a).dev.avail)
  {
    hide Since;
    SnocSince(s.trace, EventOf(s, a), IsAwaited, IsTaken);
  }

  lemma PendingKeeps(s: State, a: Step)
    requires Enabled(s, a) && SeesAll(s.trace, s.dev.event)
    ensures SeesAll(Apply(s, a).trace, Apply(s, a).dev.event)
  {
    forall b: nat | Ranked(b) ensures PendingOk(Apply(s, a).trace, Apply(s, a).dev.event, b) {
      assert PendingOk(s.trace, s.dev.event, b);
      OnePendingKeeps(s, a, b);
    }
  }

  lemma OnePendingKeeps(s: State, a: Step, b: nat)
    requires Enabled(s, a) && Ranked(b) && PendingOk(s.trace, s.dev.event, b)
    ensures PendingOk(Apply(s, a).trace, Apply(s, a).dev.event, b)
  {
    hide Since, Above;
    var e := EventOf(s, a);
    SnocSince(s.trace, e, Delivers(b), Removes(b));
    assert Delivers(b)(e) == DeliversIt(b, e) && Removes(b)(e) == RemovesIt(b, e);
    match a
    case Interrupt(event, _) =>
      if b in event { assert b in event - {NEW_BUFFER}; }
      assert b in event || b in s.dev.event ==> b in Apply(s, a).dev.event;
    case DecideAndUnlock(_, ackReg) =>
      if b in s.dev.event && !(s.dev.event !! Above(b)) { DecideLeaves(s.dev, ackReg, b); }
    case _ =>
  }

  /** A locked section leaves an event pending when something goes before it. */
  lemma DecideLeaves(d: Dev, ackReg: Word, b: nat)
    requires Ranked(b) && b in d.event && !(d.event !! Above(b))
    ensures b in Decided(d, ackReg).event
  {
    var x :| x in d.event && x in Above(b);
  }

  /** The locked section reports what is due. */
  lemma ReportsDue(d: Dev, ackReg: Word)
    requires d.curEvent == {}
    ensures Decided(d, ackReg).curEvent == Due(d.event, d.ack)
  {
  }

  lemma ContextsKeep(s: State, a: Step)
    requires Enabled(s, a) && ContextsOk(s.trace, s.dev.ctx)
    ensures ContextsOk(Apply(s, a).trace, Apply(s, a).dev.ctx)
  {
    hide Since;
    forall q: nat | q in Apply(s, a).dev.ctx ensures ContextOk(Apply(s, a).trace, q) {
      assert q in s.dev.ctx ==> ContextOk(s.trace, q);
      SnocSince(s.trace, EventOf(s, a), IsRegister(q), IsReset);
    }
  }

  lemma ExitKeeps(s: State, a: Step)
    requires Enabled(s, a) && ExitOk(s.trace, s.dev, s.holder)
    ensures var s' := Apply(s, a); ExitOk(s'.trace, s'.dev, s'.holder)
  {
    hide Since, SawExit;
    var s' := Apply(s, a);
    SnocSince(s.trace, EventOf(s, a), IsExit, IsOpen);
    forall thread: nat ensures SeenOk(s'.trace, thread, s'.dev.curEvent, s'.holder) {
      assert SeenOk(s.trace, thread, s.dev.curEvent, s.holder);
      SnocSawExit(s.trace, EventOf(s, a), thread);
    }
  }

  lemma LawKeeps(s: State, a: Step)
    requires Inv(s) && Enabled(s, a)
    ensures Lawful(Apply(s, a).trace)
  {
    hide Since, SawExit, Lawful, CreditOk, Interrupted, Decided, Due, SeesAll;
    var e := EventOf(s, a);
    if Apply(s, a).trace != s.trace {
      forall q: nat | q in Signals(e) ensures MaySignal(s.trace, q) {
        assert ContextOk(s.trace, q);
      }
      if a.DecideAndUnlock? { ReportsDue(s.dev, a.ackReg); }
      if a.Read? { assert SeenOk(s.trace, a.thread, s.dev.curEvent, s.holder); }
      SnocLawful(s.trace, e);
    }
  }

  lemma StepKeeps(s: State, a: Step)
    requires Inv(s) && Enabled(s, a)
    ensures Inv(Apply(s, a))
  {
    hide CreditOk, AckOk, ContextsOk, ExitOk, Lawful, AvailOk, SeesAll;
    CreditKeeps(s, a);
    AckKeeps(s, a);
    ContextsKeep(s, a);
    ExitKeeps(s, a);
    AvailKeeps(s, a);
    PendingKeeps(s, a);
    LawKeeps(s, a);
  }

  lemma InitInv()
    ensures Inv(Init())
  {
    assert forall q: nat :: Credit([], {}, q);
  }

  lemma {:induction false} RunKeeps(s: State, run: seq<Step>)
    requires Inv(s) && RunEnabled(s, run)
    ensures Inv(After(s, run))
    decreases |run|
  {
    hide Inv, Apply;
    if run != [] {
      StepKeeps(s, run[0]);
      RunKeeps(Apply(s, run[0]), run[1..]);
    }
  }

  /** A queue is never signalled more often than it was asked for, counting a request that is still pending. */
  lemma NoSpuriousSignal(run: seq<Step>, q: nat)
    requires RunEnabled(Init(), run)
    ensures var s := After(Init(), run);
            Signalled(s.trace, q) + (if q in s.dev.data then 1 else 0) <= Delivered(s.trace, q)
  {
    InitInv();
    RunKeeps(Init(), run);
    var s := After(Init(), run);
    assert Credit(s.trace, s.dev.data, q);
  }

  /**
    Between the locked section that takes a reset and any later signal there are an acknowledgement from the driver and
    a registration of that very queue's eventfd. The same holds for the first signal of all.
   */
  lemma ResetSilences(run: seq<Step>, i: int, j: nat, q: nat)
    requires RunEnabled(Init(), run)
    requires -1 <= i < j < |After(Init(), run).trace| && q in Signals(After(Init(), run).trace[j])
    requires i == -1 || IsReset(After(Init(), run).trace[i])
    ensures exists k :: i < k < j && After(Init(), run).trace[k] == Ack
    ensures exists k :: i < k < j && After(Init(), run).trace[k] == Register(q)
  {
    InitInv();
    RunKeeps(Init(), run);
    var t := After(Init(), run).trace;
    assert Allowed(t[..j], t[j]);
    assert MaySignal(t[..j], q);
    SinceIsLater(t, i, j, IsAck);
    SinceIsLater(t, i, j, IsRegister(q));
  }

  lemma SinceIsLater(t: seq<Event>, i: int, j: nat, yes: Event -> bool)
    requires -1 <= i < j <= |t| && Since(t[..j], yes, IsReset)
    requires i == -1 || (IsReset(t[i]) && !yes(t[i]))
    ensures exists k :: i < k < j && yes(t[k])
  {
    if i >= 0 { assert t[..j][i] == t[i]; }
    var k: nat :| k < j && yes(t[..j][k]) && forall m :: k < m < j ==> !IsReset(t[..j][m]);
    assert yes(t[k]);
  }

  /**
    A delivered reset, DRIVER_OK or interrupt acknowledgement is reported by the next locked section in which nothing
    goes before it, unless the VM exits or the device is opened first. DRIVER_OK is dropped instead exactly when the
    driver's acknowledgement has come and no reset has been taken since.
   */
  lemma DeliveredIsReported(run: seq<Step>, b: nat, i: nat, j: nat)
    requires RunEnabled(Init(), run) && (b == RESET_RQST || b == DRIVER_OK || b == INTERRUPT_ACK)
    requires i < j < |After(Init(), run).trace|
    requires var t := After(Init(), run).trace;
             && t[i].Deliver? && b in t[i].event && t[j].Decide? && t[j].seen !! Above(b)
             && forall k :: i < k < j ==> !t[k].Exit? && !t[k].Open? && (t[k].Decide? ==> !(t[k].seen !! Above(b)))
    ensures var t := After(Init(), run).trace;
            && b in t[j].seen
            && (b == RESET_RQST ==> t[j].report == {RESET_RQST})
            && (b == DRIVER_OK ==> t[j].report == if Since(t[..j], IsAck, IsReset) then {} else {DRIVER_OK})
            && (b == INTERRUPT_ACK ==> INTERRUPT_ACK in t[j].report)
  {
    InitInv();
    RunKeeps(Init(), run);
    var t := After(Init(), run).trace;
    hide After, RunEnabled;
    assert Allowed(t[..j], t[j]);
    assert Since(t[..j], Delivers(b), Removes(b)) by {
      assert t[..j][i] == t[i] && DeliversIt(b, t[i]);
      assert Delivers(b)(t[..j][i]);
      forall k | i < k < j ensures !Removes(b)(t[..j][k]) { assert t[..j][k] == t[k] && !RemovesIt(b, t[k]); }
    }
    assert PendingOk(t[..j], t[j].seen, b);
  }

  /** Once something other than buffers is delivered, or the VM exits, a wait finds evt_avail set until one is taken. */
  lemma WaitersAreWoken(run: seq<Step>, thread: nat)
    requires RunEnabled(Init(), run) && Since(After(Init(), run).trace, IsAwaited, IsTaken)
    requires thread !in After(Init(), run).waiters
    ensures Enabled(After(Init(), run), Pass(thread))
  {
    InitInv();
    RunKeeps(Init(), run);
  }

  /**
    After VM exit every wait that went through its locked section since reports APP_EXIT, until the device is opened
    again. The one exception is a thread that reads cur_event, without the lock, while another waiter is between
    clearing and setting it: that thread reports no event at all.
   */
  lemma ExitIsReported(run: seq<Step>, j: nat)
    requires RunEnabled(Init(), run) && j < |After(Init(), run).trace|
    ensures var t := After(Init(), run).trace;
            t[j].Report? && SawExit(t[..j], t[j].thread) ==> (t[j].event == {APP_EXIT} <==> !t[j].busy)
    ensures var t := After(Init(), run).trace;
            t[j].Report? && SawExit(t[..j], t[j].thread) ==> t[j].event == {APP_EXIT} || t[j].event == {}
  {
    InitInv();
    RunKeeps(Init(), run);
    var t := After(Init(), run).trace;
    assert Allowed(t[..j], t[j]);
  }

  /** The thread in the way is always a different one, so a sole waiter always gets APP_EXIT. */
  lemma BusyMeansAnother(run: seq<Step>, thread: nat)
    requires RunEnabled(Init(), run) && Enabled(After(Init(), run), Read(thread))
    ensures var s := After(Init(), run); s.holder == Nobody || s.holder.thread != thread
  {
    InitInv();
    RunKeeps(Init(), run);
  }

  /** The exception happens: thread 1 has tested cur_event when thread 2 clears it. */
  lemma ExitCanBeMissed()
    ensures exists run :: RunEnabled(Init(), run) && var s := After(Init(), run);
              s.trace == [Exit, Take(1), Decide(1, {VM_EXIT}, {APP_EXIT}, {}), Deliver({DRIVER_OK}, {}, {}), Take(2),
                          Report(1, {}, true)]
  {
    hide RunEnabled, After;
    var run := [AppExit, Pass(1), Enter(1), DecideAndUnlock(1, {}), Check(1), Interrupt({DRIVER_OK}, {}), Pass(2), Enter(2),
                Read(1)];
    var s0 := Init();
    var s1 := Apply(s0, run[0]);
    var s2 := Apply(s1, run[1]);
    var s3 := Apply(s2, run[2]);
    var s4 := Apply(s3, run[3]);
    var s5 := Apply(s4, run[4]);
    var s6 := Apply(s5, run[5]);
    var s7 := Apply(s6, run[6]);
    var s8 := Apply(s7, run[7]);
    assert APP_EXIT in s5.dev.curEvent;
    var s9 := Apply(s8, run[8]);
    NoMore(s9);
    Unroll(s8, run[8..]);
    Unroll(s7, run[7..]);
    Unroll(s6, run[6..]);
    Unroll(s5, run[5..]);
    Unroll(s4, run[4..]);
    Unroll(s3, run[3..]);
    Unroll(s2, run[2..]);
    Unroll(s1, run[1..]);
    Unroll(s0, run);
  }

  lemma NoMore(s: State)
    ensures RunEnabled(s, []) && After(s, []) == s
  {
  }

  lemma Unroll(s: State, run: seq<Step>)
    requires run != [] && Enabled(s, run[0]) && RunEnabled(Apply(s, run[0]), run[1..])
    ensures RunEnabled(s, run) && After(s, run) == After(Apply(s, run[0]), run[1..])
  {
  }

  // struct virtio_backend_device, each method a stretch under its lock.

  /** Everything one run of the handler takes out of get_event: all of it in batch mode, otherwise the first only. */
  function Handled(d: Dev, events: seq<(Word, Word)>, batch: bool): Dev
    decreases |events|
  {
    if events == [] || events[0].0 == {} then d
    else
      var d' := Interrupted(d, events[0].0, events[0].1);
      if batch then Handled(d', events[1..], batch) else d'
  }

  lemma HandledTwo(d: Dev, events: seq<(Word, Word)>)
    ensures |events| == 2 && events[0].0 != {} && events[1].0 != {} ==>
              Handled(d, events, true) == Interrupted(Interrupted(d, events[0].0, events[0].1), events[1].0, events[1].1)
  {
    if |events| == 2 && events[0].0 != {} && events[1].0 != {} {
      var d' := Interrupted(d, events[0].0, events[0].1);
      var rest := events[1..];
      assert rest[0] == events[1] && rest[1..] == [];
      assert Handled(d', rest, true) == Interrupted(d', rest[0].0, rest[0].1);
    }
  }

  /** How often one run of the handler signals queue q. */
  function HandledSignals(d: Dev, events: seq<(Word, Word)>, batch: bool, q: nat): nat
    decreases |events|
  {
    if events == [] || events[0].0 == {} then 0
    else
      var first := if q in InterruptSignals(d, events[0].0, events[0].1) then 1 else 0;
      var d' := Interrupted(d, events[0].0, events[0].1);
      if batch then first + HandledSignals(d', events[1..], batch, q) else first
  }

  /** Each branch of the locked section, in the order in which they are tried. */
  lemma WrittenOut(d: Dev, ackReg: Word)
    requires d.curEvent == {} && d.curData == {} && !d.avail
    ensures MODULE_EXIT in d.event || VM_EXIT in d.event ==> Decided(d, ackReg) == d.(curEvent := {APP_EXIT})
    ensures MODULE_EXIT !in d.event && VM_EXIT !in d.event && RESET_RQST in d.event ==>
              Decided(d, ackReg) == d.(event := d.event - {RESET_RQST}, curEvent := {RESET_RQST}, ack := false, ctx := {},
                                       avail := d.event != {RESET_RQST})
    ensures d.event !! {MODULE_EXIT, VM_EXIT, RESET_RQST} && DRIVER_OK in d.event ==>
              Decided(d, ackReg) == d.(event := d.event - {DRIVER_OK}, curEvent := if d.ack then {} else {DRIVER_OK},
                                       avail := !d.ack && d.event != {DRIVER_OK})
    ensures d.event !! {MODULE_EXIT, VM_EXIT, RESET_RQST, DRIVER_OK} && NEW_BUFFER in d.event ==>
              var d' := Decided(d, ackReg);
              && DecideSignals(d) == (if d.ack then d.data * d.ctx else {})
              && d'.curEvent == d.event - {NEW_BUFFER} && d'.event == {} && d'.ack == d.ack && !d'.avail && d'.ctx == d.ctx
              && (d'.curEvent != {} ==> d'.data == {})
              && (d'.curEvent == {} ==> d'.data == if d.ack then d.data - d.ctx else d.data)
              && (INTERRUPT_ACK in d'.curEvent ==> d'.curData == ackReg)
              && (d'.curEvent != {} && INTERRUPT_ACK !in d'.curEvent ==> d'.curData == if d.ack then d.data - d.ctx else d.data)
    ensures d.event !! {MODULE_EXIT, VM_EXIT, RESET_RQST, DRIVER_OK, NEW_BUFFER} && INTERRUPT_ACK in d.event ==>
              Decided(d, ackReg) == d.(event := d.event - {INTERRUPT_ACK}, data := {}, curEvent := {INTERRUPT_ACK},
                                       curData := ackReg)
  {
  }

  class Device {
    var event: Word
    var data: Word
    var curEvent: Word
    var curData: Word
    var avail: bool
    var ack: bool
    const ioctx: array<bool>

    ghost predicate Valid()
      reads this
    {
      ioctx.Length == MAX_IO_CONTEXTS
    }

    ghost function Contexts(): Word
      reads this, ioctx
      requires Valid()
    {
      set q: nat | q < MAX_IO_CONTEXTS && ioctx[q]
    }

    ghost function View(): Dev
      reads this, ioctx
      requires Valid()
    {
      Dev(event, data, curEvent, curData, avail, ack, Contexts())
    }

    constructor ()
      ensures Valid() && View() == Init().dev && fresh(ioctx)
    {
      event, data, curEvent, curData, avail, ack := {}, {}, {}, {}, false, false;
      ioctx := new bool[MAX_IO_CONTEXTS](_ => false);
    }

    /** signal_vqs; `signalled` lists the eventfd_signal calls in order. */
    method SignalVqs() returns (signalled: seq<nat>)
      requires Valid()
      modifies this`data
      ensures data == old(data) - Contexts()
      ensures forall q: nat :: multiset(signalled)[q] == if q in old(data) * Contexts() then 1 else 0
    {
      signalled := [];
      for i := 0 to MAX_IO_CONTEXTS
        invariant forall q: nat :: q in data <==> q in old(data) && !(q < i && ioctx[q])
        invariant forall q: nat :: multiset(signalled)[q] == if q < i && q in old(data) && ioctx[q] then 1 else 0
      {
        if i in data && ioctx[i] {
          signalled := signalled + [i];
          data := data - {i};
        }
      }
    }

    /** One turn of vdev_interrupt's loop. */
    method Interrupt(event0: Word, data0: Word) returns (signalled: seq<nat>)
      requires Valid()
      modifies this
      ensures View() == Interrupted(old(View()), event0, data0)
      ensures forall q: nat ::
                multiset(signalled)[q] == if q in InterruptSignals(old(View()), event0, data0) then 1 else 0
      ensures NEW_BUFFER in event0 && old(ack) ==>
                && event == old(event) + (event0 - {NEW_BUFFER}) && data == old(data) + data0 - Contexts()
                && (avail <==> old(avail) || event0 != {NEW_BUFFER})
                && forall q: nat :: multiset(signalled)[q] == if q in (old(data) + data0) * Contexts() then 1 else 0
      ensures NEW_BUFFER !in event0 || !old(ack) ==>
                event == old(event) + event0 && data == old(data) + data0 && avail && signalled == []
    {
      var event1, data1 := event0, data0;
      signalled := [];
      if NEW_BUFFER in event1 && ack {
        event1 := event1 - {NEW_BUFFER};
        data := data + data1;
        signalled := SignalVqs();
        if event1 == {} { return; }
        data1 := {};
      }
      event, data, avail := event + event1, data + data1, true;
    }

    /** vdev_interrupt; `signalled` lists all its eventfd_signal calls in order. */
    method VdevInterrupt(events: seq<(Word, Word)>, batch: bool) returns (signalled: seq<nat>)
      requires Valid()
      modifies this
      ensures View() == Handled(old(View()), events, batch)
      ensures forall q: nat :: multiset(signalled)[q] == HandledSignals(old(View()), events, batch, q)
      ensures events == [] || events[0].0 == {} ==> View() == old(View()) && signalled == []
      ensures !batch && events != [] && events[0].0 != {} ==>
                View() == Interrupted(old(View()), events[0].0, events[0].1)
      ensures batch && |events| == 2 && events[0].0 != {} && events[1].0 != {} ==>
                View() == Interrupted(Interrupted(old(View()), events[0].0, events[0].1), events[1].0, events[1].1)
    {
      HandledTwo(View(), events);
      var i := 0;
      signalled := [];
      while i < |events| && events[i].0 != {}
        invariant i <= |events|
        invariant Handled(View(), events[i..], batch) == Handled(old(View()), events, batch)
        invariant forall q: nat :: multiset(signalled)[q] + HandledSignals(View(), events[i..], batch, q) ==
                                   HandledSignals(old(View()), events, batch, q)
      {
        assert events[i..][1..] == events[i + 1..];
        var more := Interrupt(events[i].0, events[i].1);
        signalled := signalled + more;
        if !batch { return; }
        i := i + 1;
      }
    }

    /** The locked part of GH_WAIT_FOR_EVENT. */
    method TakeEvent(ackReg: Word) returns (signalled: seq<nat>)
      requires Valid()
      modifies this, ioctx
      ensures forall q: nat :: multiset(signalled)[q] == if q in DecideSignals(old(View())) then 1 else 0
      ensures View() == Decided(Cleared(old(View())), ackReg)
      // an exit is reported and stays pending
      ensures MODULE_EXIT in old(event) || VM_EXIT in old(event) ==>
                curEvent == {APP_EXIT} && curData == {} && event == old(event) && data == old(data) && ack == old(ack) && !avail
      // then a reset: the acknowledgement and all eventfds are gone
      ensures MODULE_EXIT !in old(event) && VM_EXIT !in old(event) && RESET_RQST in old(event) ==>
                && curEvent == {RESET_RQST} && event == old(event) - {RESET_RQST} && !ack && Contexts() == {}
                && avail == (event != {}) && data == old(data)
      // then DRIVER_OK: dropped if acknowledged already
      ensures old(event) !! {MODULE_EXIT, VM_EXIT, RESET_RQST} && DRIVER_OK in old(event) ==>
                && curEvent == (if old(ack) then {} else {DRIVER_OK}) && event == old(event) - {DRIVER_OK}
                && avail == (!old(ack) && event != {}) && data == old(data) && ack == old(ack)
      // then new buffers: signalled if acknowledged, everything else that is pending reported at once
      ensures old(event) !! {MODULE_EXIT, VM_EXIT, RESET_RQST, DRIVER_OK} && NEW_BUFFER in old(event) ==>
                && curEvent == old(event) - {NEW_BUFFER} && event == {} && ack == old(ack) && !avail
                && (curEvent != {} ==> data == {})
                && (curEvent == {} ==> data == if ack then old(data) - Contexts() else old(data))
                && (INTERRUPT_ACK in curEvent ==> curData == ackReg)
                && (curEvent != {} && INTERRUPT_ACK !in curEvent ==>
                      curData == if ack then old(data) - Contexts() else old(data))
                && forall q: nat :: multiset(signalled)[q] == if ack && q in old(data) * Contexts() then 1 else 0
      // and last an interrupt acknowledgement
      ensures old(event) !! {MODULE_EXIT, VM_EXIT, RESET_RQST, DRIVER_OK, NEW_BUFFER} && INTERRUPT_ACK in old(event) ==>
                && curEvent == {INTERRUPT_ACK} && event == old(event) - {INTERRUPT_ACK} && data == {} && curData == ackReg
                && !avail && ack == old(ack)
    {
      ghost var d := View();
      signalled := LockedSection(ackReg);
      WrittenOut(Cleared(d), ackReg);
      hide Decided;
    }

    method LockedSection(ackReg: Word) returns (signalled: seq<nat>)
      requires Valid()
      modifies this, ioctx
      ensures forall q: nat :: multiset(signalled)[q] == if q in DecideSignals(old(View())) then 1 else 0
      ensures View() == Decided(Cleared(old(View())), ackReg)
    {
      signalled := [];
      curEvent, curData, avail := {}, {}, false;
      if MODULE_EXIT in event || VM_EXIT in event {
        curEvent := {APP_EXIT};
      } else if RESET_RQST in event {
        event, curEvent, ack := event - {RESET_RQST}, {RESET_RQST}, false;
        for i := 0 to MAX_IO_CONTEXTS
          modifies ioctx
          invariant forall q: nat :: q < i ==> !ioctx[q]
        {
          ioctx[i] := false;
        }
        if event != {} { avail := true; }
      } else if DRIVER_OK in event {
        event := event - {DRIVER_OK};
        if !ack {
          curEvent := {DRIVER_OK};
          if event != {} { avail := true; }
        }
      } else if NEW_BUFFER in event {
        event := event - {NEW_BUFFER};
        if data != {} && ack { signalled := SignalVqs(); }
        if event != {} {
          curEvent, event, curData, data := event, {}, data, {};
          if INTERRUPT_ACK in curEvent { curData := ackReg; }
        }
      } else if INTERRUPT_ACK in event {
        event, data, curEvent, curData := event - {INTERRUPT_ACK}, {}, {INTERRUPT_ACK}, ackReg;
      }
    }

    /** vb_dev_ioeventfd, for a descriptor that resolves. */
    method IoEventFd(q: nat) returns (ok: bool)
      requires Valid() && q < MAX_IO_CONTEXTS
      modifies ioctx
      ensures ok <==> q !in old(Contexts())
      ensures View() == old(View()).(ctx := old(Contexts()) + {q})
    {
      ok := !ioctx[q];
      ioctx[q] := true;
    }

    method AppExit()
      requires Valid()
      modifies this
      ensures View() == Exited(old(View()))
      ensures event == {VM_EXIT} && data == {} && avail && ack == old(ack) && curEvent == old(curEvent)
    {
      event, data, avail := {VM_EXIT}, {}, true;
    }

    /** init_vb_dev_open. */
    method Open()
      requires Valid()
      modifies this
      ensures View() == Opened(old(View()))
      ensures event == {} && data == {} && curEvent == {} && !avail && ack == old(ack)
    {
      avail, curData, data, curEvent, event := false, {}, {}, {}, {};
    }
  }
}
