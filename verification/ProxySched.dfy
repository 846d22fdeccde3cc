/**
  gh_proxy_sched.c: gh_vcpu_run, the thread that runs one vCPU, interleaved with wakeups from the interrupt handler and
  from gh_wakeup_all_vcpus, with the VM's exit and with signals. Each step is one access to state that somebody else
  may change in between; every run is recorded in a trace of what the outside world can see.
 */
module ProxySched {

  datatype VcpuState = Ready | ExpectsWakeup | PoweredOff | BlockedInEl2 | Unknown
  datatype Hret = Ok(state: VcpuState) | Retry | Failed
  datatype Code = Eperm | Erestartsys | Remapped(ret: Hret)

  /** Where the thread stands in gh_vcpu_run. */
  datatype Pc =
    | Outside                 // not in gh_vcpu_run
    | Top                     // is_active was seen set; abort_sleep not yet cleared
    | Cleared                 // abort_sleep cleared
    | Armed                   // wakeup source held, watchdog not frozen
    | Ran(ret: Hret, resched: bool)   // the hypercall returned, and need_resched was asked
    | Testing(ret: Hret)      // in gh_vcpu_sleep, wakeup source relaxed, before its own test
    | Waiting(ret: Hret)      // in wait_event_interruptible, on the wait queue, before the test
    | Asleep(ret: Hret)       // scheduled out
    | Switched(ret: Hret)     // after the switch, before signal_pending
    | Looping(ret: Hret)      // before the loop condition

  datatype Event =
    | Wake | Exit | SignalRaised | SignalDropped
    | AbortCleared | StayAwake | Unfreeze | Hcall | Answer(ret: Hret, resched: bool) | Freeze | Relax | Block
    | Return(code: Code)

  datatype State = State(pc: Pc, abortSleep: bool, frozen: bool, held: bool, active: bool, signal: bool,
                         inFlight: nat, trace: seq<Event>)

  function Init(): State { State(Outside, false, false, false, true, false, 0, []) }

  datatype Step =
    | Call(capValid: bool) | Clear | Arm | Run(ret: Hret, resched: bool) | Branch
    | Test | Park | CheckSignal | LoopCond
    | Env(e: EnvStep)

  /** gh_vcpu_wake_up is two steps, and any number of wakers may stand between them. */
  datatype EnvStep = SetAbort | WakeUp | VmExit | Signal | Spurious | SignalTaken

  predicate Sleepy(ret: Hret) { ret == Ok(ExpectsWakeup) || ret == Ok(PoweredOff) }

  predicate EnvEnabled(s: State, e: EnvStep) {
    match e
    case WakeUp => s.inFlight > 0
    case VmExit => s.active
    case SignalTaken => s.pc == Outside
    case _ => true
  }

  function Roused(pc: Pc): Pc { if pc.Asleep? then Waiting(pc.ret) else pc }

  function EnvApply(s: State, e: EnvStep): State
    requires EnvEnabled(s, e)
  {
    match e
    case SetAbort => s.(abortSleep := true, inFlight := s.inFlight + 1, trace := s.trace + [Wake])
    case WakeUp => s.(inFlight := s.inFlight - 1, pc := Roused(s.pc))
    case VmExit => s.(active := false, trace := s.trace + [Exit])
    case Signal => s.(signal := true, pc := Roused(s.pc), trace := s.trace + [SignalRaised])
    case Spurious => s.(pc := Roused(s.pc))
    case SignalTaken => s.(signal := false, trace := s.trace + [SignalDropped])
  }

  predicate Enabled(s: State, a: Step) {
    match a
    case Call(_) => s.pc == Outside
    case Clear => s.pc == Top
    case Arm => s.pc == Cleared
    case Run(_, _) => s.pc == Armed
    case Branch => s.pc.Ran?
    case Test => s.pc.Testing?
    case Park => s.pc.Waiting?
    case CheckSignal => s.pc.Switched?
    case LoopCond => s.pc.Looping?
    case Env(e) => EnvEnabled(s, e)
  }

  function Apply(s: State, a: Step): State
    requires Enabled(s, a)
  {
    match a
    case Call(capValid) =>
      if s.active && capValid then s.(pc := Top) else s.(trace := s.trace + [Return(Eperm)])
    case Clear => s.(pc := Cleared, abortSleep := false, trace := s.trace + [AbortCleared])
    case Arm =>
      s.(pc := Armed, held := true, frozen := false,
         trace := if s.frozen then s.trace + [StayAwake] + [Unfreeze] else s.trace + [StayAwake])
    case Run(ret, resched) => s.(pc := Ran(ret, resched), trace := s.trace + [Hcall] + [Answer(ret, resched)])
    case Branch =>
      if s.pc.ret == Ok(Ready) && s.pc.resched then
        s.(pc := Switched(s.pc.ret), frozen := true, trace := s.trace + [Freeze])
      else if Sleepy(s.pc.ret) then s.(pc := Testing(s.pc.ret), held := false, trace := s.trace + [Relax])
      else s.(pc := Switched(s.pc.ret))
    case Test => s.(pc := if !s.abortSleep && !s.signal then Waiting(s.pc.ret) else Switched(s.pc.ret))
    case Park =>
      if s.abortSleep || s.signal then s.(pc := Switched(s.pc.ret))
      else s.(pc := Asleep(s.pc.ret), trace := s.trace + [Block])
    case CheckSignal =>
      if s.signal then
        s.(pc := Outside, frozen := true,
           trace := (if s.frozen then s.trace else s.trace + [Freeze]) + [Return(Erestartsys)])
      else s.(pc := Looping(s.pc.ret))
    case LoopCond =>
      if s.pc.ret != Failed && s.active then s.(pc := Top)
      else s.(pc := Outside, trace := s.trace + [Return(Remapped(s.pc.ret))])
    case Env(e) => EnvApply(s, e)
  }

  // What a trace says, read on its own.

  /** Some wakeup is not yet followed by a vcpu_run hypercall. */
  predicate WokenSinceRun(t: seq<Event>) {
    exists i: nat :: i < |t| && t[i] == Wake && Hcall !in t[i + 1..]
  }

  /** The watchdog operations, in order. */
  function WdogOps(t: seq<Event>): (ops: seq<Event>)
    ensures forall e <- ops :: e == Freeze || e == Unfreeze
  {
    if t == [] then []
    else WdogOps(t[..|t| - 1]) + (if t[|t| - 1] == Freeze || t[|t| - 1] == Unfreeze then [t[|t| - 1]] else [])
  }

  predicate Alternates(ops: seq<Event>) {
    forall i: nat :: i < |ops| ==> ops[i] == OpAt(i)
  }

  predicate Odd(n: nat) { n % 2 == 1 }

  /** FREEZE at even places, UNFREEZE at odd ones. */
  function OpAt(i: nat): Event { if Odd(i) then Unfreeze else Freeze }

  predicate FrozenAfter(t: seq<Event>) { Odd(|WdogOps(t)|) }

  predicate HeldAfter(t: seq<Event>) {
    t != [] && (if t[|t| - 1] == StayAwake then true else if t[|t| - 1] == Relax then false else HeldAfter(t[..|t| - 1]))
  }

  /** Number of vcpu_run hypercalls since the VM's exit. */
  function RunsSinceExit(t: seq<Event>): nat {
    if t == [] || Exit !in t[..|t| - 1] then 0
    else RunsSinceExit(t[..|t| - 1]) + (if t[|t| - 1] == Hcall then 1 else 0)
  }

  /** What must hold of everything before an event for that event to be allowed next. */
  predicate Allowed(before: seq<Event>, e: Event) {
    match e
    case Hcall => !FrozenAfter(before) && HeldAfter(before)
    case Block => !HeldAfter(before) && !WokenSinceRun(before)
    case Return(Erestartsys) => FrozenAfter(before)
    case _ => true
  }

  predicate Disciplined(t: seq<Event>) {
    forall i: nat :: i < |t| ==> Allowed(t[..i], t[i])
  }

  lemma SnocRead(t: seq<Event>, e: Event)
    ensures WdogOps(t + [e]) == if e == Freeze || e == Unfreeze then WdogOps(t) + [e] else WdogOps(t)
    ensures HeldAfter(t + [e]) == (if e == StayAwake then true else if e == Relax then false else HeldAfter(t))
    ensures RunsSinceExit(t + [e]) == (if Exit in t then RunsSinceExit(t) + (if e == Hcall then 1 else 0) else 0)
  {
    var u := t + [e];
    assert u[..|u| - 1] == t && u[|u| - 1] == e;
  }

  lemma SnocWoken(t: seq<Event>, e: Event)
    ensures WokenSinceRun(t + [e]) == (e != Hcall && (e == Wake || WokenSinceRun(t)))
  {
    var u := t + [e];
    if WokenSinceRun(t) && e != Hcall {
      var i: nat :| i < |t| && t[i] == Wake && Hcall !in t[i + 1..];
      assert u[i] == Wake && u[i + 1..] == t[i + 1..] + [e];
    }
    if e == Wake { assert u[|t|] == Wake && u[|t| + 1..] == []; }
    if WokenSinceRun(u) {
      var i: nat :| i < |u| && u[i] == Wake && Hcall !in u[i + 1..];
      if i < |t| {
        assert u[i + 1..] == t[i + 1..] + [e];
        assert t[i] == Wake && e in u[i + 1..];
      }
    }
  }

  lemma SnocDisciplined(t: seq<Event>, e: Event)
    requires Disciplined(t) && Allowed(t, e)
    ensures Disciplined(t + [e])
  {
    var u := t + [e];
    forall i: nat | i < |u| ensures Allowed(u[..i], u[i]) {
      assert u[..i] == t[..i];
      if i == |t| { assert t[..i] == t; }
    }
  }

  lemma SnocAlternates(t: seq<Event>, e: Event)
    requires Alternates(WdogOps(t)) && (e == Freeze ==> !FrozenAfter(t)) && (e == Unfreeze ==> FrozenAfter(t))
    ensures Alternates(WdogOps(t + [e]))
    ensures FrozenAfter(t + [e]) == (e == Freeze || (FrozenAfter(t) && e != Unfreeze))
  {
    hide Odd, Alternates;
    SnocRead(t, e);
    var ops := WdogOps(t);
    if e == Freeze || e == Unfreeze {
      assert e == OpAt(|ops|);
      AlternatesNext(ops, e);
      NextParity(|ops|);
    }
  }

  lemma AlternatesNext(ops: seq<Event>, e: Event)
    requires Alternates(ops) && e == OpAt(|ops|)
    ensures Alternates(ops + [e])
  {
    hide OpAt;
  }

  lemma NextParity(n: nat)
    ensures Odd(n + 1) <==> !Odd(n)
  {
  }

  /** The thread has come back from the hypercall and has not yet gone round. */
  predicate PastRun(pc: Pc) { pc.Ran? || pc.Testing? || pc.Waiting? || pc.Asleep? || pc.Switched? || pc.Looping? }

  predicate TraceOk(t: seq<Event>, frozen: bool, held: bool) {
    && Disciplined(t) && Alternates(WdogOps(t)) && frozen == FrozenAfter(t) && held == HeldAfter(t)
  }

  predicate WakeOk(s: State) {
    && (PastRun(s.pc) && WokenSinceRun(s.trace) ==> s.abortSleep)
    && (s.pc.Asleep? && s.abortSleep ==> s.inFlight > 0)
  }

  /** When the VM has exited, how many more hypercalls have been made. */
  predicate ExitOk(s: State) {
    && (s.active <==> Exit !in s.trace)
    && (!s.active ==> RunsSinceExit(s.trace) <= if s.pc.Top? || s.pc.Cleared? || s.pc.Armed? then 0 else 1)
  }

  predicate PcOk(s: State) {
    && (s.pc.Armed? ==> s.held && !s.frozen)
    && (s.pc.Ran? ==> !s.frozen)
    && (s.pc.Testing? || s.pc.Waiting? || s.pc.Asleep? ==> !s.held && Sleepy(s.pc.ret))
    && (s.pc.Asleep? ==> !s.signal)
  }

  ghost predicate Inv(s: State) {
    TraceOk(s.trace, s.frozen, s.held) && WakeOk(s) && ExitOk(s) && PcOk(s) && AnswersOk(s)
  }

  lemma Extend(t: seq<Event>, frozen: bool, held: bool, e: Event)
    requires TraceOk(t, frozen, held) && Allowed(t, e)
    requires (e == Freeze ==> !frozen) && (e == Unfreeze ==> frozen)
    ensures TraceOk(t + [e], e == Freeze || (frozen && e != Unfreeze), e == StayAwake || (held && e != Relax))
  {
    hide Disciplined, Allowed, Alternates;
    SnocRead(t, e);
    SnocDisciplined(t, e);
    SnocAlternates(t, e);
  }

  lemma StepKeeps(s: State, a: Step)
    requires Inv(s) && Enabled(s, a)
    ensures Inv(Apply(s, a))
  {
    hide TraceOk, WakeOk, ExitOk, PcOk, AnswersOk, Apply;
    TraceKeeps(s, a);
    WakeKeeps(s, a);
    ExitKeeps(s, a);
    PcKeeps(s, a);
    AnswersKeep(s, a);
  }

  lemma PcKeeps(s: State, a: Step)
    requires PcOk(s) && Enabled(s, a)
    ensures PcOk(Apply(s, a))
  {
  }

  lemma TraceKeeps(s: State, a: Step)
    requires Inv(s) && Enabled(s, a)
    ensures var s' := Apply(s, a); TraceOk(s'.trace, s'.frozen, s'.held)
  {
    hide TraceOk, ExitOk, WokenSinceRun, AnswersOk;
    match a
    case Arm => ArmTrace(s);
    case CheckSignal => SignalTrace(s);
    case Call(_) => Grow(s, Return(Eperm));
    case Clear => Grow(s, AbortCleared);
    case Run(ret, resched) => Grow(s, Hcall); Grow(s.(trace := s.trace + [Hcall]), Answer(ret, resched));
    case Branch => Grow(s, Freeze); Grow(s, Relax);
    case Park => Grow(s, Block);
    case LoopCond => Grow(s, Return(Remapped(s.pc.ret)));
    case Env(e) => EnvTrace(s, e);
    case _ =>
  }

  lemma EnvTrace(s: State, e: EnvStep)
    requires TraceOk(s.trace, s.frozen, s.held) && EnvEnabled(s, e)
    ensures var s' := EnvApply(s, e); TraceOk(s'.trace, s'.frozen, s'.held)
  {
    hide TraceOk;
    Grow(s, Wake);
    Grow(s, Exit);
    Grow(s, SignalRaised);
    Grow(s, SignalDropped);
  }

  lemma ArmTrace(s: State)
    requires TraceOk(s.trace, s.frozen, s.held) && Enabled(s, Arm)
    ensures var s' := Apply(s, Arm); TraceOk(s'.trace, s'.frozen, s'.held)
  {
    hide TraceOk;
    Grow(s, StayAwake);
    if s.frozen { Grow(s.(trace := s.trace + [StayAwake], held := true), Unfreeze); }
  }

  lemma SignalTrace(s: State)
    requires TraceOk(s.trace, s.frozen, s.held) && Enabled(s, CheckSignal)
    ensures var s' := Apply(s, CheckSignal); TraceOk(s'.trace, s'.frozen, s'.held)
  {
    hide TraceOk;
    if s.signal {
      Grow(s, Freeze);
      Grow(s.(frozen := true, trace := if s.frozen then s.trace else s.trace + [Freeze]), Return(Erestartsys));
    }
  }

  lemma WakeKeeps(s: State, a: Step)
    requires WakeOk(s) && Enabled(s, a)
    ensures WakeOk(Apply(s, a))
  {
    hide WokenSinceRun, WdogOps, HeldAfter, RunsSinceExit;
    match a
    case Run(ret, resched) => SnocWoken(s.trace, Hcall); SnocWoken(s.trace + [Hcall], Answer(ret, resched));
    case Branch => SnocWoken(s.trace, Freeze); SnocWoken(s.trace, Relax);
    case Park => SnocWoken(s.trace, Block);
    case Env(VmExit) => SnocWoken(s.trace, Exit);
    case Env(Signal) => SnocWoken(s.trace, SignalRaised);
    case _ =>
  }

  lemma ExitKeeps(s: State, a: Step)
    requires ExitOk(s) && Enabled(s, a)
    ensures ExitOk(Apply(s, a))
  {
    hide ExitOk, Apply;
    match a
    case Arm => ArmExit(s);
    case CheckSignal => SignalExit(s);
    case Branch => BranchExit(s, a);
    case Env(_) => EnvExit(s, a);
    case _ => OneEventExit(s, a);
  }

  lemma OneEventExit(s: State, a: Step)
    requires ExitOk(s) && Enabled(s, a) && !a.Arm? && !a.CheckSignal? && !a.Branch? && !a.Env?
    ensures ExitOk(Apply(s, a))
  {
    hide WokenSinceRun, WdogOps, HeldAfter, RunsSinceExit;
    var t := s.trace;
    match a
    case Call(_) => SnocRead(t, Return(Eperm));
    case Clear => SnocRead(t, AbortCleared);
    case Run(ret, resched) => SnocRead(t, Hcall); SnocRead(t + [Hcall], Answer(ret, resched));
    case Park => SnocRead(t, Block);
    case LoopCond => SnocRead(t, Return(Remapped(s.pc.ret)));
    case _ =>
  }

  lemma BranchExit(s: State, a: Step)
    requires ExitOk(s) && Enabled(s, a) && a.Branch?
    ensures ExitOk(Apply(s, a))
  {
    hide WokenSinceRun, WdogOps, HeldAfter, RunsSinceExit;
    SnocRead(s.trace, Freeze);
    SnocRead(s.trace, Relax);
  }

  lemma EnvExit(s: State, a: Step)
    requires ExitOk(s) && Enabled(s, a) && a.Env?
    ensures ExitOk(Apply(s, a))
  {
    hide WokenSinceRun, WdogOps, HeldAfter, RunsSinceExit;
    SnocRead(s.trace, Wake);
    SnocRead(s.trace, SignalRaised);
    SnocRead(s.trace, SignalDropped);
    if a.e == VmExit {
      NoRunsBeforeExit(s.trace);
      SnocRead(s.trace, Exit);
    }
  }

  lemma ArmExit(s: State)
    requires ExitOk(s) && Enabled(s, Arm)
    ensures ExitOk(Apply(s, Arm))
  {
    hide WokenSinceRun, WdogOps, HeldAfter, RunsSinceExit;
    SnocRead(s.trace, StayAwake);
    SnocRead(s.trace + [StayAwake], Unfreeze);
  }

  lemma SignalExit(s: State)
    requires ExitOk(s) && Enabled(s, CheckSignal)
    ensures ExitOk(Apply(s, CheckSignal))
  {
    hide WokenSinceRun, WdogOps, HeldAfter, RunsSinceExit;
    SnocRead(s.trace, Freeze);
    SnocRead(if s.frozen then s.trace else s.trace + [Freeze], Return(Erestartsys));
  }

  lemma NoRunsBeforeExit(t: seq<Event>)
    requires Exit !in t
    ensures RunsSinceExit(t) == 0
  {
  }

  /** What one more event does to the trace, for those events that are allowed. */
  lemma Grow(s: State, e: Event)
    requires TraceOk(s.trace, s.frozen, s.held)
    ensures MayAdd(s, e) ==>
              TraceOk(s.trace + [e], e == Freeze || (s.frozen && e != Unfreeze), e == StayAwake || (s.held && e != Relax))
  {
    hide Disciplined, Alternates, WdogOps, FrozenAfter, HeldAfter, WokenSinceRun;
    if MayAdd(s, e) { Extend(s.trace, s.frozen, s.held, e); }
  }

  predicate MayAdd(s: State, e: Event) {
    match e
    case Hcall => !s.frozen && s.held
    case Block => !s.held && !WokenSinceRun(s.trace)
    case Return(Erestartsys) => s.frozen
    case Freeze => !s.frozen
    case Unfreeze => s.frozen
    case _ => true
  }

  // What the answers of the hypercall lead to.

  datatype Last = NoAnswer | Answered(ret: Hret, resched: bool)

  /**
    What a trace comes to: the last answer in the current call of gh_vcpu_run; whether since then the thread has relaxed
    its wakeup source, frozen the watchdog and blocked; whether a wakeup came since abort_sleep was last cleared; whether
    a signal is pending; whether the VM has exited.
   */
  datatype Sum = Sum(last: Last, relaxed: bool, froze: bool, blocked: bool, woken: bool, signal: bool, exited: bool)

  function Next(s: Sum, e: Event): Sum {
    match e
    case Wake => s.(woken := true)
    case Exit => s.(exited := true)
    case SignalRaised => s.(signal := true)
    case SignalDropped => s.(signal := false)
    case AbortCleared => s.(woken := false)
    case Answer(ret, resched) => s.(last := Answered(ret, resched), relaxed := false, froze := false, blocked := false)
    case Freeze => s.(froze := true)
    case Relax => s.(relaxed := true)
    case Block => s.(blocked := true)
    case Return(_) => s.(last := NoAnswer, relaxed := false, froze := false, blocked := false)
    case _ => s
  }

  function SumOf(t: seq<Event>): Sum {
    if t == [] then Sum(NoAnswer, false, false, false, false, false, false)
    else Next(SumOf(t[..|t| - 1]), t[|t| - 1])
  }

  /**
    The last answer has been dealt with: a vCPU that expects a wakeup or is powered off has had the wakeup source relaxed
    and the thread has slept, unless it was woken or signalled; a vCPU that is ready has had the watchdog frozen if the
    thread was asked to give up its CPU.
   */
  predicate Settled(s: Sum) {
    s.last.Answered? ==>
      && (s.last.ret == Ok(ExpectsWakeup) || s.last.ret == Ok(PoweredOff) ==>
            s.relaxed && (s.blocked || s.woken || s.signal))
      && (s.last.ret == Ok(Ready) && s.last.resched ==> s.froze)
  }

  /** As far as the wakeup source and the watchdog go, the next hypercall may be made. */
  predicate Followed(s: Sum) {
    s.last.Answered? ==>
      && s.last.ret != Failed && (s.last.ret == Ok(ExpectsWakeup) || s.last.ret == Ok(PoweredOff) ==> s.relaxed)
      && (s.last.ret == Ok(Ready) && s.last.resched ==> s.froze)
  }

  /** What may come next, given what a trace comes to. */
  predicate Fits(s: Sum, e: Event) {
    match e
    case AbortCleared => Settled(s) && Followed(s)
    case Hcall => Followed(s)
    case Relax => s.last.Answered? && !s.relaxed && (s.last.ret == Ok(ExpectsWakeup) || s.last.ret == Ok(PoweredOff))
    case Block => s.last.Answered? && s.relaxed && (s.last.ret == Ok(ExpectsWakeup) || s.last.ret == Ok(PoweredOff))
    case Freeze => s.signal || (s.last.Answered? && s.last.ret == Ok(Ready) && s.last.resched && !s.froze)
    case Return(Eperm) => s.last.NoAnswer?
    case Return(Erestartsys) => s.last.Answered? && s.signal && Settled(s)
    case Return(Remapped(ret)) => s.last.Answered? && s.last.ret == ret && (ret == Failed || s.exited) && Settled(s)
    case _ => true
  }

  predicate AllFit(t: seq<Event>) { forall i: nat :: i < |t| ==> Fits(SumOf(t[..i]), t[i]) }

  lemma SnocSum(t: seq<Event>, e: Event)
    ensures SumOf(t + [e]) == Next(SumOf(t), e)
    ensures AllFit(t) && Fits(SumOf(t), e) ==> AllFit(t + [e])
  {
    var u := t + [e];
    assert u[..|u| - 1] == t && u[|u| - 1] == e;
    hide SumOf, Fits;
    forall i: nat | i < |u| && AllFit(t) && Fits(SumOf(t), e) ensures Fits(SumOf(u[..i]), u[i]) {
      assert u[..i] == t[..i];
      if i == |t| { assert t[..i] == t; }
    }
  }

  /** The last answer, as the thread still remembers it. */
  predicate Remembers(m: Sum, ret: Hret) { m.last.Answered? && m.last.ret == ret }

  predicate Sleeping(pc: Pc) { pc.Testing? || pc.Waiting? || pc.Asleep? }

  /** How the summary goes with the place of the thread. */
  predicate PlaceOk(pc: Pc, m: Sum) {
    && (pc.Outside? ==> m.last.NoAnswer?)
    && (pc.Top? ==> Settled(m)) && (pc.Top? || pc.Cleared? || pc.Armed? ==> Followed(m))
    && (pc.Ran? ==> m.last == Answered(pc.ret, pc.resched) && !m.relaxed && !m.froze && !m.blocked)
    && (Sleeping(pc) ==> Remembers(m, pc.ret) && m.relaxed && Sleepy(pc.ret))
    && (pc.Asleep? ==> m.blocked)
    && (pc.Switched? || pc.Looping? ==> Remembers(m, pc.ret) && Settled(m))
  }

  predicate FlagsOk(s: State, m: Sum) { m.signal == s.signal && m.exited == !s.active && m.woken == s.abortSleep }

  ghost predicate AnswersOk(s: State) {
    PlaceOk(s.pc, SumOf(s.trace)) && FlagsOk(s, SumOf(s.trace)) && AllFit(s.trace)
  }

  lemma AnswersKeep(s: State, a: Step)
    requires AnswersOk(s) && Enabled(s, a)
    ensures AnswersOk(Apply(s, a))
  {
    hide AnswersOk, Apply;
    match a
    case Clear => AnswersBefore(s, a);
    case Arm => AnswersBefore(s, a);
    case Run(_, _) => AnswersBefore(s, a);
    case Branch => AnswersBranch(s);
    case Test => AnswersSleep(s, a);
    case Park => AnswersSleep(s, a);
    case CheckSignal => AnswersSignal(s);
    case Env(e) => AnswersEnv(s, e);
    case _ => AnswersLeave(s, a);
  }

  lemma AnswersBefore(s: State, a: Step)
    requires AnswersOk(s) && Enabled(s, a) && (a.Clear? || a.Arm? || a.Run?)
    ensures AnswersOk(Apply(s, a))
  {
    hide SumOf, AllFit;
    var t := s.trace;
    match a
    case Clear => SnocSum(t, AbortCleared);
    case Arm => SnocSum(t, StayAwake); SnocSum(t + [StayAwake], Unfreeze);
    case Run(ret, resched) => SnocSum(t, Hcall); SnocSum(t + [Hcall], Answer(ret, resched));
  }

  lemma AnswersBranch(s: State)
    requires AnswersOk(s) && Enabled(s, Branch)
    ensures AnswersOk(Apply(s, Branch))
  {
    hide SumOf, AllFit;
    SnocSum(s.trace, Freeze);
    SnocSum(s.trace, Relax);
  }

  lemma AnswersSleep(s: State, a: Step)
    requires AnswersOk(s) && Enabled(s, a) && (a.Test? || a.Park?)
    ensures AnswersOk(Apply(s, a))
  {
    hide SumOf, AllFit;
    SnocSum(s.trace, Block);
  }

  lemma AnswersLeave(s: State, a: Step)
    requires AnswersOk(s) && Enabled(s, a) && (a.Call? || a.LoopCond?)
    ensures AnswersOk(Apply(s, a))
  {
    hide SumOf, AllFit;
    var t := s.trace;
    match a
    case Call(_) => SnocSum(t, Return(Eperm));
    case LoopCond => SnocSum(t, Return(Remapped(s.pc.ret)));
  }

  lemma AnswersSignal(s: State)
    requires AnswersOk(s) && Enabled(s, CheckSignal)
    ensures AnswersOk(Apply(s, CheckSignal))
  {
    hide SumOf, AllFit;
    SnocSum(s.trace, Freeze);
    SnocSum(if s.frozen then s.trace else s.trace + [Freeze], Return(Erestartsys));
  }

  lemma AnswersEnv(s: State, e: EnvStep)
    requires AnswersOk(s) && EnvEnabled(s, e)
    ensures AnswersOk(Apply(s, Env(e)))
  {
    hide SumOf, AllFit;
    match e
    case SetAbort => SnocSum(s.trace, Wake);
    case VmExit => SnocSum(s.trace, Exit);
    case Signal => SnocSum(s.trace, SignalRaised);
    case SignalTaken => SnocSum(s.trace, SignalDropped);
    case _ =>
  }

  predicate RunEnabled(s: State, run: seq<Step>)
    decreases |run|
  {
    run == [] || (Enabled(s, run[0]) && RunEnabled(Apply(s, run[0]), run[1..]))
  }

  function After(s: State, run: seq<Step>): State
    requires RunEnabled(s, run)
    decreases |run|
  {
    if run == [] then s else After(Apply(s, run[0]), run[1..])
  }

  lemma {:induction false} RunKeeps(s: State, run: seq<Step>)
    requires Inv(s) && RunEnabled(s, run)
    ensures Inv(After(s, run))
    decreases |run|
  {
    if run != [] {
      StepKeeps(s, run[0]);
      RunKeeps(Apply(s, run[0]), run[1..]);
    }
  }

  /**
    No lost wakeup, at every moment of every run: a thread asleep although somebody woke it since its last hypercall is
    about to be woken, because that waker has yet to make its wake_up call.
   */
  lemma NoLostWakeup(run: seq<Step>)
    requires RunEnabled(Init(), run)
    ensures var s := After(Init(), run);
            s.pc.Asleep? && WokenSinceRun(s.trace) ==> s.inFlight > 0
  {
    RunKeeps(Init(), run);
  }

  /** Every wakeup is followed by a vcpu_run hypercall before the thread ever blocks again. */
  lemma WakeThenRunThenBlock(run: seq<Step>, i: nat, j: nat)
    requires RunEnabled(Init(), run)
    requires i < j < |After(Init(), run).trace|
    requires After(Init(), run).trace[i] == Wake && After(Init(), run).trace[j] == Block
    ensures exists k :: i < k < j && After(Init(), run).trace[k] == Hcall
  {
    RunKeeps(Init(), run);
    var t := After(Init(), run).trace;
    assert Allowed(t[..j], t[j]);
    var before := t[..j];
    assert before[i] == Wake;
    assert Hcall in before[i + 1..];
    var k :| 0 <= k < |before[i + 1..]| && before[i + 1..][k] == Hcall;
    assert t[i + 1 + k] == Hcall;
  }

  /**
    Watchdog and wakeup-source discipline over all calls: FREEZE and UNFREEZE strictly alternate, FREEZE first; a
    vcpu_run hypercall is made only unfrozen with the wakeup source held, a sleep only with it relaxed, and
    -ERESTARTSYS is returned only frozen.
   */
  lemma WatchdogDiscipline(run: seq<Step>)
    requires RunEnabled(Init(), run)
    ensures var t := After(Init(), run).trace;
            && Alternates(WdogOps(t))
            && forall i: nat :: i < |t| ==>
                 && (t[i] == Hcall ==> !FrozenAfter(t[..i]) && HeldAfter(t[..i]))
                 && (t[i] == Block ==> !HeldAfter(t[..i]))
                 && (t[i] == Return(Erestartsys) ==> FrozenAfter(t[..i]))
  {
    RunKeeps(Init(), run);
    var t := After(Init(), run).trace;
    forall i: nat | i < |t|
      ensures t[i] == Hcall ==> !FrozenAfter(t[..i]) && HeldAfter(t[..i])
      ensures t[i] == Block ==> !HeldAfter(t[..i])
      ensures t[i] == Return(Erestartsys) ==> FrozenAfter(t[..i])
    {
      assert Allowed(t[..i], t[i]);
    }
  }

  /** Nothing but this answer counts after i. */
  predicate LastAnswerAt(t: seq<Event>, i: nat) {
    i < |t| && t[i].Answer? && forall k :: i < k < |t| ==> !t[k].Answer? && !t[k].Return?
  }

  predicate SomeAfter(t: seq<Event>, i: nat, e: Event) { exists k :: i < k < |t| && t[k] == e }

  lemma {:induction false} SumSince(t: seq<Event>, i: nat)
    requires LastAnswerAt(t, i)
    ensures SumOf(t).last == Answered(t[i].ret, t[i].resched)
    ensures SumOf(t).relaxed <==> SomeAfter(t, i, Relax)
    ensures SumOf(t).froze <==> SomeAfter(t, i, Freeze)
    ensures SumOf(t).blocked <==> SomeAfter(t, i, Block)
    decreases |t|
  {
    var init, last := t[..|t| - 1], t[|t| - 1];
    if i < |t| - 1 {
      SumSince(init, i);
      SnocAfter(init, i, last, Relax);
      SnocAfter(init, i, last, Freeze);
      SnocAfter(init, i, last, Block);
      assert t == init + [last];
    }
  }

  lemma SnocAfter(t: seq<Event>, i: nat, last: Event, e: Event)
    requires i < |t|
    ensures SomeAfter(t + [last], i, e) <==> SomeAfter(t, i, e) || last == e
  {
    var u := t + [last];
    if SomeAfter(t, i, e) {
      var k :| i < k < |t| && t[k] == e;
      assert u[k] == e;
    }
    assert u[|t|] == last;
  }

  /**
    What every answer of the hypercall leads to, before the thread goes round or returns. EXPECTS_WAKEUP and POWERED_OFF:
    the wakeup source is relaxed, and the thread blocks unless it was woken since it last cleared abort_sleep or has a
    signal. READY with another thread waiting for the CPU: the watchdog is frozen. An error other than RETRY: no further
    hypercall. The value returned is the last answer's, remapped, after an error or the VM's exit, or -ERESTARTSYS with a
    signal pending.
   */
  lemma AnswersAreFollowed(run: seq<Step>, i: nat, j: nat)
    requires RunEnabled(Init(), run) && j < |After(Init(), run).trace| && LastAnswerAt(After(Init(), run).trace[..j], i)
    ensures var t := After(Init(), run).trace;
            var (ret, e, m) := (t[i].ret, t[j], SumOf(t[..j]));
            && ((ret == Ok(ExpectsWakeup) || ret == Ok(PoweredOff)) && (e == AbortCleared || e == Hcall || e.Return?) ==>
                  SomeAfter(t[..j], i, Relax))
            && ((ret == Ok(ExpectsWakeup) || ret == Ok(PoweredOff)) && (e == AbortCleared || e.Return?) ==>
                  SomeAfter(t[..j], i, Block) || m.woken || m.signal)
            && (ret == Ok(Ready) && t[i].resched && (e == AbortCleared || e == Hcall || e.Return?) ==>
                  SomeAfter(t[..j], i, Freeze))
            && (ret == Failed ==> e != AbortCleared && e != Hcall)
            && (e.Return? ==> (e.code == Remapped(ret) && (ret == Failed || m.exited)) || (e.code == Erestartsys && m.signal))
  {
    RunKeeps(Init(), run);
    var t := After(Init(), run).trace;
    assert Fits(SumOf(t[..j]), t[j]);
    SumSince(t[..j], i);
    assert t[..j][i] == t[i];
  }

  /** After any other answer the wakeup source is not relaxed and the thread does not block before the next answer. */
  lemma OtherAnswersKeepRunning(run: seq<Step>, i: nat, j: nat)
    requires RunEnabled(Init(), run) && i < j < |After(Init(), run).trace|
    requires var t := After(Init(), run).trace;
             && t[i].Answer? && t[i].ret != Ok(ExpectsWakeup) && t[i].ret != Ok(PoweredOff)
             && (t[j] == Relax || t[j] == Block)
    ensures var t := After(Init(), run).trace; exists k :: i < k < j && (t[k].Answer? || t[k].Return?)
  {
    RunKeeps(Init(), run);
    RelaxNeedsAnswer(After(Init(), run).trace, i, j);
  }

  lemma RelaxNeedsAnswer(t: seq<Event>, i: nat, j: nat)
    requires AllFit(t) && i < j < |t| && (t[j] == Relax || t[j] == Block)
    requires t[i].Answer? && t[i].ret != Ok(ExpectsWakeup) && t[i].ret != Ok(PoweredOff)
    ensures exists k :: i < k < j && (t[k].Answer? || t[k].Return?)
  {
    assert Fits(SumOf(t[..j]), t[j]);
    var before := t[..j];
    assert before[i] == t[i];
    hide AllFit, SumOf;
    if forall k :: i < k < j ==> !before[k].Answer? && !before[k].Return? {
      SumSince(before, i);
      assert false;
    } else {
      var k :| i < k < j && (before[k].Answer? || before[k].Return?);
      assert t[k] == before[k];
    }
  }

  /** Once the VM has exited the vCPU is run at most once more, and no later call gets past the first test. */
  lemma AtMostOneRunAfterExit(run: seq<Step>)
    requires RunEnabled(Init(), run)
    ensures Exit in After(Init(), run).trace ==> RunsSinceExit(After(Init(), run).trace) <= 1
  {
    RunKeeps(Init(), run);
  }

  /**
    gh_wakeup_all_vcpus clears is_active and then wakes the thread. A thread that sleeps on although that wakeup is
    complete was run by the hypervisor after it, so the vCPU itself asked to sleep in a VM that had already exited.
   */
  lemma SleepsAfterExitOnlyIfRunAgain(run: seq<Step>, i: nat, j: nat)
    requires RunEnabled(Init(), run)
    requires var s := After(Init(), run);
             && s.pc.Asleep? && s.inFlight == 0
             && i < j < |s.trace| && s.trace[i] == Exit && s.trace[j] == Wake
    ensures var s := After(Init(), run);
            Hcall in s.trace[j + 1..] && RunsSinceExit(s.trace) == 1 && Sleepy(s.pc.ret)
  {
    RunKeeps(Init(), run);
    AsleepAfterExit(After(Init(), run), i, j);
  }

  lemma AsleepAfterExit(s: State, i: nat, j: nat)
    requires Inv(s) && s.pc.Asleep? && s.inFlight == 0
    requires i < j < |s.trace| && s.trace[i] == Exit && s.trace[j] == Wake
    ensures Hcall in s.trace[j + 1..] && RunsSinceExit(s.trace) == 1 && Sleepy(s.pc.ret)
  {
    hide TraceOk, RunsSinceExit;
    assert Hcall in s.trace[j + 1..];
    RunAfterExitCounts(s.trace, i, j);
  }

  lemma {:induction false} RunAfterExitCounts(t: seq<Event>, i: nat, j: nat)
    requires i < j < |t| && t[i] == Exit && Hcall in t[j + 1..]
    ensures RunsSinceExit(t) >= 1
    decreases |t|
  {
    var before := t[..|t| - 1];
    assert before[i] == Exit;
    if t[|t| - 1] != Hcall {
      assert t[j + 1..] == before[j + 1..] + [t[|t| - 1]];
      RunAfterExitCounts(before, i, j);
    }
  }

  // The VM's exit and the wakeup that goes with it: exactly when the thread gets to sleep again.

  /** Some continuation makes the thread block. */
  ghost predicate CanBlock(s: State) {
    exists run :: RunEnabled(s, run) && Blocks(s, After(s, run))
  }

  /** A later state whose trace has a Block that an earlier one's has not. */
  predicate Blocks(s: State, later: State) {
    exists i: nat :: |s.trace| <= i < |later.trace| && later.trace[i] == Block
  }

  /** The VM has exited and the thread is on its way out of gh_vcpu_run, or out already. */
  predicate OnTheWayOut(s: State) {
    !s.active && (s.pc.Outside? || s.signal || (s.abortSleep && !s.pc.Top?))
  }

  lemma StaysOnTheWayOut(s: State, a: Step)
    requires OnTheWayOut(s) && Enabled(s, a)
    ensures OnTheWayOut(Apply(s, a)) && |s.trace| <= |Apply(s, a).trace|
    ensures !Blocks(s, Apply(s, a))
  {
  }

  lemma {:induction false} NeverBlocksAgain(s: State, run: seq<Step>)
    requires OnTheWayOut(s) && RunEnabled(s, run)
    ensures OnTheWayOut(After(s, run)) && !Blocks(s, After(s, run)) && s.trace <= After(s, run).trace
    decreases |run|
  {
    if run != [] {
      var m := Apply(s, run[0]);
      StaysOnTheWayOut(s, run[0]);
      hide OnTheWayOut, Apply;
      NeverBlocksAgain(m, run[1..]);
      TraceGrows(s, run[0]);
      BlocksSplit(s, m, After(m, run[1..]));
    }
  }

  lemma TraceGrows(s: State, a: Step)
    requires Enabled(s, a)
    ensures s.trace <= Apply(s, a).trace
  {
    hide EnvApply;
    if a.Env? { EnvTraceGrows(s, a.e); }
  }

  lemma EnvTraceGrows(s: State, e: EnvStep)
    requires EnvEnabled(s, e)
    ensures s.trace <= EnvApply(s, e).trace
  {
  }

  lemma BlocksSplit(s: State, m: State, t: State)
    requires s.trace <= m.trace <= t.trace && !Blocks(s, m) && !Blocks(m, t)
    ensures !Blocks(s, t)
  {
    forall i: nat | |s.trace| <= i < |t.trace| ensures t.trace[i] != Block {
      if i < |m.trace| { assert m.trace[i] == t.trace[i]; }
    }
  }

  /** From the head of the loop, with no signal pending, the thread can run the vCPU once more and block. */
  lemma CanBlockFromTop(s: State)
    requires s.pc == Top && !s.signal
    ensures CanBlock(s)
  {
    var run := [Clear, Arm, Run(Ok(ExpectsWakeup), false), Branch, Test, Park];
    var s1 := Apply(s, Clear);
    var s2 := Apply(s1, Arm);
    var s3 := Apply(s2, Run(Ok(ExpectsWakeup), false));
    var s4 := Apply(s3, Branch);
    var s5 := Apply(s4, Test);
    var s6 := Apply(s5, Park);
    assert s6.trace[|s6.trace| - 1] == Block && |s6.trace| > |s.trace|;
    hide RunEnabled, After;
    NoMore(s6);
    Unroll(s5, run[5..]);
    Unroll(s4, run[4..]);
    Unroll(s3, run[3..]);
    Unroll(s2, run[2..]);
    Unroll(s1, run[1..]);
    Unroll(s, run);
  }

  /**
    When the VM has exited, a wakeup leaves the thread able to block again if and only if it finds the thread between its
    test of is_active and the clearing of abort_sleep, with no signal pending. In every other position, whatever happens
    afterwards, the thread never blocks again.
   */
  lemma ExitWakeupSpentExactly(s: State)
    requires !s.active
    ensures CanBlock(Apply(s, Env(SetAbort))) <==> s.pc == Top && !s.signal
  {
    var woken := Apply(s, Env(SetAbort));
    if s.pc == Top && !s.signal {
      CanBlockFromTop(woken);
    } else {
      assert OnTheWayOut(woken);
      forall run | RunEnabled(woken, run) ensures !Blocks(woken, After(woken, run)) { NeverBlocksAgain(woken, run); }
    }
  }

  /** Steps of its own that separate the thread from its return, once it is on the way out. */
  function StepsLeft(pc: Pc): nat {
    match pc
    case Outside => 0
    case Looping(_) => 1
    case Switched(_) => 2
    case Waiting(_) => 3
    case Asleep(_) => 3
    case Testing(_) => 4
    case Ran(_, _) => 5
    case Armed => 6
    case Cleared => 7
    case Top => 8
  }

  /** And it does leave: each of its steps brings it closer, nothing others do takes it back, and it is never stuck. */
  lemma LeavesAfterExit(s: State, a: Step)
    requires Inv(s) && OnTheWayOut(s) && !s.pc.Outside?
    ensures Enabled(s, a) && a.Env? ==> StepsLeft(Apply(s, a).pc) <= StepsLeft(s.pc)
    ensures Enabled(s, a) && !a.Env? ==> StepsLeft(Apply(s, a).pc) < StepsLeft(s.pc)
    ensures s.pc.Asleep? ==> Enabled(s, Env(WakeUp)) && Apply(s, Env(WakeUp)).pc.Waiting?
  {
    hide TraceOk, ExitOk, AnswersOk;
  }

  /** The case is real: an exit that falls between the test of is_active and the clearing of abort_sleep. */
  lemma ExitWakeupCanBeSpent()
    ensures exists run :: RunEnabled(Init(), run) && var s := After(Init(), run);
              s.pc.Asleep? && !s.active && s.inFlight == 0 && [Exit, Wake] <= s.trace
  {
    hide RunEnabled, After;
    var sleepy := Ok(ExpectsWakeup);
    var run := [Call(true), Env(VmExit), Env(SetAbort), Env(WakeUp), Clear, Arm, Run(sleepy, false), Branch, Test,
                Park];
    var s0 := Init();
    var s1 := Apply(s0, run[0]);
    var s2 := Apply(s1, run[1]);
    var s3 := Apply(s2, run[2]);
    var s4 := Apply(s3, run[3]);
    var s5 := Apply(s4, run[4]);
    var s6 := Apply(s5, run[5]);
    var s7 := Apply(s6, run[6]);
    var s8 := Apply(s7, run[7]);
    var s9 := Apply(s8, run[8]);
    NoMore(Apply(s9, Park));
    Unroll(s9, run[9..]);
    Unroll(s8, run[8..]);
    Unroll(s7, run[7..]);
    Unroll(s6, run[6..]);
    Unroll(s5, run[5..]);
    Unroll(s4, run[4..]);
    Unroll(s3, run[3..]);
    Unroll(s2, run[2..]);
    Unroll(s1, run[1..]);
    Unroll(s0, run);
  }

  lemma NoMore(s: State)
    ensures RunEnabled(s, []) && After(s, []) == s
  {
  }

  lemma Unroll(s: State, run: seq<Step>)
    requires run != [] && Enabled(s, run[0]) && RunEnabled(Apply(s, run[0]), run[1..])
    ensures RunEnabled(s, run) && After(s, run) == After(Apply(s, run[0]), run[1..])
  {
  }

  /** What happens around one turn of the loop: what others do between the thread's steps, and what it is answered. */
  datatype Turn = Turn(o1: seq<EnvStep>, o2: seq<EnvStep>, o3: seq<EnvStep>, ret: Hret, o4: seq<EnvStep>,
                       needResched: bool, naps: seq<seq<EnvStep>>, o5: seq<EnvStep>, o6: seq<EnvStep>)

  /** Others can only rouse the thread, not move it. */
  predicate Undisturbed(before: Pc, after: Pc) { after == before || after == Roused(before) }

  lemma EnvPc(s: State, e: EnvStep)
    requires EnvEnabled(s, e)
    ensures Undisturbed(s.pc, EnvApply(s, e).pc)
  {
  }

  lemma EnvIs(s: State, e: EnvStep)
    ensures EnvEnabled(s, e) ==> Apply(s, Env(e)) == EnvApply(s, e)
  {
  }

  /** struct gh_proxy_vcpu with the vCPU thread on it. */
  class Vcpu {
    var abortSleep: bool
    var frozen: bool
    var held: bool
    var active: bool
    var signal: bool
    var inFlight: nat
    var pc: Pc
    ghost var trace: seq<Event>

    ghost function View(): State
      reads this
    {
      State(pc, abortSleep, frozen, held, active, signal, inFlight, trace)
    }

    /** The thread has taken this step. */
    ghost predicate Did(before: State, a: Step)
      reads this
    {
      Enabled(before, a) && View() == Apply(before, a)
    }

    constructor ()
      ensures View() == Init()
    {
      abortSleep, frozen, held, active, signal, inFlight, pc, trace := false, false, false, true, false, 0, Outside, [];
    }

    method SetAbortSleep()
      modifies this
      ensures View() == EnvApply(old(View()), SetAbort)
    {
      abortSleep, inFlight, trace := true, inFlight + 1, trace + [Wake];
    }

    method OneOther(e: EnvStep)
      modifies this
      ensures View() == if EnvEnabled(old(View()), e) then EnvApply(old(View()), e) else old(View())
    {
      match e
      case SetAbort => SetAbortSleep();
      case WakeUp => if inFlight > 0 { inFlight, pc := inFlight - 1, Roused(pc); }
      case VmExit => if active { active, trace := false, trace + [Exit]; }
      case Signal => signal, pc, trace := true, Roused(pc), trace + [SignalRaised];
      case Spurious => pc := Roused(pc);
      case SignalTaken => if pc == Outside { signal, trace := false, trace + [SignalDropped]; }
    }

    method KeepOther(e: EnvStep)
      requires Inv(View())
      modifies this
      ensures Inv(View()) && Undisturbed(old(pc), pc)
    {
      hide Inv, Apply, EnvApply;
      ghost var s := View();
      if EnvEnabled(s, e) { StepKeeps(s, Env(e)); EnvPc(s, e); }
      OneOther(e);
      assert EnvEnabled(s, e) ==> Apply(s, Env(e)) == EnvApply(s, e) by { EnvIs(s, e); }
    }

    /** Whatever others do between two steps of the thread. */
    method Interfere(others: seq<EnvStep>)
      requires Inv(View())
      modifies this
      ensures Inv(View()) && Undisturbed(old(pc), pc) && (!old(pc).Asleep? ==> pc == old(pc))
    {
      hide Inv;
      for i := 0 to |others|
        invariant Inv(View()) && Undisturbed(old(pc), pc)
      {
        KeepOther(others[i]);
      }
    }

    method Enter(capValid: bool) returns (entered: bool)
      requires pc == Outside && Inv(View())
      modifies this
      ensures Inv(View()) && Did(old(View()), Call(capValid))
      ensures if entered then pc == Top else Left(Eperm)
      ensures entered <==> old(active) && capValid
    {
      hide Inv;
      StepKeeps(View(), Call(capValid));
      entered := active && capValid;
      if entered { pc := Top; } else { trace := trace + [Return(Eperm)]; }
    }

    method ClearAbort()
      requires pc == Top && Inv(View())
      modifies this
      ensures Inv(View()) && Did(old(View()), Clear) && pc == Cleared
    {
      hide Inv;
      StepKeeps(View(), Clear);
      abortSleep, pc, trace := false, Cleared, trace + [AbortCleared];
    }

    method HoldAndUnfreeze()
      requires pc == Cleared && Inv(View())
      modifies this
      ensures Inv(View()) && Did(old(View()), Arm) && pc == Armed
    {
      hide Inv;
      StepKeeps(View(), Arm);
      held, trace := true, trace + [StayAwake];
      if frozen { frozen, trace := false, trace + [Unfreeze]; }
      pc := Armed;
    }

    method RunHypercall(ret: Hret, resched: bool)
      requires pc == Armed && Inv(View())
      modifies this
      ensures Inv(View()) && Did(old(View()), Run(ret, resched)) && pc == Ran(ret, resched)
    {
      hide Inv;
      StepKeeps(View(), Run(ret, resched));
      trace, pc := trace + [Hcall] + [Answer(ret, resched)], Ran(ret, resched);
    }

    method Switch()
      requires pc.Ran? && Inv(View())
      modifies this
      ensures Inv(View()) && Did(old(View()), Branch) && (pc.Testing? || pc.Switched?)
    {
      hide Inv;
      StepKeeps(View(), Branch);
      var ret := pc.ret;
      if ret == Ok(Ready) && pc.resched { frozen, trace := true, trace + [Freeze]; }
      if ret.Ok? && (ret.state == ExpectsWakeup || ret.state == PoweredOff) {
        held, trace, pc := false, trace + [Relax], Testing(ret);
      } else {
        pc := Switched(ret);
      }
    }

    /** gh_vcpu_sleep; `awake` is false when the thread is still asleep after everything in `naps` has happened. */
    method Sleep(naps: seq<seq<EnvStep>>) returns (awake: bool)
      requires pc.Testing? && Inv(View())
      modifies this
      ensures Inv(View())
      ensures awake ==> pc == Switched(old(pc).ret)
      ensures !awake ==> pc == Asleep(old(pc).ret) || pc == Waiting(old(pc).ret)
    {
      hide Inv;
      StepKeeps(View(), Test);
      if abortSleep || signal { pc := Switched(pc.ret); return true; }
      pc := Waiting(pc.ret);
      var i := 0;
      while i < |naps| && !pc.Switched?
        invariant Inv(View())
        invariant pc == Switched(old(pc).ret) || pc == Asleep(old(pc).ret) || pc == Waiting(old(pc).ret)
        decreases |naps| - i
      {
        if pc.Waiting? {
          StepKeeps(View(), Park);
          if abortSleep || signal { pc := Switched(pc.ret); } else { trace, pc := trace + [Block], Asleep(pc.ret); }
        }
        Interfere(naps[i]);
        i := i + 1;
      }
      awake := pc.Switched?;
    }

    method SignalPending() returns (leave: bool)
      requires pc.Switched? && Inv(View())
      modifies this
      ensures Inv(View()) && Did(old(View()), CheckSignal) && leave == old(signal)
      ensures if leave then Left(Erestartsys) && frozen else pc.Looping?
    {
      hide Inv;
      StepKeeps(View(), CheckSignal);
      leave := signal;
      if signal {
        if !frozen { frozen, trace := true, trace + [Freeze]; }
        trace, pc := trace + [Return(Erestartsys)], Outside;
      } else {
        pc := Looping(pc.ret);
      }
    }

    method LoopAgain() returns (again: bool, code: Code)
      requires pc.Looping? && Inv(View())
      modifies this
      ensures Inv(View()) && Did(old(View()), LoopCond)
      ensures if again then pc == Top else Left(code) && code == Remapped(old(pc).ret)
    {
      hide Inv;
      StepKeeps(View(), LoopCond);
      code := Remapped(pc.ret);
      again := pc.ret != Failed && active;
      if again { pc := Top; } else { trace, pc := trace + [Return(code)], Outside; }
    }

    /** The thread has just returned from gh_vcpu_run. */
    ghost predicate Left(code: Code)
      reads this
    {
      pc == Outside && trace != [] && trace[|trace| - 1] == Return(code)
    }

    /** gh_vcpu_run; `done` is false when the thread is still inside after every turn given. */
    method RunVcpu(capValid: bool, turns: seq<Turn>) returns (code: Code, done: bool)
      requires pc == Outside && Inv(View())
      modifies this
      ensures Inv(View()) && (done ==> Left(code))
      ensures done && code == Erestartsys ==> frozen
      ensures code == Eperm && done <==> !old(active) || !capValid
    {
      hide Inv, Apply, Left, Undisturbed;
      code, done := Erestartsys, false;
      var entered := Enter(capValid);
      if !entered { return Eperm, true; }
      for i := 0 to |turns|
        invariant Inv(View()) && pc == Top && code == Erestartsys
      {
        var turn := turns[i];
        Interfere(turn.o1);
        ClearAbort();
        Interfere(turn.o2);
        HoldAndUnfreeze();
        Interfere(turn.o3);
        RunHypercall(turn.ret, turn.needResched);
        Interfere(turn.o4);
        Switch();
        if pc.Testing? {
          var awake := Sleep(turn.naps);
          if !awake { return; }
        }
        Interfere(turn.o5);
        var leave := SignalPending();
        if leave { return Erestartsys, true; }
        Interfere(turn.o6);
        var again, result := LoopAgain();
        if !again { return result, true; }
      }
    }
  }
}
