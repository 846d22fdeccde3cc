/**
  gh_msgq.c: the flags tx_full and rx_empty on the two ends of one bounded queue in the hypervisor. Every spin-locked
  section is split where another CPU can get in between: the hypercall takes effect first, the flag is written later,
  and an interrupt handler that has been entered may still have to wait for the lock.
 */
module MsgQueue {
  import opened Errno

  /** A message, with the gh_msgq_send call that queues it. */
  datatype Msg = Msg(call: nat, body: nat)

  /** A message taken out of the queue, with the gh_msgq_recv call that took it. */
  datatype Receipt = Receipt(call: nat, msg: Msg)

  /** A spin lock around a hypercall; while held, the value about to be stored in the flag (none after other errors). */
  datatype Lock = Free | Held(write: Write)
  datatype Write = Leave | Set(value: bool)

  /** An interrupt handler: not running, entered and before its store to the flag, or between that store and wake_up. */
  datatype Isr = Idle | Entered | Waking

  /** One end of the queue as the driver sees it; `blocked` is tx_full or rx_empty. */
  datatype End = End(blocked: bool, lck: Lock, pending: bool, isr: Isr, sleepers: set<nat>)

  datatype State = State(cap: nat, queue: seq<Msg>, tx: End, rx: End, sent: seq<Msg>, received: seq<Receipt>)

  /** gh_msgq_alloc_entry: tx_full is false, rx_empty is true. */
  function Init(cap: nat): State {
    State(cap, [], End(false, Free, false, Idle, {}), End(true, Free, false, Idle, {}), [], [])
  }

  datatype Step =
    | SendHcall(m: Msg) | SendError | FinishSend
    | RecvHcall(call: nat) | RecvError | FinishRecv
    | TxEnd(e: EndStep) | RxEnd(e: EndStep)

  /** What happens at one end besides hypercalls. */
  datatype EndStep = Interrupt | ClearFlag | WakeAll | Sleep(thread: nat) | Unsleep(thread: nat)

  predicate EndEnabled(e: End, s: EndStep) {
    match s
    case Interrupt => e.pending && e.isr == Idle
    case ClearFlag => e.isr == Entered && e.lck == Free
    case WakeAll => e.isr == Waking
    case Sleep(_) => e.blocked
    case Unsleep(_) => true
  }

  function EndApply(e: End, s: EndStep): End {
    match s
    case Interrupt => e.(pending := false, isr := Entered)
    case ClearFlag => e.(blocked := false, isr := Waking)
    case WakeAll => e.(isr := Idle, sleepers := {})
    case Sleep(t) => e.(sleepers := e.sleepers + {t})
    case Unsleep(t) => e.(sleepers := e.sleepers - {t})
  }

  predicate Enabled(s: State, a: Step) {
    match a
    case SendHcall(_) => s.tx.lck == Free
    case SendError => s.tx.lck == Free
    case FinishSend => s.tx.lck.Held?
    case RecvHcall(_) => s.rx.lck == Free
    case RecvError => s.rx.lck == Free
    case FinishRecv => s.rx.lck.Held?
    case TxEnd(e) => EndEnabled(s.tx, e)
    case RxEnd(e) => EndEnabled(s.rx, e)
  }

  function Stored(e: End): End
    requires e.lck.Held?
  {
    e.(lck := Free, blocked := if e.lck.write.Set? then e.lck.write.value else e.blocked)
  }

  function Apply(s: State, a: Step): State
    requires Enabled(s, a)
  {
    match a
    case SendHcall(m) =>
      if |s.queue| < s.cap then
        s.(queue := s.queue + [m], sent := s.sent + [m],
           tx := s.tx.(lck := Held(Set(|s.queue| + 1 == s.cap))),
           rx := s.rx.(pending := s.rx.pending || s.queue == []))
      else s.(tx := s.tx.(lck := Held(Set(true))))
    case SendError => s.(tx := s.tx.(lck := Held(Leave)))
    case FinishSend => s.(tx := Stored(s.tx))
    case RecvHcall(c) =>
      if s.queue != [] then
        s.(queue := s.queue[1..], received := s.received + [Receipt(c, s.queue[0])],
           rx := s.rx.(lck := Held(Set(|s.queue| == 1))),
           tx := s.tx.(pending := s.tx.pending || |s.queue| == s.cap))
      else s.(rx := s.rx.(lck := Held(Set(true))))
    case RecvError => s.(rx := s.rx.(lck := Held(Leave)))
    case FinishRecv => s.(rx := Stored(s.rx))
    case TxEnd(e) => s.(tx := EndApply(s.tx, e))
    case RxEnd(e) => s.(rx := EndApply(s.rx, e))
  }

  /** What was received, in order. */
  function Messages(received: seq<Receipt>): seq<Msg> { seq(|received|, i requires 0 <= i < |received| => received[i].msg) }

  /** What one call has queued, and what one call has received. */
  function SentBy(sent: seq<Msg>, call: nat): seq<Msg> {
    if sent == [] then []
    else
      var m := sent[|sent| - 1];
      SentBy(sent[..|sent| - 1], call) + if m.call == call then [m] else []
  }

  function ReceivedBy(received: seq<Receipt>, call: nat): seq<Msg> {
    if received == [] then []
    else
      var r := received[|received| - 1];
      ReceivedBy(received[..|received| - 1], call) + if r.call == call then [r.msg] else []
  }

  /** The next thing the interrupt does is clear the flag. */
  predicate WillClear(e: End) { e.pending || e.isr == Entered }

  /** `open`: there is room (for a sender) or a message (for a receiver). */
  predicate EndOk(e: End, open: bool) {
    && (open && e.blocked ==> WillClear(e))
    && (open && e.lck == Held(Set(true)) ==> WillClear(e))
    && (open && e.sleepers != {} ==> e.pending || e.isr != Idle)
  }

  predicate Inv(s: State) {
    && s.cap > 0 && |s.queue| <= s.cap && Messages(s.received) + s.queue == s.sent
    && EndOk(s.tx, |s.queue| < s.cap) && EndOk(s.rx, s.queue != [])
  }

  lemma StepKeeps(s: State, a: Step)
    requires Inv(s) && Enabled(s, a)
    ensures Inv(Apply(s, a)) && Apply(s, a).cap == s.cap
  {
    match a
    case RecvHcall(c) =>
      if s.queue != [] {
        var r := Receipt(c, s.queue[0]);
        assert Messages(s.received + [r]) == Messages(s.received) + [r.msg];
        assert s.queue == [r.msg] + s.queue[1..];
      }
    case SendHcall(m) =>
      if |s.queue| < s.cap { assert Messages(s.received) + (s.queue + [m]) == (Messages(s.received) + s.queue) + [m]; }
    case _ =>
  }

  predicate Follows(run: seq<State>, steps: seq<Step>, i: nat)
    requires |run| == |steps| + 1 && i < |steps|
  {
    Enabled(run[i], steps[i]) && run[i + 1] == Apply(run[i], steps[i])
  }

  predicate IsRun(cap: nat, run: seq<State>, steps: seq<Step>) {
    && |run| == |steps| + 1 && run[0] == Init(cap)
    && forall i: nat :: i < |steps| ==> Follows(run, steps, i)
  }

  lemma {:induction false} RunKeeps(cap: nat, run: seq<State>, steps: seq<Step>, i: nat)
    requires cap > 0 && IsRun(cap, run, steps) && i < |run|
    ensures Inv(run[i]) && run[i].cap == cap
    decreases i
  {
    if i > 0 {
      RunKeeps(cap, run, steps, i - 1);
      assert Follows(run, steps, i - 1);
      StepKeeps(run[i - 1], steps[i - 1]);
    }
  }

  /**
    In every reachable state, whatever the interleaving: a set flag with nothing to wait for, or a thread asleep with
    nothing to wait for, always has an interrupt on its way that will clear the flag and wake it.
   */
  lemma NoLostWakeup(cap: nat, run: seq<State>, steps: seq<Step>, i: nat)
    requires cap > 0 && IsRun(cap, run, steps) && i < |run|
    ensures var s := run[i];
            && (s.rx.blocked && s.queue != [] ==> s.rx.pending || s.rx.isr == Entered)
            && (s.tx.blocked && |s.queue| < cap ==> s.tx.pending || s.tx.isr == Entered)
            && (s.rx.sleepers != {} && s.queue != [] ==> s.rx.pending || s.rx.isr != Idle)
            && (s.tx.sleepers != {} && |s.queue| < cap ==> s.tx.pending || s.tx.isr != Idle)
  {
    RunKeeps(cap, run, steps, i);
  }

  /** Messages come out once each and in the order they went in, whoever sends and whoever receives. */
  lemma InOrderOnce(cap: nat, run: seq<State>, steps: seq<Step>, i: nat)
    requires cap > 0 && IsRun(cap, run, steps) && i < |run|
    ensures var s := run[i];
            Messages(s.received) <= s.sent && Messages(s.received) + s.queue == s.sent && |s.queue| <= cap
  {
    RunKeeps(cap, run, steps, i);
  }

  /** The locked section that begins with step h ends with step f. */
  predicate SectionEnds(steps: seq<Step>, h: nat, f: nat, end: Step) {
    h < f < |steps| && steps[f] == end && forall k :: h < k < f ==> steps[k] != end
  }

  lemma {:induction false} SendHolds(cap: nat, run: seq<State>, steps: seq<Step>, h: nat, k: nat)
    requires IsRun(cap, run, steps) && h < k <= |steps| && steps[h].SendHcall?
    requires forall i :: h < i < k ==> steps[i] != FinishSend
    ensures run[k].tx.lck == Held(Set(|run[h].queue| + 1 >= run[h].cap))
    decreases k
  {
    assert Follows(run, steps, k - 1);
    if k > h + 1 { SendHolds(cap, run, steps, h, k - 1); }
  }

  lemma {:induction false} RecvHolds(cap: nat, run: seq<State>, steps: seq<Step>, h: nat, k: nat)
    requires IsRun(cap, run, steps) && h < k <= |steps| && steps[h].RecvHcall?
    requires forall i :: h < i < k ==> steps[i] != FinishRecv
    ensures run[k].rx.lck == Held(Set(|run[h].queue| <= 1))
    decreases k
  {
    assert Follows(run, steps, k - 1);
    if k > h + 1 { RecvHolds(cap, run, steps, h, k - 1); }
  }

  /** Nothing writes the flag of an end in steps f to j - 1 but, possibly, the end of a section with another error. */
  predicate FlagKept(steps: seq<Step>, f: nat, j: nat, finish: Step, clear: Step) {
    f <= j <= |steps| && forall k :: f <= k < j ==> steps[k] != finish && steps[k] != clear
  }

  /**
    A send that fills the queue or finds it full leaves tx_full set when its locked section ends, one that leaves room
    leaves it clear, and it stays so until the interrupt handler clears it or another send's section ends.
   */
  lemma {:induction false} FullIsFlagged(cap: nat, run: seq<State>, steps: seq<Step>, h: nat, f: nat, j: nat)
    requires cap > 0 && IsRun(cap, run, steps) && h < |steps| && steps[h].SendHcall?
    requires SectionEnds(steps, h, f, FinishSend) && FlagKept(steps, f + 1, j, FinishSend, TxEnd(ClearFlag))
    ensures run[j].tx.blocked <==> |run[h].queue| + 1 >= cap
    decreases j
  {
    RunKeeps(cap, run, steps, h);
    if j == f + 1 {
      SendHolds(cap, run, steps, h, f);
      assert Follows(run, steps, f);
    } else {
      FullIsFlagged(cap, run, steps, h, f, j - 1);
      assert Follows(run, steps, j - 1);
    }
  }

  /** And a receive that takes the last message or finds none leaves rx_empty set, likewise. */
  lemma {:induction false} EmptyIsFlagged(cap: nat, run: seq<State>, steps: seq<Step>, h: nat, f: nat, j: nat)
    requires cap > 0 && IsRun(cap, run, steps) && h < |steps| && steps[h].RecvHcall?
    requires SectionEnds(steps, h, f, FinishRecv) && FlagKept(steps, f + 1, j, FinishRecv, RxEnd(ClearFlag))
    ensures run[j].rx.blocked <==> |run[h].queue| <= 1
    decreases j
  {
    if j == f + 1 {
      RecvHolds(cap, run, steps, h, f);
      assert Follows(run, steps, f);
    } else {
      EmptyIsFlagged(cap, run, steps, h, f, j - 1);
      assert Follows(run, steps, j - 1);
    }
  }

  /** No interrupt is pending or being handled at this end. */
  predicate Quiet(e: End) { !e.pending && e.isr == Idle }

  /** Sender and receiver never both sleep with no interrupt left to wake one of them. */
  lemma NoMutualSleep(cap: nat, run: seq<State>, steps: seq<Step>, i: nat)
    requires cap > 0 && IsRun(cap, run, steps) && i < |run|
    requires Quiet(run[i].tx) && Quiet(run[i].rx)
    ensures run[i].tx.sleepers == {} || run[i].rx.sleepers == {}
  {
    RunKeeps(cap, run, steps, i);
  }

  /** struct gh_msgq_cap_table on the heap, one side at a time, each method one atomic stretch of the driver. */
  class CapEntry {
    var blocked: bool
    var lck: Lock
    var pending: bool
    var isr: Isr
    var sleepers: set<nat>

    function View(): End
      reads this
    {
      End(blocked, lck, pending, isr, sleepers)
    }

    constructor (blocked: bool)
      ensures View() == End(blocked, Free, false, Idle, {})
    {
      this.blocked, lck, pending, isr, sleepers := blocked, Free, false, Idle, {};
    }

    method Raise()
      modifies this
      ensures View() == old(View()).(pending := true)
    {
      pending := true;
    }

    /** __gh_msgq_send and __gh_msgq_recv up to the hypercall's return. */
    method LockAndCall(write: Write)
      requires lck == Free
      modifies this
      ensures View() == old(View()).(lck := Held(write))
    {
      lck := Held(write);
    }

    /** The rest of the locked section: the flag follows the hypercall's answer. */
    method StoreAndUnlock()
      requires lck.Held?
      modifies this
      ensures View() == Stored(old(View()))
    {
      if lck.write.Set? { blocked := lck.write.value; }
      lck := Free;
    }

    /** gh_msgq_tx_isr / gh_msgq_rx_isr, in three stretches. */
    method IsrEnter()
      requires EndEnabled(View(), Interrupt)
      modifies this
      ensures View() == EndApply(old(View()), Interrupt)
    {
      pending, isr := false, Entered;
    }

    method IsrClear()
      requires EndEnabled(View(), ClearFlag)
      modifies this
      ensures View() == EndApply(old(View()), ClearFlag)
    {
      blocked, isr := false, Waking;
    }

    method IsrWake()
      requires EndEnabled(View(), WakeAll)
      modifies this
      ensures View() == EndApply(old(View()), WakeAll)
    {
      isr, sleepers := Idle, {};
    }

    method Other(e: EndStep)
      requires EndEnabled(View(), e)
      modifies this
      ensures View() == EndApply(old(View()), e)
    {
      match e
      case Interrupt => IsrEnter();
      case ClearFlag => IsrClear();
      case WakeAll => IsrWake();
      case Sleep(thread) => sleepers := sleepers + {thread};
      case Unsleep(thread) => sleepers := sleepers - {thread};
    }
  }

  /**
    What happens around one turn of a retry loop: what others do before the test of the flag, while the thread waits and
    while it holds the lock; whether a signal ends the wait; and an error of the hypercall's own (0 for none).
   */
  datatype Turn = Turn(before: seq<Step>, waiting: seq<Step>, locked: seq<Step>, signal: bool, error: int)

  /** A turn in which nobody else does anything. */
  function Undisturbed(): Turn { Turn([], [], [], false, 0) }

  lemma Bounded(s: State)
    requires Inv(s)
    ensures |s.queue| <= s.cap
  {
  }

  /** Which lock the thread holds. */
  datatype Hold = Neither | TxLock | RxLock

  /** A step that only this call, or the holder of the lock, can make. */
  predicate OnlyOurs(a: Step, call: nat, hold: Hold) {
    || (a.SendHcall? && a.m.call == call) || (a.RecvHcall? && a.call == call)
    || (a == FinishSend && hold == TxLock) || (a == FinishRecv && hold == RxLock)
  }

  predicate Holds(s: State, hold: Hold) { (hold == TxLock ==> s.tx.lck.Held?) && (hold == RxLock ==> s.rx.lck.Held?) }

  /** Steps of others leave alone what this call has sent and received, and the lock it holds. */
  lemma OthersStep(s: State, a: Step, call: nat, hold: Hold)
    requires Enabled(s, a) && !OnlyOurs(a, call, hold) && Holds(s, hold)
    ensures SentBy(Apply(s, a).sent, call) == SentBy(s.sent, call)
    ensures ReceivedBy(Apply(s, a).received, call) == ReceivedBy(s.received, call)
    ensures Holds(Apply(s, a), hold)
  {
    if a.SendHcall? { SnocSent(s.sent, a.m, call); }
    if a.RecvHcall? && s.queue != [] { SnocReceived(s.received, Receipt(a.call, s.queue[0]), call); }
  }

  lemma SnocSent(sent: seq<Msg>, m: Msg, call: nat)
    ensures SentBy(sent + [m], call) == if m.call == call then SentBy(sent, call) + [m] else SentBy(sent, call)
  {
    assert (sent + [m])[..|sent|] == sent;
  }

  lemma SnocReceived(received: seq<Receipt>, r: Receipt, call: nat)
    ensures ReceivedBy(received + [r], call) ==
            if r.call == call then ReceivedBy(received, call) + [r.msg] else ReceivedBy(received, call)
  {
    assert (received + [r])[..|received|] == received;
  }

  function AtEnd(tx: bool, e: EndStep): Step { if tx then TxEnd(e) else RxEnd(e) }

  /** The queue with both ends of the driver attached. */
  class Queue {
    const cap: nat
    const txEntry: CapEntry
    const rxEntry: CapEntry
    var queue: seq<Msg>
    var sent: seq<Msg>
    var received: seq<Receipt>

    function View(): State
      reads this, txEntry, rxEntry
    {
      State(cap, queue, txEntry.View(), rxEntry.View(), sent, received)
    }

    ghost predicate Ok()
      reads this, txEntry, rxEntry
    {
      txEntry != rxEntry && Inv(View())
    }

    constructor (cap: nat)
      requires cap > 0
      ensures View() == Init(cap) && Ok() && fresh(txEntry) && fresh(rxEntry)
    {
      this.cap := cap;
      txEntry := new CapEntry(false);
      rxEntry := new CapEntry(true);
      queue, sent, received := [], [], [];
    }

    /** The send hypercall under the lock: queued, or refused because the queue is full. */
    method SendBegin(m: Msg) returns (ret: int)
      requires Ok() && txEntry.lck == Free
      modifies this, txEntry, rxEntry
      ensures Ok() && View() == Apply(old(View()), SendHcall(m))
      ensures ret == if |old(queue)| < cap then 0 else EAGAIN
    {
      ghost var s := View();
      StepKeeps(s, SendHcall(m));
      if |queue| < cap {
        if queue == [] { rxEntry.Raise(); }
        queue, sent := queue + [m], sent + [m];
        txEntry.LockAndCall(Set(!(|queue| < cap)));
        ret := 0;
      } else {
        txEntry.LockAndCall(Set(true));
        ret := EAGAIN;
      }
    }

    /** The receive hypercall under the lock: the oldest message, or none because the queue is empty. */
    method RecvBegin(call: nat) returns (ret: int, m: Msg)
      requires Ok() && rxEntry.lck == Free
      modifies this, txEntry, rxEntry
      ensures Ok() && View() == Apply(old(View()), RecvHcall(call))
      ensures ret == if old(queue) != [] then 0 else EAGAIN
      ensures ret == 0 ==> m == old(queue)[0]
    {
      ghost var s := View();
      StepKeeps(s, RecvHcall(call));
      m := Msg(0, 0);
      if queue != [] {
        if |queue| == cap { txEntry.Raise(); }
        m := queue[0];
        received, queue := received + [Receipt(call, m)], queue[1..];
        rxEntry.LockAndCall(Set(!(queue != [])));
        ret := 0;
      } else {
        rxEntry.LockAndCall(Set(true));
        ret := EAGAIN;
      }
    }

    /** One step of anybody's. */
    method Do(a: Step)
      requires Ok() && Enabled(View(), a)
      modifies this, txEntry, rxEntry
      ensures Ok() && View() == Apply(old(View()), a)
    {
      StepKeeps(View(), a);
      match a
      case SendHcall(m) => var _ := SendBegin(m);
      case SendError => txEntry.LockAndCall(Leave);
      case FinishSend => txEntry.StoreAndUnlock();
      case RecvHcall(c) => var _, _ := RecvBegin(c);
      case RecvError => rxEntry.LockAndCall(Leave);
      case FinishRecv => rxEntry.StoreAndUnlock();
      case TxEnd(e) => txEntry.Other(e);
      case RxEnd(e) => rxEntry.Other(e);
    }

    /** What the call has sent and received so far. */
    ghost predicate Ledger(call: nat, out: seq<Msg>, in_: seq<Msg>)
      reads this
    {
      SentBy(sent, call) == out && ReceivedBy(received, call) == in_
    }

    /** Steps of others, those that are possible when their turn comes. */
    method Others(steps: seq<Step>, call: nat, hold: Hold)
      requires Ok() && Holds(View(), hold)
      modifies this, txEntry, rxEntry
      ensures Ok() && Holds(View(), hold) && Ledger(call, SentBy(old(sent), call), ReceivedBy(old(received), call))
      ensures steps == [] ==> View() == old(View())
    {
      for i := 0 to |steps|
        invariant Ok() && Holds(View(), hold) && Ledger(call, SentBy(old(sent), call), ReceivedBy(old(received), call))
        invariant i == 0 ==> View() == old(View())
      {
        hide Inv, Apply, SentBy, ReceivedBy, Holds;
        if Enabled(View(), steps[i]) && !OnlyOurs(steps[i], call, hold) {
          OthersStep(View(), steps[i], call, hold);
          Do(steps[i]);
        }
      }
    }

    /** A step of this thread's that moves no message. */
    method Own(a: Step)
      requires Ok() && Enabled(View(), a) && !a.SendHcall? && !a.RecvHcall?
      modifies this, txEntry, rxEntry
      ensures Ok() && sent == old(sent) && received == old(received) && queue == old(queue)
      ensures View() == Apply(old(View()), a)
      ensures a == FinishSend ==> txEntry.lck == Free
      ensures a == FinishRecv ==> rxEntry.lck == Free
      ensures a == SendError ==> txEntry.lck.Held?
      ensures a == RecvError ==> rxEntry.lck.Held?
    {
      hide Inv;
      Do(a);
    }

    /** The flag of one end. */
    function Blocked(tx: bool): bool
      reads this, txEntry, rxEntry
    {
      if tx then txEntry.blocked else rxEntry.blocked
    }

    function Sleepers(tx: bool): set<nat>
      reads this, txEntry, rxEntry
    {
      if tx then txEntry.sleepers else rxEntry.sleepers
    }

    function LockOf(tx: bool): Lock
      reads this, txEntry, rxEntry
    {
      if tx then txEntry.lck else rxEntry.lck
    }

    /** The tests at the head of either loop: leave with a code, or go on to the hypercall, or sleep on. */
    method TestAndWait(tx: bool, call: nat, nonblock: bool, t: Turn) returns (leave: bool, code: int, ready: bool)
      requires Ok()
      modifies this, txEntry, rxEntry
      ensures Ok() && Ledger(call, SentBy(old(sent), call), ReceivedBy(old(received), call))
      ensures leave ==> code == if nonblock then EAGAIN else ERESTARTSYS
      ensures !leave && !ready ==> call in Sleepers(tx) || t.waiting != []
      ensures t == Undisturbed() ==>
                && queue == old(queue) && Blocked(tx) == old(Blocked(tx)) && LockOf(tx) == old(LockOf(tx))
                && (leave <==> old(Blocked(tx)) && nonblock) && (ready <==> !old(Blocked(tx)))
                && (!leave && !ready ==> call in Sleepers(tx))
    {
      hide Inv, SentBy, ReceivedBy;
      var entry := if tx then txEntry else rxEntry;
      Others(t.before, call, Neither);
      if entry.blocked && nonblock { return true, EAGAIN, false; }
      if !entry.blocked {
        Others(t.waiting, call, Neither);
        return false, 0, true;
      }
      Own(AtEnd(tx, Sleep(call)));
      Others(t.waiting, call, Neither);
      if t.signal {
        Own(AtEnd(tx, Unsleep(call)));
        return true, ERESTARTSYS, false;
      }
      leave, code, ready := false, 0, !entry.blocked;
      if ready { Own(AtEnd(tx, Unsleep(call))); }
    }

    /**
      __gh_msgq_send, with whatever others do while this thread holds the lock. -EAGAIN means that the queue was full;
      the message is queued, once, exactly when 0 is returned; undisturbed, tx_full then says whether the queue is full.
     */
    method LockedSend(m: Msg, t: Turn) returns (ret: int)
      requires Ok()
      modifies this, txEntry, rxEntry
      ensures Ok() && (t.error == 0 ==> ret == if |old(queue)| < cap then 0 else EAGAIN) && (t.error != 0 ==> ret == t.error)
      ensures Ledger(m.call, if ret == 0 then SentBy(old(sent), m.call) + [m] else SentBy(old(sent), m.call),
                     ReceivedBy(old(received), m.call))
      ensures t == Undisturbed() ==>
                && queue == (if ret == 0 then old(queue) + [m] else old(queue))
                && (Blocked(true) <==> |queue| == cap) && LockOf(true) == Free
      ensures t == Undisturbed().(error := t.error) && t.error != 0 && old(LockOf(true)) == Free ==>
                queue == old(queue) && Blocked(true) == old(Blocked(true))
    {
      hide Inv, SentBy, ReceivedBy;
      if txEntry.lck.Held? { Own(FinishSend); }
      SnocSent(sent, m, m.call);
      Bounded(View());
      if t.error != 0 {
        Own(SendError);
        ret := t.error;
      } else {
        ret := SendBegin(m);
      }
      Others(t.locked, m.call, TxLock);
      Own(FinishSend);
    }

    /**
      __gh_msgq_recv likewise: -EAGAIN means that the queue was empty, and 0 comes with the queue's oldest message;
      undisturbed, rx_empty then says whether the queue is empty.
     */
    method LockedRecv(call: nat, t: Turn) returns (ret: int, m: Msg)
      requires Ok()
      modifies this, txEntry, rxEntry
      ensures Ok() && (t.error == 0 ==> ret == if old(queue) != [] then 0 else EAGAIN) && (t.error != 0 ==> ret == t.error)
      ensures ret == 0 ==> old(queue) != [] && m == old(queue)[0]
      ensures Ledger(call, SentBy(old(sent), call),
                     if ret == 0 then ReceivedBy(old(received), call) + [m] else ReceivedBy(old(received), call))
      ensures t == Undisturbed() ==>
                && (ret == 0 ==> old(queue) == [m] + queue) && (ret != 0 ==> queue == old(queue))
                && (Blocked(false) <==> queue == []) && LockOf(false) == Free
      ensures t == Undisturbed().(error := t.error) && t.error != 0 && old(LockOf(false)) == Free ==>
                queue == old(queue) && Blocked(false) == old(Blocked(false))
    {
      hide Inv, SentBy, ReceivedBy;
      if rxEntry.lck.Held? { Own(FinishRecv); }
      ret, m := RecvSection(call, t);
    }

    method RecvSection(call: nat, t: Turn) returns (ret: int, m: Msg)
      requires Ok() && rxEntry.lck == Free
      modifies this, txEntry, rxEntry
      ensures Ok() && (t.error == 0 ==> ret == if old(queue) != [] then 0 else EAGAIN) && (t.error != 0 ==> ret == t.error)
      ensures ret == 0 ==> old(queue) != [] && m == old(queue)[0]
      ensures Ledger(call, SentBy(old(sent), call),
                     if ret == 0 then ReceivedBy(old(received), call) + [m] else ReceivedBy(old(received), call))
      ensures t.locked == [] && t.error == 0 ==>
                && (ret == 0 ==> old(queue) == [m] + queue) && (ret != 0 ==> queue == old(queue))
                && (Blocked(false) <==> queue == []) && LockOf(false) == Free
      ensures t.locked == [] && t.error != 0 ==> queue == old(queue) && Blocked(false) == old(Blocked(false))
    {
      hide Inv, SentBy, ReceivedBy;
      m := Msg(0, 0);
      if queue != [] { SnocReceived(received, Receipt(call, queue[0]), call); }
      if t.error != 0 {
        Own(RecvError);
        ret := t.error;
      } else {
        ret, m := RecvBegin(call);
      }
      Others(t.locked, call, RxLock);
      Own(FinishRecv);
    }

    /**
      gh_msgq_send from its retry loop on; `done` is false when the thread has not returned after all given turns. The
      call queues its message exactly once when it returns 0 and nothing otherwise, whatever the interleaving, and
      -EAGAIN is returned to non-blocking callers only. Undisturbed, on a full queue, a non-blocking caller gets -EAGAIN
      and any other sleeps; with room the message is queued.
     */
    method Send(m: Msg, nonblock: bool, turns: seq<Turn>) returns (ret: int, done: bool)
      requires Ok() && forall t <- turns :: t.error != EAGAIN
      modifies this, txEntry, rxEntry
      ensures Ok()
      ensures Ledger(m.call, if done && ret == 0 then SentBy(old(sent), m.call) + [m] else SentBy(old(sent), m.call),
                     ReceivedBy(old(received), m.call))
      ensures done && ret == EAGAIN ==> nonblock
      ensures |turns| >= 2 && (forall t <- turns :: t == Turn([], [], [], false, 0)) && |old(queue)| == cap ==>
                if nonblock then done && ret == EAGAIN else !done && m.call in txEntry.sleepers
      ensures |turns| >= 1 && (forall t <- turns :: t == Turn([], [], [], false, 0)) && |old(queue)| < cap ==>
                !old(txEntry.blocked) ==> done && ret == 0 && queue == old(queue) + [m]
    {
      hide Inv, SentBy, ReceivedBy;
      ret, done := EAGAIN, false;
      ghost var quiet := forall t <- turns :: t == Undisturbed();
      ghost var full := |queue| == cap;
      Bounded(View());
      for i := 0 to |turns|
        invariant Ok() && !done && Ledger(m.call, SentBy(old(sent), m.call), ReceivedBy(old(received), m.call))
        invariant quiet ==> queue == old(queue) && (i == 0 ==> txEntry.blocked == old(txEntry.blocked))
        invariant quiet && i > 0 && full ==> txEntry.blocked
        invariant quiet && full && nonblock ==> i < 2
        invariant quiet && full && i >= 2 ==> m.call in txEntry.sleepers
        invariant quiet && !full && i > 0 ==> old(txEntry.blocked)
      {
        assert turns[i] in turns;
        var leave, code, ready := TestAndWait(true, m.call, nonblock, turns[i]);
        if leave { return code, true; }
        if ready {
          ret := LockedSend(m, turns[i]);
          if ret != EAGAIN { return ret, true; }
        }
      }
    }

    /**
      gh_msgq_recv from its retry loop on: the message it returns with 0 is the one it took out of the queue, and it takes
      none otherwise. Undisturbed, on an empty queue, a non-blocking caller gets -EAGAIN and any other sleeps; otherwise
      the oldest message is returned.
     */
    method Recv(call: nat, nonblock: bool, turns: seq<Turn>) returns (ret: int, m: Msg, done: bool)
      requires Ok() && forall t <- turns :: t.error != EAGAIN
      modifies this, txEntry, rxEntry
      ensures Ok()
      ensures Ledger(call, SentBy(old(sent), call),
                     if done && ret == 0 then ReceivedBy(old(received), call) + [m] else ReceivedBy(old(received), call))
      ensures done && ret == EAGAIN ==> nonblock
      ensures |turns| >= 2 && (forall t <- turns :: t == Turn([], [], [], false, 0)) && old(queue) == [] ==>
                if nonblock then done && ret == EAGAIN else !done && call in rxEntry.sleepers
      ensures |turns| >= 1 && (forall t <- turns :: t == Turn([], [], [], false, 0)) && old(queue) != [] ==>
                !old(rxEntry.blocked) ==> done && ret == 0 && old(queue) == [m] + queue
    {
      hide Inv, SentBy, ReceivedBy;
      ret, m, done := EAGAIN, Msg(0, 0), false;
      ghost var quiet := forall t <- turns :: t == Undisturbed();
      ghost var empty := queue == [];
      for i := 0 to |turns|
        invariant Ok() && !done && Ledger(call, SentBy(old(sent), call), ReceivedBy(old(received), call))
        invariant quiet ==> queue == old(queue) && (i == 0 ==> rxEntry.blocked == old(rxEntry.blocked))
        invariant quiet && i > 0 && empty ==> rxEntry.blocked
        invariant quiet && empty && nonblock ==> i < 2
        invariant quiet && empty && i >= 2 ==> call in rxEntry.sleepers
        invariant quiet && !empty && i > 0 ==> old(rxEntry.blocked)
      {
        assert turns[i] in turns;
        var leave, code, ready := TestAndWait(false, call, nonblock, turns[i]);
        if leave { return code, m, true; }
        if ready {
          ret, m := LockedRecv(call, turns[i]);
          if ret != EAGAIN { return ret, m, true; }
        }
      }
    }
  }
}
