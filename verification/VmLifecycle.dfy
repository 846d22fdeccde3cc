/**
  gh_main.c: one VM from creation to destruction. Run ioctls, vCPU creation, configuration, file releases and RM
  notifications interleave; the steps are cut where vm_lock does not keep others out, that is at every change of the
  status by a notification and at every release of a file.
 */
module VmLifecycle {
  import opened Common
  import opened Errno

  const MAX_VCPUS: nat := 8
  type Id = i: nat | i < MAX_VCPUS
  type Slots = s: seq<bool> | |s| == MAX_VCPUS witness seq(MAX_VCPUS, _ => false)

  datatype Status = NoState | Load | Auth | Init | Ready | Running | Exited | Reset

  /** Who holds vm_lock, and how far it has got. */
  datatype Holder =
    | Free
    | Deciding(id: Id)                       // run ioctl, vm_run_once just set
    | Starting(id: Id, tested: Status)       // run ioctl, all tests passed on this status, gh_rm_vm_start not yet called
    | Installed(id: Id)                      // vCPU creation, descriptor visible, reference not yet taken
    | Counted(id: Id)                        // vCPU creation, reference taken, slot not yet set
    | Configuring

  /** A call of gh_rm_vm_start: what was tested, and what held when it was made. */
  datatype Start = Start(tested: Status, status: Status, secure: bool, created: nat, allowed: nat)

  /** `destroyed` counts the calls of gh_destroy_vm; from the first on the rest is freed memory. */
  datatype Vm = Vm(status: Status, runOnce: bool, secure: bool, created: nat, allowed: nat, slots: Slots, users: int,
                   holder: Holder, vmFile: bool, files: set<Id>, destroyed: nat, starts: seq<Start>)

  function Create(): Vm {
    Vm(NoState, false, false, 0, 0, seq(MAX_VCPUS, _ => false), 1, Free, true, {}, 0, [])
  }

  datatype Step =
    | RunTest(id: Id) | RunCheck | RunStart(ret: int)
    | Install(id: Id) | GetVm | Publish
    | CloseVcpu(id: Id) | CloseVm
    | NotifyStatus(status: Status) | NotifyExited
    | ConfigBegin | ConfigStatus(status: Status) | ConfigAllowed(secure: bool, allowed: nat) | ConfigEnd

  /**
    Destroying the VM stops RM's notifications, since it unregisters the notifier. It does not stop anything that comes
    through a file that is still open, or an ioctl that is in progress.
   */
  predicate Enabled(s: Vm, a: Step) {
    match a
    case RunTest(id) => s.holder == Free && id in s.files
    case RunCheck => s.holder.Deciding?
    case RunStart(_) => s.holder.Starting?
    case Install(id) => s.holder == Free && s.vmFile && !s.slots[id]
    case GetVm => s.holder.Installed?
    case Publish => s.holder.Counted?
    case CloseVcpu(id) => id in s.files && !Runs(s.holder, id)
    case CloseVm => s.vmFile && !UsesVmFile(s.holder)
    case NotifyStatus(_) => s.destroyed == 0
    case NotifyExited => s.destroyed == 0 && s.holder == Free
    case ConfigBegin => s.holder == Free && s.vmFile
    case ConfigStatus(status) => s.holder == Configuring && (status == Load || status == Auth || status == Init)
    case ConfigAllowed(_, _) => s.holder == Configuring
    case ConfigEnd => s.holder == Configuring
  }

  /** An ioctl in progress on a file keeps the file from being released. */
  predicate Runs(h: Holder, id: Id) { (h.Deciding? || h.Starting?) && h.id == id }
  predicate UsesVmFile(h: Holder) { h.Installed? || h.Counted? || h.Configuring? }

  /** gh_put_vm. */
  function Put(s: Vm): Vm {
    s.(users := s.users - 1, destroyed := if s.users == 1 then s.destroyed + 1 else s.destroyed)
  }

  function Apply(s: Vm, a: Step): Vm
    requires Enabled(s, a)
  {
    match a
    case RunTest(id) =>
      if s.status == Running || s.runOnce then s else s.(runOnce := true, holder := Deciding(id))
    case RunCheck =>
      if (s.secure && s.created != s.allowed) || s.status != Ready then s.(holder := Free)
      else s.(holder := Starting(s.holder.id, s.status))
    case RunStart(ret) =>
      s.(holder := Free, status := if ret == 0 then Running else s.status,
         starts := s.starts + [Start(s.holder.tested, s.status, s.secure, s.created, s.allowed)])
    case Install(id) => s.(holder := Installed(id), files := s.files + {id})
    case GetVm => s.(holder := Counted(s.holder.id), users := s.users + 1)
    case Publish => s.(holder := Free, slots := s.slots[s.holder.id := true], created := s.created + 1)
    case CloseVcpu(id) => Put(s.(files := s.files - {id}))
    case CloseVm => Put(s.(vmFile := false))
    case NotifyStatus(status) =>
      if status != s.status && (status == Reset || status == Ready) then s.(status := status) else s
    case NotifyExited => s.(status := Exited)
    case ConfigBegin => s.(holder := Configuring)
    case ConfigStatus(status) => s.(status := status)
    case ConfigAllowed(secure, allowed) => s.(secure := s.secure || secure, allowed := allowed)
    case ConfigEnd => s.(holder := Free)
  }

  function Occupied(slots: seq<bool>): nat {
    if slots == [] then 0 else (if slots[0] then 1 else 0) + Occupied(slots[1..])
  }

  function OpenFiles(s: Vm): nat { |s.files| + if s.vmFile then 1 else 0 }

  /** The descriptor of a vCPU under creation is visible before its reference is counted. */
  function Uncounted(s: Vm): nat { if s.holder.Installed? then 1 else 0 }

  predicate StartOk(c: Start) {
    c.tested == Ready && (c.secure ==> c.created == c.allowed)
  }

  predicate StartsOk(s: Vm) {
    && |s.starts| <= 1 && (forall c <- s.starts :: StartOk(c))
    && (!s.runOnce || s.holder.Deciding? || s.holder.Starting? ==> s.starts == [])
    && (s.holder.Deciding? || s.holder.Starting? ==> s.runOnce)
    && (s.holder.Starting? ==> s.holder.tested == Ready && (s.secure ==> s.created == s.allowed))
  }

  predicate SlotsOk(s: Vm) {
    && s.created == Occupied(s.slots) && (Creates(s.holder) ==> !s.slots[s.holder.id])
    && forall id <- s.files :: s.slots[id] || (Creates(s.holder) && s.holder.id == id)
  }

  predicate Creates(h: Holder) { h.Installed? || h.Counted? }

  predicate FilesOk(s: Vm) {
    && s.users + Uncounted(s) == OpenFiles(s) && (s.destroyed == 0 ==> s.users > 0)
    && (UsesVmFile(s.holder) ==> s.vmFile) && (s.holder.Deciding? || s.holder.Starting? ==> s.holder.id in s.files)
  }

  predicate Inv(s: Vm) { StartsOk(s) && SlotsOk(s) && FilesOk(s) }

  lemma {:induction false} OccupiedSet(slots: seq<bool>, i: nat)
    requires i < |slots| && !slots[i]
    ensures Occupied(slots[i := true]) == Occupied(slots) + 1
  {
    var new_ := slots[i := true];
    if i == 0 {
      assert new_[1..] == slots[1..];
    } else {
      assert new_[1..] == slots[1..][i - 1 := true];
      OccupiedSet(slots[1..], i - 1);
    }
  }

  lemma {:induction false} OccupiedNone(slots: seq<bool>)
    requires forall i :: 0 <= i < |slots| ==> !slots[i]
    ensures Occupied(slots) == 0
  {
    if slots != [] { OccupiedNone(slots[1..]); }
  }

  lemma StepKeeps(s: Vm, a: Step)
    requires Inv(s) && Enabled(s, a)
    ensures Inv(Apply(s, a))
  {
    hide StartsOk, SlotsOk, FilesOk;
    StartsKeep(s, a);
    SlotsKeep(s, a);
    if a.Install? { FreshFile(s, a); }
    FilesKeep(s, a);
  }

  lemma StartsKeep(s: Vm, a: Step)
    requires StartsOk(s) && Enabled(s, a)
    ensures StartsOk(Apply(s, a))
  {
  }

  lemma SlotsKeep(s: Vm, a: Step)
    requires SlotsOk(s) && Enabled(s, a)
    ensures SlotsOk(Apply(s, a))
  {
    hide Occupied;
    if a == Publish { OccupiedSet(s.slots, s.holder.id); }
  }

  lemma FreshFile(s: Vm, a: Step)
    requires SlotsOk(s) && Enabled(s, a) && a.Install?
    ensures a.id !in s.files
  {
  }

  lemma FilesKeep(s: Vm, a: Step)
    requires FilesOk(s) && Enabled(s, a) && (a.Install? ==> a.id !in s.files)
    ensures FilesOk(Apply(s, a))
  {
  }

  // Runs.

  predicate Follows(states: seq<Vm>, steps: seq<Step>, i: nat)
    requires |states| == |steps| + 1 && i < |steps|
  {
    Enabled(states[i], steps[i]) && states[i + 1] == Apply(states[i], steps[i])
  }

  predicate IsRun(states: seq<Vm>, steps: seq<Step>) {
    && |states| == |steps| + 1 && states[0] == Create()
    && forall i: nat :: i < |steps| ==> Follows(states, steps, i)
  }

  lemma {:induction false} RunKeeps(states: seq<Vm>, steps: seq<Step>, n: nat)
    requires IsRun(states, steps) && n < |states|
    ensures Inv(states[n])
  {
    if n == 0 {
      OccupiedNone(Create().slots);
    } else {
      RunKeeps(states, steps, n - 1);
      assert Follows(states, steps, n - 1);
      hide Inv, Apply;
      StepKeeps(states[n - 1], steps[n - 1]);
    }
  }

  /**
    gh_rm_vm_start is called at most once. The tests before it saw READY and, for a secure VM, all allowed vCPUs
    created; the count still holds at the call.
   */
  lemma StartedAtMostOnce(states: seq<Vm>, steps: seq<Step>, n: nat)
    requires IsRun(states, steps) && n < |states|
    ensures |states[n].starts| <= 1
    ensures forall c <- states[n].starts :: c.tested == Ready && (c.secure ==> c.created == c.allowed)
  {
    RunKeeps(states, steps, n);
  }

  /** RM says that the VM has exited, is reset or is ready, or the VM is configured. */
  predicate EndsRunning(a: Step) {
    a == NotifyExited || a == NotifyStatus(Reset) || a == NotifyStatus(Ready) || a.ConfigStatus?
  }

  predicate StartedAt(steps: seq<Step>, m: nat, n: nat) {
    m < n <= |steps| && steps[m] == RunStart(0) && forall i :: m < i < n ==> !EndsRunning(steps[i])
  }

  /** The status is RUNNING exactly from a start that RM agreed to until RM or a configuration says otherwise. */
  lemma {:induction false} RunningExactly(states: seq<Vm>, steps: seq<Step>, n: nat)
    requires IsRun(states, steps) && n < |states|
    ensures states[n].status == Running <==> exists m: nat :: StartedAt(steps, m, n)
  {
    if n > 0 {
      RunningExactly(states, steps, n - 1);
      assert Follows(states, steps, n - 1);
      var a := steps[n - 1];
      if a == RunStart(0) {
        assert StartedAt(steps, n - 1, n);
      } else if states[n - 1].status == Running && !EndsRunning(a) {
        var m: nat :| StartedAt(steps, m, n - 1);
        assert StartedAt(steps, m, n);
      } else {
        forall m: nat ensures !StartedAt(steps, m, n) {
          if m < n - 1 && !EndsRunning(a) { assert !StartedAt(steps, m, n - 1); }
        }
      }
    }
  }

  /** The last of RM's status reports that counts (RESET or READY) among steps m to n - 1, if there is one. */
  function LastReport(steps: seq<Step>, m: nat, n: nat): Option<Status>
    requires m <= n <= |steps|
    decreases n
  {
    if m == n then None
    else if steps[n - 1] == NotifyStatus(Reset) then Some(Reset)
    else if steps[n - 1] == NotifyStatus(Ready) then Some(Ready)
    else LastReport(steps, m, n - 1)
  }

  /** The run ioctl that holds the lock at n made its tests at step m. */
  predicate TestedAt(states: seq<Vm>, steps: seq<Step>, m: nat, n: nat)
    requires |states| == |steps| + 1
  {
    && m < n <= |steps| && steps[m] == RunCheck && states[m].status == Ready
    && forall i :: m < i < n ==> steps[i] != RunCheck && !steps[i].RunStart?
  }

  lemma {:induction false} WhileStarting(states: seq<Vm>, steps: seq<Step>, n: nat) returns (m: nat)
    requires IsRun(states, steps) && n < |states| && states[n].holder.Starting?
    ensures TestedAt(states, steps, m, n)
    ensures var r := LastReport(steps, m + 1, n); states[n].status == if r.Some? then r.value else Ready
  {
    if n == 0 {
      assert false;
    } else {
      assert Follows(states, steps, n - 1);
      if steps[n - 1] == RunCheck {
        m := n - 1;
      } else {
        m := WhileStarting(states, steps, n - 1);
      }
    }
  }

  /**
    A start is made in READY if and only if the last of RM's reports since the tests of that same ioctl, if there is one,
    is not RESET: the reports are taken without the lock.
   */
  lemma StartsInReadyExactly(states: seq<Vm>, steps: seq<Step>, n: nat)
    requires IsRun(states, steps) && n < |steps| && steps[n].RunStart?
    ensures exists m: nat :: TestedAt(states, steps, m, n)
                          && (states[n].status == Ready <==> LastReport(steps, m + 1, n) != Some(Reset))
                          && (states[n].status == Ready || states[n].status == Reset)
  {
    assert Follows(states, steps, n);
    var m := WhileStarting(states, steps, n);
    ReportIs(steps, m + 1, n);
  }

  lemma {:induction false} ReportIs(steps: seq<Step>, m: nat, n: nat)
    requires m <= n <= |steps|
    ensures var r := LastReport(steps, m, n); r == None || r == Some(Reset) || r == Some(Ready)
    decreases n
  {
    if m < n { ReportIs(steps, m, n - 1); }
  }

  /** It happens: the VM is started although RM has just reported RESET. */
  lemma StartInResetExample()
    ensures exists states: seq<Vm>, steps: seq<Step> ::
              IsRun(states, steps) && exists c <- states[|steps|].starts :: c.status == Reset
  {
    hide IsRun;
    StartRun();
    var s0, t0 := [Create()], [];
    var s1, t1 := Extend(s0, t0, Install(0));
    var s2, t2 := Extend(s1, t1, GetVm);
    var s3, t3 := Extend(s2, t2, Publish);
    var s4, t4 := Extend(s3, t3, NotifyStatus(Ready));
    var s5, t5 := Extend(s4, t4, RunTest(0));
    var s6, t6 := Extend(s5, t5, RunCheck);
    var s7, t7 := Extend(s6, t6, NotifyStatus(Reset));
    var s8, t8 := Extend(s7, t7, RunStart(0));
    assert s8[|t8|].starts[0].status == Reset;
  }

  lemma StartRun()
    ensures IsRun([Create()], [])
  {
  }

  /** One more step. */
  lemma Extend(states: seq<Vm>, steps: seq<Step>, a: Step) returns (states': seq<Vm>, steps': seq<Step>)
    requires IsRun(states, steps) && |states| == |steps| + 1 && Enabled(states[|steps|], a)
    ensures IsRun(states', steps') && |states'| == |steps'| + 1 && states'[|steps'|] == Apply(states[|steps|], a)
    ensures |steps'| == |steps| + 1 && states' == states + [Apply(states[|steps|], a)]
  {
    states', steps' := states + [Apply(states[|steps|], a)], steps + [a];
    forall i: nat | i < |steps'| ensures Follows(states', steps', i) {
      if i < |steps| { assert Follows(states, steps, i); }
    }
  }

  /** created_vcpus is the number of occupied slots, and users_count the number of counted open files. */
  lemma CountsAreRight(states: seq<Vm>, steps: seq<Step>, n: nat)
    requires IsRun(states, steps) && n < |states|
    ensures states[n].created == Occupied(states[n].slots)
    ensures states[n].users == OpenFiles(states[n]) - (if states[n].holder.Installed? then 1 else 0)
  {
    RunKeeps(states, steps, n);
  }

  /** A vCPU file is released inside the window of a creation and only the VM's own file is left. */
  predicate LeavesOnlyVm(s: Vm, a: Step) { a.CloseVcpu? && s.holder.Installed? && s.files == {a.id} }

  predicate LeavesOnlyVmAt(states: seq<Vm>, steps: seq<Step>, i: nat)
    requires |states| == |steps| + 1 && i < |steps|
  {
    LeavesOnlyVm(states[i], steps[i])
  }

  /** A step destroys the VM if and only if it releases the last file, or is such a release. */
  lemma DestroyedBy(s: Vm, a: Step)
    requires Inv(s) && Enabled(s, a)
    ensures Apply(s, a).destroyed == s.destroyed + if OpenFiles(Apply(s, a)) == 0 || LeavesOnlyVm(s, a) then 1 else 0
  {
    hide StartsOk, SlotsOk;
    var s' := Apply(s, a);
    if a.CloseVcpu? {
      assert |s'.files| == |s.files| - 1;
      if s.holder.Installed? && |s.files| == 1 { Singleton(s.files, a.id); }
    }
    EnabledOpen(s, a);
  }

  lemma Singleton(files: set<Id>, id: Id)
    requires id in files && |files| == 1
    ensures files == {id}
  {
    assert |files - {id}| == 0;
    assert files == (files - {id}) + {id};
  }

  /** Whoever can take a step holds a file open; RM's reports come only while somebody does. */
  lemma EnabledOpen(s: Vm, a: Step)
    requires Inv(s) && Enabled(s, a)
    ensures OpenFiles(s) > 0
  {
    hide StartsOk, SlotsOk;
    if s.files != {} { var id :| id in s.files; assert |s.files| > 0; }
  }

  ghost predicate CanStep(s: Vm) { exists a :: Enabled(s, a) }

  lemma OpenCanStep(s: Vm)
    requires Inv(s) && OpenFiles(s) > 0
    ensures CanStep(s)
  {
    hide StartsOk, SlotsOk;
    match s.holder
    case Free =>
      if s.vmFile {
        assert Enabled(s, CloseVm);
      } else {
        var id :| id in s.files;
        assert Enabled(s, CloseVcpu(id));
      }
    case Deciding(_) => assert Enabled(s, RunCheck);
    case Starting(_, _) => assert Enabled(s, RunStart(0));
    case Installed(_) => assert Enabled(s, GetVm);
    case Counted(_) => assert Enabled(s, Publish);
    case Configuring => assert Enabled(s, ConfigEnd);
  }

  ghost predicate NoEarlyRelease(states: seq<Vm>, steps: seq<Step>)
    requires |states| == |steps| + 1
  {
    forall i: nat :: i < |steps| ==> !LeavesOnlyVmAt(states, steps, i)
  }

  lemma {:induction false} DestroyedOnce(states: seq<Vm>, steps: seq<Step>, n: nat)
    requires IsRun(states, steps) && n < |states| && forall i: nat :: i < n ==> !LeavesOnlyVmAt(states, steps, i)
    ensures states[n].destroyed == if OpenFiles(states[n]) == 0 then 1 else 0
  {
    if n > 0 {
      DestroyedOnce(states, steps, n - 1);
      RunKeeps(states, steps, n - 1);
      assert Follows(states, steps, n - 1) && !LeavesOnlyVmAt(states, steps, n - 1);
      hide Inv, Apply, OpenFiles;
      EnabledOpen(states[n - 1], steps[n - 1]);
      DestroyedBy(states[n - 1], steps[n - 1]);
    }
  }

  lemma EarlyRelease(states: seq<Vm>, steps: seq<Step>, i: nat)
    requires IsRun(states, steps) && i < |steps| && LeavesOnlyVmAt(states, steps, i)
    ensures states[i + 1].destroyed > 0 && OpenFiles(states[i + 1]) > 0 && Inv(states[i + 1])
  {
    RunKeeps(states, steps, i);
    RunKeeps(states, steps, i + 1);
    assert Follows(states, steps, i);
    DestroyedBy(states[i], steps[i]);
  }

  ghost predicate GoneExactlyWhenUnused(states: seq<Vm>) {
    forall n: nat :: n < |states| ==> (states[n].destroyed == 0 <==> OpenFiles(states[n]) > 0)
  }

  /**
    At every moment of a run the VM exists if and only if some file of it is open; that holds for exactly the runs
    without such a release, and in them the VM is destroyed at most once.
   */
  lemma DestroyedWithLastFile(states: seq<Vm>, steps: seq<Step>)
    requires IsRun(states, steps)
    ensures GoneExactlyWhenUnused(states) <==> NoEarlyRelease(states, steps)
    ensures NoEarlyRelease(states, steps) ==> forall n: nat :: n < |states| ==> states[n].destroyed <= 1
  {
    assert |states| == |steps| + 1;
    hide IsRun, OpenFiles;
    if NoEarlyRelease(states, steps) {
      forall n: nat | n < |states|
        ensures (states[n].destroyed == 0 <==> OpenFiles(states[n]) > 0) && states[n].destroyed <= 1
      {
        DestroyedOnce(states, steps, n);
      }
    } else {
      var i: nat :| i < |steps| && LeavesOnlyVmAt(states, steps, i);
      EarlyRelease(states, steps, i);
    }
  }

  /** Somebody can still act on the VM after gh_destroy_vm has freed it. */
  ghost predicate UsedAfterFree(states: seq<Vm>) {
    exists n: nat :: n < |states| && states[n].destroyed > 0 && CanStep(states[n])
  }

  /** That, too, happens in exactly the runs with such a release. */
  lemma UsedAfterFreeExactly(states: seq<Vm>, steps: seq<Step>)
    requires IsRun(states, steps)
    ensures UsedAfterFree(states) <==> !NoEarlyRelease(states, steps)
  {
    assert |states| == |steps| + 1;
    hide IsRun, OpenFiles, Inv, Enabled;
    if NoEarlyRelease(states, steps) {
      forall n: nat | n < |states| && states[n].destroyed > 0 ensures !CanStep(states[n]) {
        DestroyedOnce(states, steps, n);
        RunKeeps(states, steps, n);
        forall a ensures !Enabled(states[n], a) { if Enabled(states[n], a) { EnabledOpen(states[n], a); } }
      }
    } else {
      var i: nat :| i < |steps| && LeavesOnlyVmAt(states, steps, i);
      EarlyRelease(states, steps, i);
      OpenCanStep(states[i + 1]);
    }
  }

  /**
    Such a release is possible: the first vCPU's descriptor is closed by another thread before its reference is taken,
    and the creating thread goes on to count and publish a vCPU of a VM that is gone.
   */
  lemma EarlyDestructionExample()
    ensures exists states: seq<Vm>, steps: seq<Step> ::
              IsRun(states, steps) && UsedAfterFree(states) && states[|steps|].destroyed > 0 && states[|steps|].created == 1
  {
    hide IsRun;
    StartRun();
    var s0, t0 := [Create()], [];
    var s1, t1 := Extend(s0, t0, Install(0));
    var s2, t2 := Extend(s1, t1, CloseVcpu(0));
    var s3, t3 := Extend(s2, t2, GetVm);
    var s4, t4 := Extend(s3, t3, Publish);
    assert s4[2].destroyed > 0 && Enabled(s4[2], GetVm);
    assert s4[|t4|].created == 1;
  }

  // gh_destroy_vm's loop over the slots.

  datatype Loop = Loop(slots: Slots, created: nat, id: nat)

  predicate Goes(l: Loop) { l.created != 0 && l.id < MAX_VCPUS }

  /** One turn; an empty slot is skipped without moving on. */
  function Turn(l: Loop): Loop
  {
    if !Goes(l) || !l.slots[l.id] then l
    else Loop(l.slots[l.id := false], l.created - 1, l.id + 1)
  }

  function Turns(l: Loop, n: nat): Loop
    decreases n
  {
    if n == 0 then l else Turns(Turn(l), n - 1)
  }

  predicate Prefix(slots: seq<bool>) { forall i, j :: 0 <= i < j < |slots| && slots[j] ==> slots[i] }

  ghost predicate Halts(l: Loop)
  {
    exists n: nat :: !Goes(Turns(l, n))
  }

  lemma {:induction false} Spins(l: Loop, n: nat)
    requires Goes(l) && !l.slots[l.id]
    ensures Turns(l, n) == l
  {
    if n > 0 { Spins(l, n - 1); }
  }

  lemma {:induction false} OccupiedClear(slots: seq<bool>, i: nat)
    requires i < |slots| && slots[i]
    ensures Occupied(slots[i := false]) == Occupied(slots) - 1
  {
    var new_ := slots[i := false];
    assert new_[i := true] == slots;
    OccupiedSet(new_, i);
  }

  /** Slots below id are free already; the rest is a run of occupied ones and then free ones. */
  predicate PrefixFrom(l: Loop) {
    && l.id <= MAX_VCPUS && l.created == Occupied(l.slots)
    && (forall j :: 0 <= j < l.id ==> !l.slots[j])
    && (forall i, j :: l.id <= i < j < MAX_VCPUS && l.slots[j] ==> l.slots[i])
  }

  lemma TurnKeeps(l: Loop)
    requires PrefixFrom(l) && Goes(l)
    ensures PrefixFrom(Turn(l)) && Turn(l).created == l.created - 1
  {
    if !l.slots[l.id] {
      OccupiedNone(l.slots);
      assert false;
    }
    OccupiedClear(l.slots, l.id);
  }

  lemma {:induction false} PrefixHalts(l: Loop)
    requires PrefixFrom(l)
    ensures Turns(l, l.created).created == 0 && Occupied(Turns(l, l.created).slots) == 0
    decreases l.created
  {
    if l.created > 0 {
      if l.id == MAX_VCPUS { OccupiedNone(l.slots); }
      TurnKeeps(l);
      PrefixHalts(Turn(l));
    }
  }

  /** From a state without gaps below `gap`, the loop reaches the gap and spins there. */
  lemma {:induction false} GapNeverHalts(l: Loop, gap: nat, n: nat)
    requires l.id <= gap < MAX_VCPUS && l.created == Occupied(l.slots)
    requires !l.slots[gap] && (forall i :: l.id <= i < gap ==> l.slots[i])
    requires exists j :: gap < j < MAX_VCPUS && l.slots[j]
    ensures Goes(Turns(l, n))
    decreases n
  {
    var j :| gap < j < MAX_VCPUS && l.slots[j];
    OccupiedSome(l.slots, j);
    if l.id == gap {
      Spins(l, n);
    } else if n > 0 {
      OccupiedClear(l.slots, l.id);
      var l' := Turn(l);
      assert l'.slots[j];
      GapNeverHalts(l', gap, n - 1);
    }
  }

  lemma {:induction false} OccupiedSome(slots: seq<bool>, j: nat)
    requires j < |slots| && slots[j]
    ensures Occupied(slots) > 0
  {
    if j > 0 { OccupiedSome(slots[1..], j - 1); }
  }

  /** The loop ends, with every slot free, if and only if the occupied slots have no gap before them. */
  lemma DestroyLoopHalts(slots: Slots)
    ensures var l := Loop(slots, Occupied(slots), 0);
            && (Halts(l) <==> Prefix(slots))
            && (Prefix(slots) ==> Occupied(Turns(l, l.created).slots) == 0)
  {
    var l := Loop(slots, Occupied(slots), 0);
    if Prefix(slots) {
      PrefixHalts(l);
      assert !Goes(Turns(l, l.created));
    } else {
      var i, j :| 0 <= i < j < |slots| && slots[j] && !slots[i];
      var gap := FirstFree(slots, i);
      forall n: nat ensures Goes(Turns(l, n)) { GapNeverHalts(l, gap, n); }
    }
  }

  function FirstFree(slots: seq<bool>, i: nat): (gap: nat)
    requires i < |slots| && !slots[i]
    ensures gap <= i && !slots[gap] && forall j :: 0 <= j < gap ==> slots[j]
  {
    if !slots[0] then 0 else 1 + FirstFree(slots[1..], i - 1)
  }

  /** How a run ioctl goes on: with the vCPU, or back to the caller. */
  datatype RunResult = Proceeds | Fails(code: int)

  /** What others cannot change while somebody holds vm_lock. */
  predicate SameUnderLock(s: Vm, s': Vm) {
    s' == s.(status := s'.status, users := s'.users, vmFile := s'.vmFile, files := s'.files, destroyed := s'.destroyed)
  }

  lemma OthersKeep(s: Vm, a: Step)
    requires Inv(s) && Enabled(s, a) && s.holder != Free && (a.NotifyStatus? || a.CloseVcpu? || a.CloseVm?)
    ensures Inv(Apply(s, a)) && SameUnderLock(s, Apply(s, a))
    ensures !a.CloseVcpu? && UsesVmFile(s.holder) ==> Apply(s, a) == s.(status := Apply(s, a).status)
  {
    StepKeeps(s, a);
  }

  /** struct gh_vm. */
  class Machine {
    var status: Status
    var runOnce: bool
    var secure: bool
    var created: nat
    var allowed: nat
    const vcpus: array<bool>
    var users: int
    var vmFile: bool
    var files: set<Id>
    var destroyed: nat
    var holder: Holder
    ghost var starts: seq<Start>

    ghost predicate Valid() { vcpus.Length == MAX_VCPUS }

    ghost function View(): Vm
      reads this, vcpus
      requires Valid()
    {
      Vm(status, runOnce, secure, created, allowed, vcpus[..], users, holder, vmFile, files, destroyed, starts)
    }

    constructor ()
      ensures Valid() && View() == Create() && fresh(vcpus)
    {
      status, runOnce, secure, created, allowed := NoState, false, false, 0, 0;
      vcpus := new bool[MAX_VCPUS](_ => false);
      users, vmFile, files, destroyed, holder, starts := 1, true, {}, 0, Free, [];
    }

    method PutVm()
      requires Valid()
      modifies this`users, this`destroyed
      ensures View() == Put(old(View()))
    {
      users := users - 1;
      if users == 0 { destroyed := destroyed + 1; }
    }

    /** One thing another thread can do while vm_lock is held: a report of RM's or the release of a file. */
    method Other(a: Step)
      requires Valid() && (a.NotifyStatus? || a.CloseVcpu? || a.CloseVm?)
      modifies this
      ensures View() == if Enabled(old(View()), a) then Apply(old(View()), a) else old(View())
    {
      match a
      case NotifyStatus(st) =>
        if destroyed == 0 && st != status && (st == Reset || st == Ready) { status := st; }
      case CloseVcpu(id) =>
        if id in files && !Runs(holder, id) {
          files := files - {id};
          PutVm();
        }
      case CloseVm =>
        if vmFile && !UsesVmFile(holder) {
          vmFile := false;
          PutVm();
        }
    }

    method Others(others: seq<Step>)
      requires Valid() && Inv(View()) && holder != Free
      modifies this
      ensures Inv(View()) && SameUnderLock(old(View()), View())
      ensures UsesVmFile(holder) && (forall a <- others :: !a.CloseVcpu?) ==> View() == old(View()).(status := status)
      ensures others == [] ==> View() == old(View())
    {
      for i := 0 to |others|
        invariant Inv(View()) && SameUnderLock(old(View()), View())
        invariant UsesVmFile(holder) && (forall a <- others :: !a.CloseVcpu?) ==> View() == old(View()).(status := status)
        invariant i == 0 ==> View() == old(View())
      {
        hide Inv, Apply;
        var a := others[i];
        if a.NotifyStatus? || a.CloseVcpu? || a.CloseVm? {
          if Enabled(View(), a) { OthersKeep(View(), a); }
          Other(a);
        }
      }
    }

    /** The tests of a run ioctl that has set vm_run_once. */
    method CheckReady(id: Id, others: seq<Step>) returns (ok: bool)
      requires Valid() && Inv(View()) && holder == Deciding(id)
      modifies this
      ensures Inv(View()) && holder == (if ok then Starting(id, Ready) else Free)
      ensures starts == old(starts) && runOnce == old(runOnce) && secure == old(secure)
      ensures created == old(created) && allowed == old(allowed) && (ok ==> secure ==> created == allowed)
      ensures others == [] ==> (ok <==> old(status) == Ready && (secure ==> created == allowed))
    {
      hide Inv;
      Others(others);
      StepKeeps(View(), RunCheck);
      if secure && created != allowed { holder := Free; return false; }
      if status != Ready { holder := Free; return false; }
      holder := Starting(id, status);
      ok := true;
    }

    /** gh_vm_start and the unlock. */
    method VmStart(others: seq<Step>, rm: int)
      requires Valid() && Inv(View()) && holder.Starting?
      modifies this
      ensures Inv(View()) && holder == Free && old(starts) <= starts && |starts| == |old(starts)| + 1
      ensures runOnce == old(runOnce) && secure == old(secure) && created == old(created) && allowed == old(allowed)
      ensures rm == 0 ==> status == Running
    {
      hide Inv;
      Others(others);
      StepKeeps(View(), RunStart(rm));
      starts := starts + [Start(holder.tested, status, secure, created, allowed)];
      holder := Free;
      if rm == 0 { status := Running; }
    }

    /**
      gh_vcpu_ioctl_run up to the vCPU's own loop, whatever others do between its tests. It goes on exactly when the VM
      was running, or when this call has started it; a call after an earlier attempt never starts anything; and this call
      makes at most one start, whose refusal by RM is what it returns.
     */
    method RunIoctl(id: Id, o1: seq<Step>, o2: seq<Step>, rm: int) returns (r: RunResult, made: bool)
      requires Valid() && Inv(View()) && holder == Free && id in files
      modifies this
      ensures Inv(View()) && holder == Free
      ensures r == Proceeds <==> old(status) == Running || (made && rm == 0)
      ensures r != Proceeds ==> r == Fails(if made then rm else EINVAL)
      ensures |starts| == |old(starts)| + (if made then 1 else 0) && old(starts) <= starts
      ensures made ==> old(status) != Running && !old(runOnce) && runOnce && (secure ==> created == allowed)
      ensures made && rm == 0 ==> status == Running
      ensures !made && (old(status) == Running || old(runOnce)) ==> View() == old(View())
      ensures o1 == [] ==> (made <==> !old(runOnce) && old(status) == Ready && (secure ==> created == allowed))
    {
      made := false;
      if status == Running { return Proceeds, false; }
      if runOnce { return Fails(EINVAL), false; }
      hide Inv, Apply;
      BeginRun(id);
      var ok := CheckReady(id, o1);
      if !ok { return Fails(EINVAL), false; }
      VmStart(o2, rm);
      made := true;
      r := if rm == 0 then Proceeds else Fails(rm);
    }

    method BeginRun(id: Id)
      requires Valid() && Inv(View()) && Enabled(View(), RunTest(id)) && status != Running && !runOnce
      modifies this`runOnce, this`holder
      ensures Inv(View()) && runOnce && holder == Deciding(id)
    {
      StepKeeps(View(), RunTest(id));
      hide Inv;
      runOnce, holder := true, Deciding(id);
    }

    /** fd_install and gh_get_vm. */
    method InstallAndCount(id: Id, others: seq<Step>)
      requires Valid() && Inv(View()) && holder == Free && vmFile && !vcpus[id]
      modifies this
      ensures Inv(View()) && holder == Counted(id) && vcpus[..] == old(vcpus[..]) && created == old(created)
      ensures starts == old(starts) && runOnce == old(runOnce)
      ensures (forall a <- others :: !a.CloseVcpu?) ==>
                files == old(files) + {id} && users == old(users) + 1 && destroyed == old(destroyed)
    {
      hide Inv;
      StepKeeps(View(), Install(id));
      files, holder := files + {id}, Installed(id);
      Others(others);
      StepKeeps(View(), GetVm);
      users, holder := users + 1, Counted(id);
    }

    /** The slot, the count and the unlock. */
    method SetSlot(id: Id, others: seq<Step>)
      requires Valid() && Inv(View()) && holder == Counted(id)
      modifies this, vcpus
      ensures Inv(View()) && holder == Free && vcpus[..] == old(vcpus[..])[id := true] && created == old(created) + 1
      ensures starts == old(starts) && runOnce == old(runOnce)
      ensures (forall a <- others :: !a.CloseVcpu?) ==>
                files == old(files) && users == old(users) && destroyed == old(destroyed)
    {
      hide Inv;
      Others(others);
      StepKeeps(View(), Publish);
      vcpus[id], created, holder := true, created + 1, Free;
    }

    /**
      gh_vm_ioctl_create_vcpu, whatever others do between its steps. Every failure leaves the VM as it was; success
      occupies exactly the one slot, counts it, and leaves users_count equal to the number of open files.
     */
    method CreateVcpu(id: nat, memory: bool, fd: int, fileErr: int, o1: seq<Step>, o2: seq<Step>) returns (ret: int)
      requires Valid() && Inv(View()) && holder == Free && vmFile && fileErr <= 0
      modifies this, vcpus
      ensures Inv(View()) && holder == Free && users == OpenFiles(View())
      ensures ret == CreateResult(old(View()), id, memory, fd, fileErr)
      ensures id < 8 && old(vcpus[..])[id] ==> ret == EEXIST
      ensures id >= 8 ==> ret == EINVAL
      ensures id < 8 && !old(vcpus[..])[id] && memory && fd >= 0 && fileErr == 0 ==> ret == fd
      ensures ret < 0 ==> View() == old(View())
      ensures ret >= 0 ==>
                && id < MAX_VCPUS && vcpus[..] == old(vcpus[..])[id := true] && created == old(created) + 1
                && starts == old(starts) && runOnce == old(runOnce)
      ensures ret >= 0 && (forall a <- o1 + o2 :: !a.CloseVcpu?) ==>
                files == old(files) + {id} && users == old(users) + 1 && destroyed == old(destroyed)
    {
      FreeCounts(View());
      if id >= MAX_VCPUS { return EINVAL; }
      if vcpus[id] { return EEXIST; }
      if !memory { return ENOMEM; }
      if fd < 0 { return fd; }
      if fileErr < 0 { return fileErr; }
      assert forall a <- o1 :: a in o1 + o2;
      assert forall a <- o2 :: a in o1 + o2;
      hide Inv;
      InstallAndCount(id, o1);
      SetSlot(id, o2);
      FreeCounts(View());
      ret := fd;
    }

    /** The loop of gh_destroy_vm, on the slots for which it ends. */
    method DestroyVcpus()
      requires Valid() && created == Occupied(vcpus[..]) && Prefix(vcpus[..])
      modifies this, vcpus
      ensures created == 0 && forall i :: 0 <= i < MAX_VCPUS ==> !vcpus[i]
    {
      var id := 0;
      ghost var was := vcpus[..];
      while created != 0 && id < MAX_VCPUS
        invariant PrefixFrom(Loop(vcpus[..], created, id))
      {
        ghost var l := Loop(vcpus[..], created, id);
        TurnKeeps(l);
        if vcpus[id] {
          vcpus[id] := false;
          created := created - 1;
          id := id + 1;
        }
      }
      if created != 0 { OccupiedNone(vcpus[..]); }
      forall i | 0 <= i < MAX_VCPUS && vcpus[i] ensures false { OccupiedSome(vcpus[..], i); }
    }
  }

  lemma FreeCounts(s: Vm)
    requires Inv(s) && s.holder == Free
    ensures s.users == OpenFiles(s)
  {
  }

  /** The result of vCPU creation: the first thing that is wrong, or the descriptor. */
  function CreateResult(s: Vm, id: nat, memory: bool, fd: int, fileErr: int): int {
    if id >= MAX_VCPUS then EINVAL
    else if s.slots[id] then EEXIST
    else if !memory then ENOMEM
    else if fd < 0 then fd
    else if fileErr < 0 then fileErr
    else fd
  }
}
