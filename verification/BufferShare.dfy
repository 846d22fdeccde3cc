/**
  gh_secure_vm_virtio_backend.c: sharing a VM's virtio buffers with its peer, buffer by buffer, with rollback of the
  buffers already shared when one cannot be. The Resource Manager and qcom_scm_assign_mem are the environment: each
  call may fail for reasons of its own, and assign_mem also fails when the source mask is not exactly the owner set.
 */
module BufferShare {
  import opened Errno

  type Vmid = nat
  datatype Perm = RW | RWX
  type Owners = map<Vmid, Perm>

  datatype Parcel = NoParcel | Parcel(handle: nat)

  /** A buffer: who owns it, the memparcel RM holds for it, and the driver's copy of the handle. */
  datatype Buffer = Buffer(owners: Owners, parcel: Parcel, shmMemparcel: nat)

  // The environment.

  function AssignMem(owners: Owners, src: set<Vmid>, dst: Owners, outcome: int): (Owners, int) {
    if outcome != 0 then (owners, outcome) else if owners.Keys != src then (owners, EINVAL) else (dst, 0)
  }

  function MemReclaim(parcel: Parcel, handle: nat, outcome: int): (Parcel, int) {
    if outcome != 0 then (parcel, outcome) else if parcel != Parcel(handle) then (parcel, EINVAL) else (NoParcel, 0)
  }

  /** What the environment answers while one buffer is shared, and while one is unshared. */
  datatype ShareOutcome = ShareOutcome(memory: bool, assign: int, share: int, handle: nat, undo: int)
  datatype UnshareOutcome = UnshareOutcome(reclaim: int, assign: int)

  predicate Shares(o: ShareOutcome) { o.memory && o.assign == 0 && o.share == 0 }
  predicate Unshares(o: UnshareOutcome) { o.reclaim == 0 && o.assign == 0 }

  // What a buffer looks like.

  function PrivateOwners(self: Vmid): Owners { map[self := RWX] }
  function SharedOwners(self: Vmid, peer: Vmid): Owners { map[self := RW, peer := RW] }

  predicate Private(b: Buffer, self: Vmid) { b.owners == PrivateOwners(self) && b.parcel == NoParcel }

  predicate Shared(b: Buffer, self: Vmid, peer: Vmid) {
    b.owners == SharedOwners(self, peer) && b.parcel == Parcel(b.shmMemparcel)
  }

  predicate AllPrivate(bs: seq<Buffer>, self: Vmid) { forall b <- bs :: Private(b, self) }
  predicate AllShared(bs: seq<Buffer>, self: Vmid, peer: Vmid) { forall b <- bs :: Shared(b, self, peer) }

  // One buffer.

  /** share_a_vm_buffer. */
  function ShareOne(b: Buffer, self: Vmid, peer: Vmid, o: ShareOutcome): (Buffer, int) {
    if !o.memory then (b, ENOMEM)
    else
      var (owners, ret) := AssignMem(b.owners, {self}, SharedOwners(self, peer), o.assign);
      if ret != 0 then (b, ret)
      else if o.share == 0 then (Buffer(owners, Parcel(o.handle), o.handle), 0)
      else (b.(owners := AssignMem(owners, {self, peer}, PrivateOwners(self), o.undo).0), o.share)
  }

  /** unshare_a_vm_buffer. */
  function UnshareOne(b: Buffer, self: Vmid, peer: Vmid, o: UnshareOutcome): (Buffer, int) {
    var (parcel, ret) := MemReclaim(b.parcel, b.shmMemparcel, o.reclaim);
    if ret != 0 then (b, ret)
    else
      var (owners, ret') := AssignMem(b.owners, {self, peer}, PrivateOwners(self), o.assign);
      (b.(owners := owners, parcel := parcel), ret')
  }

  /** From a private buffer: it is shared, or (undo permitting) exactly as before. */
  lemma ShareOneEffect(b: Buffer, self: Vmid, peer: Vmid, o: ShareOutcome)
    requires Private(b, self)
    ensures var (b', ret) := ShareOne(b, self, peer, o);
            && (ret == 0 <==> Shares(o))
            && (ret == 0 ==> Shared(b', self, peer))
            && (ret != 0 ==> (Private(b', self) <==> UndoWorks(o)) && b'.parcel == NoParcel)
  {
    assert SharedOwners(self, peer)[self] == RW;
  }

  /** Whatever the failing buffer's own rollback had to do was done. */
  predicate UndoWorks(o: ShareOutcome) { o.memory && o.assign == 0 && o.share != 0 ==> o.undo == 0 }

  lemma UnshareOneEffect(b: Buffer, self: Vmid, peer: Vmid, o: UnshareOutcome)
    requires Shared(b, self, peer)
    ensures var (b', ret) := UnshareOne(b, self, peer, o);
            (ret == 0 <==> Unshares(o)) && (Private(b', self) <==> Unshares(o)) && (o.reclaim != 0 ==> b' == b)
  {
    assert SharedOwners(self, peer)[self] == RW;
  }

  // All buffers.

  /** The environment's answers, one for each buffer. */
  datatype Env = Env(self: Vmid, peer: Vmid, os: seq<ShareOutcome>, us: seq<UnshareOutcome>)

  function ShareRet(bs: seq<Buffer>, env: Env, i: nat): int
    requires i < |bs| == |env.os|
  {
    ShareOne(bs[i], env.self, env.peer, env.os[i]).1
  }

  /** The first buffer, from `from` on, that cannot be shared; the number of buffers if there is none. */
  function FirstFailure(bs: seq<Buffer>, env: Env, from: nat): (k: nat)
    requires from <= |bs| == |env.os|
    ensures from <= k <= |bs| && (forall i: nat :: from <= i < k ==> ShareRet(bs, env, i) == 0)
    ensures k < |bs| ==> ShareRet(bs, env, k) != 0
    decreases |bs| - from
  {
    if from == |bs| || ShareRet(bs, env, from) != 0 then from else FirstFailure(bs, env, from + 1)
  }

  /** Buffer i after the whole operation, which stopped at buffer k. */
  function Outcome(bs: seq<Buffer>, env: Env, i: nat, k: nat): Buffer
    requires i < |bs| == |env.os| == |env.us|
  {
    if i > k then bs[i]
    else
      var b := ShareOne(bs[i], env.self, env.peer, env.os[i]).0;
      if i < k < |bs| then UnshareOne(b, env.self, env.peer, env.us[i]).0 else b
  }

  ghost predicate IsOutcome(before: seq<Buffer>, after: seq<Buffer>, env: Env)
    requires |before| == |env.os| == |env.us|
  {
    && |before| == |after|
    && forall i: nat :: i < |before| ==> after[i] == Outcome(before, env, i, FirstFailure(before, env, 0))
  }

  /** Every rollback call that has to be made works. */
  predicate RollbackWorks(os: seq<ShareOutcome>, us: seq<UnshareOutcome>, k: nat)
    requires k < |os| == |us|
  {
    UndoWorks(os[k]) && forall i :: 0 <= i < k ==> Unshares(us[i])
  }

  /**
    All or nothing, for buffers that were private before. With every step working, all buffers are shared. With some
    step failing, every buffer is as before if and only if the rollback calls work.
   */
  lemma AllOrNothing(before: seq<Buffer>, after: seq<Buffer>, env: Env)
    requires |before| == |env.os| == |env.us| && AllPrivate(before, env.self) && IsOutcome(before, after, env)
    ensures var k := FirstFailure(before, env, 0);
            && (k == |before| <==> forall o <- env.os :: Shares(o))
            && (k == |before| ==> AllShared(after, env.self, env.peer))
            && (k == |before| ==> forall b <- after :: b.owners == map[env.self := RW, env.peer := RW])
            && (k < |before| && RollbackWorks(env.os, env.us, k) ==> forall b <- after :: b.owners == map[env.self := RWX])
            && (k < |before| ==> (AllPrivate(after, env.self) <==> RollbackWorks(env.os, env.us, k)))
  {
    hide ShareOne, UnshareOne, Shares, Private, Shared, UndoWorks, Unshares;
    var k := FirstFailure(before, env, 0);
    forall i: nat | i < |before|
      ensures ShareRet(before, env, i) == 0 <==> Shares(env.os[i])
      ensures k == |before| ==> Shared(after[i], env.self, env.peer)
      ensures k < |before| ==> (Private(after[i], env.self) <==> Restored(env, i, k))
    {
      assert Private(before[i], env.self);
      ShareOneEffect(before[i], env.self, env.peer, env.os[i]);
      var b := ShareOne(before[i], env.self, env.peer, env.os[i]).0;
      assert i < k ==> ShareRet(before, env, i) == 0;
      if i < k { UnshareOneEffect(b, env.self, env.peer, env.us[i]); }
    }
    if k < |before| { RestoredAll(after, env, k); }
    forall b | b in after
      ensures k == |before| ==> b.owners == map[env.self := RW, env.peer := RW]
      ensures k < |before| && RollbackWorks(env.os, env.us, k) ==> b.owners == map[env.self := RWX]
    {
      OwnersAre(b, env.self, env.peer);
    }
  }

  lemma OwnersAre(b: Buffer, self: Vmid, peer: Vmid)
    ensures Shared(b, self, peer) ==> b.owners == map[self := RW, peer := RW]
    ensures Private(b, self) ==> b.owners == map[self := RWX]
  {
  }

  predicate Restored(env: Env, i: nat, k: nat)
    requires i < |env.os| == |env.us|
  {
    (i < k ==> Unshares(env.us[i])) && (i == k ==> UndoWorks(env.os[i]))
  }

  lemma RestoredAll(after: seq<Buffer>, env: Env, k: nat)
    requires k < |after| == |env.os| == |env.us|
    requires forall i: nat :: i < |after| ==> (Private(after[i], env.self) <==> Restored(env, i, k))
    ensures AllPrivate(after, env.self) <==> RollbackWorks(env.os, env.us, k)
  {
    hide Private, UndoWorks, Unshares;
    if AllPrivate(after, env.self) {
      assert forall i: nat :: i < |after| ==> Private(after[i], env.self);
      assert Restored(env, k, k);
      forall i | 0 <= i < k ensures Unshares(env.us[i]) { assert Restored(env, i, k); }
    } else {
      var i: nat :| i < |after| && !Private(after[i], env.self);
      assert !Restored(env, i, k);
    }
  }

  function UnshareRet(bs: seq<Buffer>, env: Env, i: nat): int
    requires i < |bs| == |env.us|
  {
    UnshareOne(bs[i], env.self, env.peer, env.us[i]).1
  }

  /** The first buffer, from `from` on, that cannot be unshared; the number of buffers if there is none. */
  function FirstUnshareFailure(bs: seq<Buffer>, env: Env, from: nat): (k: nat)
    requires from <= |bs| == |env.us|
    ensures from <= k <= |bs| && (forall i: nat :: from <= i < k ==> UnshareRet(bs, env, i) == 0)
    ensures k < |bs| ==> UnshareRet(bs, env, k) != 0
    decreases |bs| - from
  {
    if from == |bs| || UnshareRet(bs, env, from) != 0 then from else FirstUnshareFailure(bs, env, from + 1)
  }

  /** A buffer whose memparcel is gone can never be unshared: a retry after a half-done unshare fails. */
  lemma NoSecondUnshare(b: Buffer, self: Vmid, peer: Vmid, o: UnshareOutcome)
    ensures b.parcel == NoParcel ==> UnshareOne(b, self, peer, o).1 != 0 && UnshareOne(b, self, peer, o).0 == b
  {
  }

  class VirtMachine {
    const shmem: array<Buffer>
    var hypAssignDone: bool

    constructor (buffers: seq<Buffer>)
      ensures shmem[..] == buffers && !hypAssignDone && fresh(shmem)
    {
      shmem := new Buffer[|buffers|](i requires 0 <= i < |buffers| => buffers[i]);
      hypAssignDone := false;
    }

    /** share_vm_buffers, with RM's answer to gh_rm_get_vmid first. */
    method ShareVmBuffers(getVmid: int, env: Env) returns (ret: int)
      requires |env.os| == |env.us| == shmem.Length
      modifies this, shmem
      ensures getVmid != 0 ==> ret == getVmid && shmem[..] == old(shmem[..])
      ensures getVmid == 0 ==> IsOutcome(old(shmem[..]), shmem[..], env)
      ensures ret == 0 <==> getVmid == 0 && FirstFailure(old(shmem[..]), env, 0) == shmem.Length
      ensures hypAssignDone == (old(hypAssignDone) || ret == 0)
    {
      hide ShareOne, UnshareOne;
      if getVmid != 0 { return getVmid; }
      ghost var was := shmem[..];
      ghost var k := FirstFailure(was, env, 0);
      var i: int := 0;
      ret := 0;
      while i < shmem.Length
        modifies shmem
        invariant 0 <= i <= k && ret == 0
        invariant forall j :: i <= j < shmem.Length ==> shmem[j] == was[j]
        invariant forall j :: 0 <= j < i ==> shmem[j] == ShareOne(was[j], env.self, env.peer, env.os[j]).0
      {
        var (b, r) := ShareOne(shmem[i], env.self, env.peer, env.os[i]);
        assert r == ShareRet(was, env, i);
        shmem[i], ret := b, r;
        if ret != 0 {
          i := i - 1;
          break;
        }
        i := i + 1;
      }
      if ret == 0 {
        hypAssignDone := true;
        return;
      }
      assert k == i + 1;
      while i >= 0
        modifies shmem
        invariant -1 <= i < k
        invariant forall j :: k < j < shmem.Length ==> shmem[j] == was[j]
        invariant forall j :: 0 <= j <= i || j == k ==> shmem[j] == ShareOne(was[j], env.self, env.peer, env.os[j]).0
        invariant forall j: nat :: i < j < k ==> shmem[j] == Outcome(was, env, j, k)
      {
        var (b, _) := UnshareOne(shmem[i], env.self, env.peer, env.us[i]);
        shmem[i] := b;
        i := i - 1;
      }
    }

    /** unshare_vm_buffers. It stops at the first failure and then leaves hyp_assign_done set. */
    method UnshareVmBuffers(getVmid: int, env: Env) returns (ret: int)
      requires |env.us| == shmem.Length
      modifies this, shmem
      ensures !old(hypAssignDone) ==> ret == 0 && shmem[..] == old(shmem[..])
      ensures old(hypAssignDone) ==>
                (ret == 0 <==> getVmid == 0 && forall i: nat :: i < shmem.Length ==> UnshareRet(old(shmem[..]), env, i) == 0)
      ensures hypAssignDone == (old(hypAssignDone) && ret != 0)
      ensures old(hypAssignDone) && getVmid != 0 ==> ret == getVmid && shmem[..] == old(shmem[..])
      ensures old(hypAssignDone) && getVmid == 0 ==>
                var k := FirstUnshareFailure(old(shmem[..]), env, 0);
                && ret == (if k < shmem.Length then UnshareRet(old(shmem[..]), env, k) else 0)
                && forall i :: 0 <= i < shmem.Length ==>
                     shmem[i] == if i <= k then UnshareOne(old(shmem[i]), env.self, env.peer, env.us[i]).0 else old(shmem[i])
    {
      hide UnshareOne;
      if !hypAssignDone { return 0; }
      if getVmid != 0 { return getVmid; }
      ghost var was := shmem[..];
      ret := 0;
      for i := 0 to shmem.Length
        modifies shmem
        invariant forall j :: i <= j < shmem.Length ==> shmem[j] == was[j]
        invariant forall j: nat :: j < i ==> UnshareRet(was, env, j) == 0
        invariant forall j :: 0 <= j < i ==> shmem[j] == UnshareOne(was[j], env.self, env.peer, env.us[j]).0
      {
        var (b, r) := UnshareOne(shmem[i], env.self, env.peer, env.us[i]);
        assert r == UnshareRet(was, env, i);
        shmem[i], ret := b, r;
        if ret != 0 { return; }
      }
      hypAssignDone := false;
    }

    /** What the two together promise: a share that works, then an unshare that works, puts everything back. */
    method ShareThenUnshare(env: Env) returns (shared: int, unshared: int)
      requires |env.os| == |env.us| == shmem.Length && AllPrivate(shmem[..], env.self) && !hypAssignDone
      modifies this, shmem
      ensures shared == 0 <==> forall o <- env.os :: Shares(o)
      ensures shared == 0 ==> (unshared == 0 <==> forall u <- env.us :: Unshares(u))
      ensures shared == 0 && unshared == 0 ==> AllPrivate(shmem[..], env.self) && !hypAssignDone
    {
      ghost var was := shmem[..];
      shared := ShareVmBuffers(0, env);
      AllOrNothing(was, shmem[..], env);
      ghost var mid := shmem[..];
      unshared := UnshareVmBuffers(0, env);
      if shared == 0 {
        hide ShareOne, UnshareOne, Private, Shared, Unshares, Shares;
        forall i: nat | i < shmem.Length
          ensures UnshareRet(mid, env, i) == 0 <==> Unshares(env.us[i])
          ensures unshared == 0 ==> Private(shmem[i], env.self)
        {
          UnshareOneEffect(mid[i], env.self, env.peer, env.us[i]);
        }
      }
    }
  }
}
