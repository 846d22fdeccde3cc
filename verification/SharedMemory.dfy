/**
  gh_main.c: handing a region of memory to a VM and its peers, and taking it back. Both operations build arrays of VM
  permissions and bit masks of VM ids; qcom_scm_assign_mem moves memory only when the mask is exactly its owner set.
  A mask is the set of its bit positions.
 */
module SharedMemory {
  import opened Errno

  type Vmid = v: nat | v < 64
  type Mask = set<Vmid>
  datatype VmPerm = VmPerm(vmid: Vmid, perm: nat)

  const HLOS: Vmid := 3
  const RWX: nat := 7

  /** struct gh_shmem. */
  datatype Shmem = Shmem(src: seq<VmPerm>, dst: seq<VmPerm>, isShared: bool)

  function SrcList(sh: Shmem): seq<VmPerm> { sh.src + [VmPerm(HLOS, RWX)] }

  function DstList(sh: Shmem, vmid: Vmid): seq<VmPerm> {
    sh.dst + (if sh.isShared then [VmPerm(HLOS, RWX)] else []) + [VmPerm(vmid, RWX)]
  }

  function MaskOf(list: seq<VmPerm>): Mask { set p <- list :: p.vmid }

  // The environment.

  /** What qcom_scm_assign_mem installs for a list; a VM named twice has its last permission. */
  function Installed(list: seq<VmPerm>): map<Vmid, nat> {
    if list == [] then map[]
    else Installed(list[..|list| - 1])[list[|list| - 1].vmid := list[|list| - 1].perm]
  }

  datatype Parcel = NoParcel | Parcel(shared: bool, acl: seq<VmPerm>)

  /** Answers of the environment: 0 is success. */
  datatype Answers = Answers(memory: bool, assign: int, rm: int, undo: int)

  lemma {:induction false} InstalledKeys(list: seq<VmPerm>)
    ensures Installed(list).Keys == MaskOf(list)
  {
    if list != [] {
      var init, last := list[..|list| - 1], list[|list| - 1];
      InstalledKeys(init);
      assert list == init + [last];
      assert MaskOf(list) == MaskOf(init) + {last.vmid};
    }
  }

  /** The mask gh_reclaim_shmem computes from the destination list alone. */
  function ReclaimMask(sh: Shmem, vmid: Vmid): Mask {
    MaskOf(sh.dst) + {vmid} + (if sh.isShared then {HLOS} else {})
  }

  /** It is exactly the owner set gh_provide_shmem has installed, in both sharing modes and whatever the lists. */
  lemma ReclaimMaskIsOwnerSet(sh: Shmem, vmid: Vmid)
    ensures ReclaimMask(sh, vmid) == Installed(DstList(sh, vmid)).Keys
  {
    InstalledKeys(DstList(sh, vmid));
    var list := DstList(sh, vmid);
    assert forall p <- sh.dst :: p in list;
    assert VmPerm(vmid, RWX) in list && (sh.isShared ==> VmPerm(HLOS, RWX) in list);
  }

  /** The last entry of a list decides for its VM. */
  lemma LastEntry(list: seq<VmPerm>, p: VmPerm)
    requires list != [] && list[|list| - 1] == p
    ensures p.vmid in Installed(list) && Installed(list)[p.vmid] == p.perm
  {
  }

  /** Who owns a region afterwards, in the source's own numbers. */
  lemma DstOwners(sh: Shmem, vmid: Vmid)
    ensures var o := Installed(DstList(sh, vmid));
            && vmid in o && o[vmid] == 7 && (sh.isShared ==> 3 in o)
            && (forall v <- o :: v == vmid || (v == 3 && sh.isShared) || exists p <- sh.dst :: p.vmid == v)
            && forall p <- sh.dst :: p.vmid in o
  {
    var list := DstList(sh, vmid);
    LastEntry(list, VmPerm(vmid, RWX));
    InstalledKeys(list);
    assert forall p <- sh.dst :: p in list;
    assert sh.isShared ==> VmPerm(HLOS, RWX) in list;
  }

  lemma SrcOwners(sh: Shmem)
    ensures var o := Installed(SrcList(sh));
            && 3 in o && o[3] == 7 && (forall p <- sh.src :: p.vmid in o)
            && forall v <- o :: v == 3 || exists p <- sh.src :: p.vmid == v
  {
    var list := SrcList(sh);
    LastEntry(list, VmPerm(HLOS, RWX));
    InstalledKeys(list);
    assert forall p <- sh.src :: p in list;
  }

  class Region {
    var owners: map<Vmid, nat>
    var parcel: Parcel

    constructor (owners: map<Vmid, nat>)
      ensures this.owners == owners && parcel == NoParcel
    {
      this.owners, parcel := owners, NoParcel;
    }

    method AssignMem(src: Mask, dst: array<VmPerm>, outcome: int) returns (ret: int)
      modifies this
      ensures ret == 0 <==> outcome == 0 && old(owners).Keys == src
      ensures owners == if ret == 0 then Installed(dst[..]) else old(owners)
      ensures parcel == old(parcel)
    {
      if outcome != 0 { return outcome; }
      if owners.Keys != src { return EINVAL; }
      owners := map[];
      for i := 0 to dst.Length
        invariant owners == Installed(dst[..i]) && parcel == old(parcel)
      {
        assert dst[..i + 1][..i] == dst[..i];
        owners := owners[dst[i].vmid := dst[i].perm];
      }
      assert dst[..] == dst[..dst.Length];
      ret := 0;
    }

    /** gh_provide_shmem. */
    method Provide(sh: Shmem, vmid: Vmid, env: Answers) returns (ret: int)
      modifies this
      ensures ret == 0 && env.rm == 0 ==>
                old(owners).Keys == MaskOf(SrcList(sh)) && owners == Installed(DstList(sh, vmid))
                && parcel == Parcel(sh.isShared, DstList(sh, vmid))
      ensures ret == 0 && env.rm == 0 ==>
                && vmid in owners && owners[vmid] == 7 && (sh.isShared ==> 3 in owners)
                && (forall v <- owners :: v == vmid || (v == 3 && sh.isShared) || exists p <- sh.dst :: p.vmid == v)
                && (forall p <- sh.dst :: p.vmid in owners)
      ensures env.memory && env.assign == 0 && env.rm == 0 && old(owners).Keys == MaskOf(SrcList(sh)) ==> ret == 0
      ensures env.memory && env.assign == 0 && old(owners).Keys == MaskOf(SrcList(sh)) && env.rm != 0 ==>
                && (ret == 0 <==> env.undo == 0) && parcel == old(parcel)
                && owners == if ret == 0 then Installed(SrcList(sh)) else Installed(DstList(sh, vmid))
      ensures env.rm == 0 && ret != 0 ==> owners == old(owners) && parcel == old(parcel)
    {
      DstOwners(sh, vmid);
      if !env.memory { return ENOMEM; }
      var srcVm, srcMask := BuildList(sh.src, [VmPerm(HLOS, RWX)]);
      var extra := if sh.isShared then [VmPerm(HLOS, RWX), VmPerm(vmid, RWX)] else [VmPerm(vmid, RWX)];
      var dstVm, dstMask := BuildList(sh.dst, extra);
      assert dstVm[..] == DstList(sh, vmid);
      assert old(owners) == Installed(SrcList(sh)) ==> old(owners).Keys == srcMask by { InstalledKeys(SrcList(sh)); }
      var acl := dstVm[..];
      ret := AssignMem(srcMask, dstVm, env.assign);
      if ret != 0 { return; }
      ret := env.rm;
      if ret == 0 {
        parcel := Parcel(sh.isShared, acl);
      } else {
        assert owners.Keys == dstMask by { InstalledKeys(dstVm[..]); }
        ret := AssignMem(dstMask, srcVm, env.undo);
      }
    }

    /** gh_reclaim_shmem; RM's answer to the reclaim is reported and otherwise ignored. */
    method Reclaim(sh: Shmem, vmid: Vmid, env: Answers) returns (ret: int)
      modifies this
      ensures ret == 0 <==> env.memory && env.assign == 0 && old(owners).Keys == ReclaimMask(sh, vmid)
      ensures owners == if ret == 0 then Installed(SrcList(sh)) else old(owners)
      ensures ret == 0 ==>
                && 3 in owners && owners[3] == 7 && (forall p <- sh.src :: p.vmid in owners)
                && forall v <- owners :: v == 3 || exists p <- sh.src :: p.vmid == v
      ensures parcel == if env.memory && env.rm == 0 then NoParcel else old(parcel)
    {
      SrcOwners(sh);
      if !env.memory { return ENOMEM; }
      var dstVm, _ := BuildList(sh.src, [VmPerm(HLOS, RWX)]);
      var srcMask: Mask := {};
      for i := 0 to |sh.dst|
        invariant srcMask == MaskOf(sh.dst[..i])
      {
        assert sh.dst[..i + 1] == sh.dst[..i] + [sh.dst[i]];
        srcMask := srcMask + {sh.dst[i].vmid};
      }
      assert sh.dst[..|sh.dst|] == sh.dst;
      srcMask := srcMask + {vmid};
      if sh.isShared { srcMask := srcMask + {HLOS}; }
      if env.rm == 0 { parcel := NoParcel; }
      ret := AssignMem(srcMask, dstVm, env.assign);
    }

    /** Reclaim undoes provide: the region is owned exactly as before, whatever the lists and the sharing mode. */
    method ProvideThenReclaim(sh: Shmem, vmid: Vmid, env: Answers, env': Answers) returns (ret: int, ret': int)
      requires owners == Installed(SrcList(sh)) && parcel == NoParcel
      requires env.memory && env.assign == 0 && env.rm == 0 && env'.memory && env'.assign == 0 && env'.rm == 0
      modifies this
      ensures ret == 0 && ret' == 0 && owners == old(owners) && parcel == NoParcel
    {
      InstalledKeys(SrcList(sh));
      ret := Provide(sh, vmid, env);
      ReclaimMaskIsOwnerSet(sh, vmid);
      ret' := Reclaim(sh, vmid, env');
    }
  }

  /** The loops over set_vmperm_bit: the entries in order, then the fixed ones, and the mask of them all. */
  method BuildList(entries: seq<VmPerm>, fixed: seq<VmPerm>) returns (list: array<VmPerm>, mask: Mask)
    ensures fresh(list) && list[..] == entries + fixed && mask == MaskOf(entries + fixed)
  {
    list := new VmPerm[|entries| + |fixed|](_ => VmPerm(0, 0));
    mask := Fill(list, 0, {}, entries);
    mask := Fill(list, |entries|, mask, fixed);
    assert list[..] == list[..|entries|] + list[|entries|..];
    assert MaskOf(entries + fixed) == MaskOf(entries) + MaskOf(fixed);
  }

  method Fill(list: array<VmPerm>, at: nat, mask: Mask, entries: seq<VmPerm>) returns (mask': Mask)
    requires at + |entries| <= list.Length
    modifies list
    ensures list[..at] == old(list[..at]) && list[at .. at + |entries|] == entries
    ensures mask' == mask + MaskOf(entries)
  {
    mask' := mask;
    for i := 0 to |entries|
      invariant list[..at] == old(list[..at]) && list[at .. at + i] == entries[..i]
      invariant mask' == mask + MaskOf(entries[..i])
    {
      mask' := SetVmpermBit(list, at + i, mask', entries[i]);
      assert entries[..i + 1] == entries[..i] + [entries[i]];
    }
    assert entries[..|entries|] == entries;
  }

  method SetVmpermBit(list: array<VmPerm>, i: nat, mask: Mask, p: VmPerm) returns (mask': Mask)
    requires i < list.Length
    modifies list
    ensures list[..] == old(list[..])[i := p] && mask' == mask + {p.vmid}
  {
    list[i] := p;
    mask' := mask + {p.vmid};
  }
}
