/**
  gh_secure_vm_loader.c: where the metadata of a secure VM's image goes in its firmware region. Program headers are
  those of a 32-bit ELF file (chapter 5, "Program Header", of the System V gABI), so the end of a segment is computed in
  32 bits; everything else is computed in 64.
 */
module MetadataPlacement {
  import opened Bytes

  type U32 = x: nat | x < 0x1_0000_0000
  type U64 = x: nat | x < 0x1_0000_0000_0000_0000
  const U64_MAX: nat := 0xFFFF_FFFF_FFFF_FFFF

  datatype Phdr = Phdr(paddr: U32, memsz: U32, relocatable: bool)

  /** PAGE_ROUND_UP: the sum wraps at 64 bits. */
  function PageRoundUp(x: U64): U64 {
    ((x + 4095) % 0x1_0000_0000_0000_0000) / 4096 * 4096
  }

  /** p_paddr + p_memsz in 32-bit arithmetic. */
  function WrappedEnd(p: Phdr): U32 { (p.paddr + p.memsz) % 0x1_0000_0000 }

  function End(p: Phdr): nat { p.paddr + p.memsz }

  // What the loop over the headers computes.

  function TotalSize(ps: seq<Phdr>): nat {
    if ps == [] then 0 else TotalSize(ps[..|ps| - 1]) + ps[|ps| - 1].memsz
  }

  function MaxPaddr(ps: seq<Phdr>): U32 {
    if ps == [] then 0
    else
      var m, p := MaxPaddr(ps[..|ps| - 1]), ps[|ps| - 1];
      if p.paddr > m then p.paddr else m
  }

  /** The end of the first header with the highest address; `unset` when no address is above zero. */
  function ImageEnd(ps: seq<Phdr>, unset: U64): U64 {
    if ps == [] then unset
    else
      var p := ps[|ps| - 1];
      if p.paddr > MaxPaddr(ps[..|ps| - 1]) then WrappedEnd(p) else ImageEnd(ps[..|ps| - 1], unset)
  }

  function ImageStart(ps: seq<Phdr>, fwPhys: U64): U64 {
    if exists p <- ps :: p.relocatable then 0 else fwPhys
  }

  /** struct gh_sec_vm_fw_mem without its contents. */
  datatype Fw = Fw(phys: U64, virt: U64, size: nat)

  /** The offset the metadata is copied to, or 0. */
  function Placement(fw: Fw, mdataSize: U64, ps: seq<Phdr>, unset: U64): (moffset: nat)
    requires fw.size < 0x8000_0000_0000_0000
  {
    var rounded := PageRoundUp(mdataSize);
    if rounded < mdataSize || TotalSize(ps) > U64_MAX - rounded || fw.size < TotalSize(ps) + rounded then 0
    else
      var moffset, start := fw.size - rounded, ImageStart(ps, fw.phys);
      if start > U64_MAX - moffset || fw.virt > U64_MAX - moffset then 0
      else if ImageEnd(ps, unset) <= start + moffset then moffset else 0
  }

  // Segments as a linker lays them out.

  predicate Disjoint(p: Phdr, q: Phdr) { End(p) <= q.paddr || End(q) <= p.paddr }

  predicate WellFormed(ps: seq<Phdr>) {
    && (forall p <- ps :: p.memsz > 0 && End(p) < 0x1_0000_0000)
    && (forall i, j :: 0 <= i < j < |ps| ==> Disjoint(ps[i], ps[j]))
    && (exists p <- ps :: p.paddr > 0)
  }

  lemma {:induction false} MaxPaddrIsMax(ps: seq<Phdr>, i: nat)
    requires i < |ps|
    ensures ps[i].paddr <= MaxPaddr(ps)
  {
    if i < |ps| - 1 { MaxPaddrIsMax(ps[..|ps| - 1], i); }
  }

  /** ImageEnd comes from a header at the highest address. */
  lemma {:induction false} ImageEndOf(ps: seq<Phdr>, unset: U64) returns (i: nat)
    requires MaxPaddr(ps) > 0
    ensures i < |ps| && ps[i].paddr == MaxPaddr(ps) && ImageEnd(ps, unset) == WrappedEnd(ps[i])
  {
    var init, last := ps[..|ps| - 1], ps[|ps| - 1];
    if last.paddr > MaxPaddr(init) { i := |ps| - 1; } else { i := ImageEndOf(init, unset); }
  }

  lemma NoWrap(p: Phdr)
    requires End(p) < 0x1_0000_0000
    ensures WrappedEnd(p) == End(p)
  {
  }

  /** Among disjoint, non-empty segments the one that starts last also ends last. */
  lemma HighestEndsLast(ps: seq<Phdr>, unset: U64, p: Phdr)
    requires WellFormed(ps) && p in ps
    ensures End(p) <= ImageEnd(ps, unset)
  {
    hide WrappedEnd, MaxPaddr, ImageEnd;
    var k :| 0 <= k < |ps| && ps[k] == p;
    var q :| q in ps && q.paddr > 0;
    var j :| 0 <= j < |ps| && ps[j] == q;
    MaxPaddrIsMax(ps, j);
    MaxPaddrIsMax(ps, k);
    var i := ImageEndOf(ps, unset);
    assert ps[i] in ps && ps[i].memsz > 0;
    NoWrap(ps[i]);
    assert p.memsz > 0;
    if i < k { assert Disjoint(ps[i], ps[k]); } else if k < i { assert Disjoint(ps[k], ps[i]); }
  }

  /** Rounding up to a page, when the result is not smaller: the next multiple, without wrap-around. */
  lemma RoundedUp(x: U64)
    requires PageRoundUp(x) >= x
    ensures PageRoundUp(x) % 4096 == 0 && PageRoundUp(x) < x + 4096
  {
  }

  /** The wrap-around of PAGE_ROUND_UP is always noticed. */
  lemma RoundUpOverflow(x: U64)
    ensures PageRoundUp(x) < x <==> x + 4095 > U64_MAX
  {
  }

  /**
    A non-zero result puts the page-rounded metadata flush at the end of the region, with the copy inside it, beyond
    the end of every segment, and no 64-bit sum on the way wraps.
   */
  lemma PlacementIsSafe(fw: Fw, mdataSize: U64, ps: seq<Phdr>, unset: U64)
    requires fw.size < 0x8000_0000_0000_0000 && WellFormed(ps) && Placement(fw, mdataSize, ps, unset) != 0
    ensures var moffset, rounded := Placement(fw, mdataSize, ps, unset), PageRoundUp(mdataSize);
            && moffset + rounded == fw.size
            && mdataSize <= rounded < mdataSize + 4096 && rounded % 4096 == 0
            && moffset + mdataSize <= fw.size
            && TotalSize(ps) <= moffset
            && (forall p <- ps :: End(p) <= ImageStart(ps, fw.phys) + moffset)
            && ImageStart(ps, fw.phys) + moffset <= U64_MAX && fw.virt + moffset <= U64_MAX
            && TotalSize(ps) + rounded <= U64_MAX && mdataSize + 4095 <= U64_MAX
  {
    RoundedUp(mdataSize);
    RoundUpOverflow(mdataSize);
    hide PageRoundUp, WellFormed;
    forall p | p in ps ensures End(p) <= ImageEnd(ps, unset) { HighestEndsLast(ps, unset, p); }
  }

  /** Well-formed segments that fit below the metadata are never refused. */
  lemma PlacementSucceeds(fw: Fw, mdataSize: U64, ps: seq<Phdr>, unset: U64)
    requires 0 < fw.size < 0x8000_0000_0000_0000 && WellFormed(ps) && mdataSize + 4095 <= U64_MAX
    requires TotalSize(ps) + PageRoundUp(mdataSize) <= fw.size
    requires var start := ImageStart(ps, fw.phys);
             && start + fw.size <= U64_MAX && fw.virt + fw.size <= U64_MAX
             && forall p <- ps :: End(p) <= start + fw.size - PageRoundUp(mdataSize)
    ensures Placement(fw, mdataSize, ps, unset) == fw.size - PageRoundUp(mdataSize)
  {
    RoundUpOverflow(mdataSize);
    var q :| q in ps && q.paddr > 0;
    var j :| 0 <= j < |ps| && ps[j] == q;
    MaxPaddrIsMax(ps, j);
    hide PageRoundUp, WrappedEnd, MaxPaddr, ImageEnd, TotalSize;
    var i := ImageEndOf(ps, unset);
    assert ps[i] in ps;
    NoWrap(ps[i]);
  }

  /** The metadata is placed, and some segment ends beyond its start. */
  predicate ReachesPast(fw: Fw, ps: seq<Phdr>, mdataSize: U64) {
    && fw.size < 0x8000_0000_0000_0000 && Placement(fw, mdataSize, ps, 0) != 0
    && exists p <- ps :: End(p) > ImageStart(ps, fw.phys) + Placement(fw, mdataSize, ps, 0)
  }

  function HighestEnd(ps: seq<Phdr>, unset: U64): nat {
    if ImageEnd(ps, unset) < TotalSize(ps) then TotalSize(ps) else ImageEnd(ps, unset)
  }

  /** Whatever the region and the metadata, a segment never ends beyond the start of metadata that is placed. */
  ghost predicate NeverReachesPast(ps: seq<Phdr>, unset: U64) {
    forall fw: Fw, mdataSize: U64 :: PlacedBeyond(fw, mdataSize, ps, unset)
  }

  predicate PlacedBeyond(fw: Fw, mdataSize: U64, ps: seq<Phdr>, unset: U64) {
    fw.size < 0x8000_0000_0000_0000 && Placement(fw, mdataSize, ps, unset) != 0 ==>
      forall p <- ps :: End(p) <= ImageStart(ps, fw.phys) + Placement(fw, mdataSize, ps, unset)
  }

  /**
    The exact condition on the headers alone, for segments that may overlap: no end lies beyond both the end that was
    computed and the sum of all sizes.
   */
  lemma NeverReachesPastExactly(ps: seq<Phdr>, unset: U64)
    requires (forall p <- ps :: End(p) < 0x1_0000_0000) && MaxPaddr(ps) > 0
    ensures NeverReachesPast(ps, unset) <==> forall p <- ps :: End(p) <= HighestEnd(ps, unset)
  {
    if forall p <- ps :: End(p) <= HighestEnd(ps, unset) {
      forall fw: Fw, mdataSize: U64 ensures PlacedBeyond(fw, mdataSize, ps, unset) {
        hide PageRoundUp, TotalSize, ImageEnd;
      }
    } else {
      var p :| p in ps && End(p) > HighestEnd(ps, unset);
      var i := ImageEndOf(ps, unset);
      assert ps[i] in ps;
      NoWrap(ps[i]);
      var fw := Fw(0, 0, HighestEnd(ps, unset) + 4096);
      assert PageRoundUp(100) == 4096;
      hide PageRoundUp, TotalSize, ImageEnd, MaxPaddr;
      assert !PlacedBeyond(fw, 100, ps, unset);
    }
  }

  /** Nested segments are not well formed, and with them a segment can reach past the metadata. */
  lemma NestedSegmentReachesPast()
    ensures exists fw: Fw, ps: seq<Phdr> :: ReachesPast(fw, ps, 100)
  {
    var outer, inner := Phdr(0x2000, 0x3_0000, false), Phdr(0x3000, 0x1000, false);
    var fw, ps := Fw(0, 0, 0x3_2000), [outer, inner];
    var one := [outer];
    assert ps[..1] == one && one[..0] == [] && TotalSize(one[..0]) == 0 && MaxPaddr(one[..0]) == 0;
    assert MaxPaddr(one) == outer.paddr && TotalSize(one) == outer.memsz;
    assert TotalSize(ps) == 0x3_1000 && ImageEnd(ps, 0) == WrappedEnd(inner);
    assert PageRoundUp(100) == 4096;
    assert Placement(fw, 100, ps, 0) == 0x3_1000;
    assert ps[0] == outer && End(outer) == 0x3_2000 && ImageStart(ps, 0) == 0;
    assert outer in ps && End(outer) > ImageStart(ps, fw.phys) + Placement(fw, 100, ps, 0);
    assert ReachesPast(fw, ps, 100);
  }

  /** A relocatable image starts at 0, whatever the region's address; any other starts at that address. */
  lemma PlacementByKind(fw: Fw, mdataSize: U64, ps: seq<Phdr>, unset: U64)
    requires fw.size < 0x8000_0000_0000_0000 && PageRoundUp(mdataSize) >= mdataSize
    requires TotalSize(ps) + PageRoundUp(mdataSize) <= fw.size && PageRoundUp(mdataSize) < fw.size
    requires fw.virt + fw.size <= U64_MAX && fw.phys + fw.size <= U64_MAX
    ensures var m := fw.size - PageRoundUp(mdataSize);
            && ((exists p <- ps :: p.relocatable) ==>
                  Placement(fw, mdataSize, ps, unset) == if ImageEnd(ps, unset) <= m then m else 0)
            && ((forall p <- ps :: !p.relocatable) ==>
                  Placement(fw, mdataSize, ps, unset) == if ImageEnd(ps, unset) <= fw.phys + m then m else 0)
  {
    hide PageRoundUp, TotalSize, ImageEnd;
  }

  /** gh_sec_load_metadata; `unset` is what image_end_addr holds when no header sets it. */
  method LoadMetadata(region: array<byte>, phys: U64, virt: U64, mdata: seq<byte>, ps: seq<Phdr>, unset: U64)
    returns (result: nat)
    requires region.Length < 0x8000_0000_0000_0000 && |mdata| <= U64_MAX && |ps| <= 0xFFFF
    modifies region
    ensures result == Placement(Fw(phys, virt, region.Length), |mdata|, ps, unset)
    ensures result != 0 && (exists p <- ps :: p.relocatable) ==> ImageEnd(ps, unset) <= result
    ensures result != 0 && (forall p <- ps :: !p.relocatable) ==> ImageEnd(ps, unset) <= phys + result <= U64_MAX
    ensures result == 0 && TotalSize(ps) > 0 ==> region[..] == old(region[..])
    ensures result != 0 ==> result + |mdata| <= region.Length
    ensures result != 0 ==> region[..] == old(region[..])[..result] + mdata + old(region[..])[result + |mdata|..]
  {
    hide PageRoundUp, End;
    var mdataSize: U64 := PageRoundUp(|mdata|);
    if mdataSize < |mdata| { return 0; }
    var relocatable := false;
    var imageEnd, imageSize, maxPaddr := unset, 0, 0;
    for i := 0 to |ps|
      invariant relocatable <==> exists p <- ps[..i] :: p.relocatable
      invariant imageSize == TotalSize(ps[..i]) && imageSize <= i * 0xFFFF_FFFF
      invariant maxPaddr == MaxPaddr(ps[..i]) && imageEnd == ImageEnd(ps[..i], unset)
    {
      assert ps[..i + 1][..i] == ps[..i] && ps[..i + 1] == ps[..i] + [ps[i]];
      if ps[i].relocatable { relocatable := true; }
      if ps[i].paddr > maxPaddr {
        imageEnd := (ps[i].paddr + ps[i].memsz) % 0x1_0000_0000;
        maxPaddr := ps[i].paddr;
      }
      imageSize := imageSize + ps[i].memsz;
    }
    assert ps[..|ps|] == ps;
    if imageSize > U64_MAX - mdataSize || region.Length < imageSize + mdataSize { return 0; }
    var imageStart: U64 := if relocatable then 0 else phys;
    var moffset := region.Length - mdataSize;
    if moffset > region.Length || imageStart > U64_MAX - moffset || virt > U64_MAX - moffset { return 0; }
    if imageEnd <= imageStart + moffset {
      Memcpy(region, moffset, mdata);
      return moffset;
    }
    result := 0;
  }

  method Memcpy(region: array<byte>, at: nat, bytes: seq<byte>)
    requires at + |bytes| <= region.Length
    modifies region
    ensures region[..] == old(region[..])[..at] + bytes + old(region[..])[at + |bytes|..]
  {
    for i := 0 to |bytes|
      invariant forall j :: 0 <= j < region.Length ==>
                  region[j] == if at <= j < at + i then bytes[j - at] else old(region[..])[j]
    {
      region[at + i] := bytes[i];
    }
  }
}
