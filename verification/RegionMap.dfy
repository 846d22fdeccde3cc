/**
  hyp_udmabuf.c: a buffer made of guest memory regions, validated when it is created and mapped into a process by one
  remap_pfn_range call for each region.
 */
module RegionMap {
  import opened Common
  import opened Errno

  datatype Region = Region(addr: nat, len: nat)

  /** A call of remap_pfn_range. */
  datatype Remap = Remap(start: nat, pfn: nat, len: nat)

  predicate PageAligned(x: nat) { x % 4096 == 0 }

  /** Length of the first i regions. */
  function Before(rs: seq<Region>, i: nat): nat
    requires i <= |rs|
  {
    if i == 0 then 0 else Before(rs, i - 1) + rs[i - 1].len
  }

  function Total(rs: seq<Region>): nat { Before(rs, |rs|) }

  /** The bytes of all regions, one region after the other, each byte as its physical address. */
  function Flatten(rs: seq<Region>): seq<nat> {
    if rs == [] then []
    else
      var last := rs[|rs| - 1];
      Flatten(rs[..|rs| - 1]) + seq(last.len, i requires 0 <= i => last.addr + i)
  }

  // hyp_udmabuf_create.

  predicate AcceptableAt(rs: seq<Region>, i: nat)
    requires i < |rs|
  {
    PageAligned(rs[i].addr) && (PageAligned(rs[i].len) || i == |rs| - 1)
  }

  predicate Acceptable(rs: seq<Region>) { forall i: nat :: i < |rs| ==> AcceptableAt(rs, i) }

  lemma AcceptableIs(rs: seq<Region>)
    ensures Acceptable(rs) <==>
            forall i :: 0 <= i < |rs| ==> rs[i].addr % 4096 == 0 && (rs[i].len % 4096 == 0 || i == |rs| - 1)
  {
    if Acceptable(rs) {
      forall i | 0 <= i < |rs| ensures rs[i].addr % 4096 == 0 && (rs[i].len % 4096 == 0 || i == |rs| - 1) {
        assert AcceptableAt(rs, i);
      }
    }
  }

  /** The validation loop; the size is summed in 64 bits. */
  method Validate(rs: seq<Region>) returns (ret: int, size: nat)
    ensures ret == 0 <==> Acceptable(rs)
    ensures ret == 0 <==> forall i :: 0 <= i < |rs| ==> rs[i].addr % 4096 == 0 && (rs[i].len % 4096 == 0 || i == |rs| - 1)
    ensures ret != 0 ==> ret == EINVAL
    ensures ret == 0 ==> size == Total(rs) % 0x1_0000_0000_0000_0000
    ensures ret == 0 && Total(rs) < 0x1_0000_0000_0000_0000 ==> size == |Flatten(rs)|
  {
    size := 0;
    for i := 0 to |rs|
      invariant forall j: nat :: j < i ==> AcceptableAt(rs, j)
      invariant size == Before(rs, i) % 0x1_0000_0000_0000_0000
    {
      if rs[i].addr % 4096 == 0 && (rs[i].len % 4096 == 0 || i == |rs| - 1) {
        size := (size + rs[i].len) % 0x1_0000_0000_0000_0000;
      } else {
        assert !AcceptableAt(rs, i);
        AcceptableIs(rs);
        return EINVAL, 0;
      }
    }
    FlattenLength(rs);
    AcceptableIs(rs);
    ret := 0;
  }

  // hyp_udmabuf_mmap.

  /** The call made for region i of a mapping of `length` bytes at vmStart. */
  function CallAt(rs: seq<Region>, vmStart: nat, length: nat, i: nat): Remap
    requires i < |rs|
  {
    var at := Min(length, Before(rs, i));
    Remap(vmStart + at, rs[i].addr / 4096, Min(rs[i].len, length - at))
  }

  /** Region i finds room: it is empty or the regions before it leave some. */
  predicate FitsAt(rs: seq<Region>, length: nat, i: nat)
    requires i < |rs|
  {
    rs[i].len > 0 ==> Before(rs, i) < length
  }

  predicate AllFit(rs: seq<Region>, length: nat) { forall i: nat :: i < |rs| ==> FitsAt(rs, length, i) }

  method Mmap(rs: seq<Region>, vmStart: nat, vmEnd: nat, remapRet: seq<int>) returns (ret: int, calls: seq<Remap>)
    requires vmStart <= vmEnd && |remapRet| == |rs|
    ensures rs == [] ==> ret == EINVAL && calls == []
    ensures |calls| <= |rs| && forall i: nat :: i < |calls| ==> calls[i] == CallAt(rs, vmStart, vmEnd - vmStart, i)
    ensures ret == 0 ==> |calls| == |rs| > 0
    ensures rs != [] && (forall r <- remapRet :: r == 0) ==>
              (ret == 0 <==> AllFit(rs, vmEnd - vmStart))
  {
    calls := [];
    var start := vmStart;
    if |rs| == 0 { return EINVAL, []; }
    ghost var length := vmEnd - vmStart;
    for i := 0 to |rs|
      invariant |calls| == i && start == vmStart + Min(length, Before(rs, i))
      invariant forall j: nat :: j < i ==> calls[j] == CallAt(rs, vmStart, length, j) && FitsAt(rs, length, j)
    {
      var len;
      if vmEnd - start < rs[i].len {
        if start < vmEnd {
          len := vmEnd - start;
        } else {
          assert !FitsAt(rs, length, i);
          return EINVAL, calls;
        }
      } else {
        len := rs[i].len;
      }
      assert Remap(start, rs[i].addr / 4096, len) == CallAt(rs, vmStart, length, i);
      calls := calls + [Remap(start, rs[i].addr / 4096, len)];
      assert remapRet[i] in remapRet;
      if remapRet[i] < 0 { return remapRet[i], calls; }
      start := start + len;
    }
    ret := 0;
  }

  lemma {:induction false} BeforeMonotone(rs: seq<Region>, i: nat, j: nat)
    requires i <= j <= |rs|
    ensures Before(rs, i) <= Before(rs, j)
  {
    if i < j { BeforeMonotone(rs, i, j - 1); }
  }

  /** For non-empty regions: mmap succeeds exactly when all regions but the last are shorter than the mapping. */
  lemma FitsExactly(rs: seq<Region>, length: nat)
    requires rs != [] && forall r <- rs :: r.len > 0
    ensures AllFit(rs, length) <==> Before(rs, |rs| - 1) < length
  {
    if Before(rs, |rs| - 1) < length {
      forall i: nat | i < |rs| ensures FitsAt(rs, length, i) { BeforeMonotone(rs, i, |rs| - 1); }
    } else {
      assert rs[|rs| - 1] in rs;
      assert !FitsAt(rs, length, |rs| - 1);
    }
  }

  lemma {:induction false} FlattenLength(rs: seq<Region>)
    ensures |Flatten(rs)| == Total(rs)
  {
    if rs != [] {
      FlattenLength(rs[..|rs| - 1]);
      BeforeOfPrefix(rs, |rs| - 1, |rs| - 1);
    }
  }

  lemma {:induction false} BeforeOfPrefix(rs: seq<Region>, n: nat, i: nat)
    requires i <= n <= |rs|
    ensures Before(rs[..n], i) == Before(rs, i)
  {
    if i > 0 { BeforeOfPrefix(rs, n, i - 1); }
  }

  lemma {:induction false} FlattenAt(rs: seq<Region>, i: nat, o: nat)
    requires i < |rs| && o < rs[i].len
    ensures Before(rs, i) + o < |Flatten(rs)| && Flatten(rs)[Before(rs, i) + o] == rs[i].addr + o
    decreases |rs|
  {
    var init := rs[..|rs| - 1];
    FlattenLength(init);
    BeforeOfPrefix(rs, |rs| - 1, i);
    BeforeOfPrefix(rs, |rs| - 1, |rs| - 1);
    if i < |rs| - 1 { FlattenAt(init, i, o); }
  }

  predicate Covers(c: Remap, va: nat) { c.start <= va < c.start + c.len }

  /** The region that byte k belongs to. */
  lemma {:induction false} Owner(rs: seq<Region>, n: nat, k: nat) returns (i: nat)
    requires n <= |rs| && k < Before(rs, n)
    ensures i < n && Before(rs, i) <= k < Before(rs, i) + rs[i].len
  {
    if Before(rs, n - 1) <= k { i := n - 1; } else { i := Owner(rs, n - 1, k); }
  }

  /** Consecutive calls are adjacent, the first starts the mapping, and the last ends it at min(length, total). */
  lemma CallsAreAdjacent(rs: seq<Region>, vmStart: nat, length: nat, i: nat)
    requires i < |rs|
    ensures CallAt(rs, vmStart, length, 0).start == vmStart
    ensures var c := CallAt(rs, vmStart, length, i);
            c.start + c.len == if i + 1 < |rs| then CallAt(rs, vmStart, length, i + 1).start
                               else vmStart + Min(length, Total(rs))
  {
  }

  /**
    The calls tile [vmStart, vmStart + min(length, total)): every address there is covered by exactly one call, which
    maps offset k to byte k of the concatenated regions, and no address outside is covered.
   */
  lemma OffsetMapsToByte(rs: seq<Region>, vmStart: nat, length: nat, k: nat)
    requires Acceptable(rs) && k < Min(length, Total(rs))
    ensures k < |Flatten(rs)|
    ensures exists i: nat :: i < |rs| && Covers(CallAt(rs, vmStart, length, i), vmStart + k)
    ensures forall i: nat :: i < |rs| && Covers(CallAt(rs, vmStart, length, i), vmStart + k) ==>
              var c := CallAt(rs, vmStart, length, i);
              c.pfn * 4096 + (vmStart + k - c.start) == Flatten(rs)[k]
    ensures forall i: nat, j: nat :: i < j < |rs| && Covers(CallAt(rs, vmStart, length, i), vmStart + k) ==>
              !Covers(CallAt(rs, vmStart, length, j), vmStart + k)
  {
    FlattenLength(rs);
    var i := Owner(rs, |rs|, k);
    assert Covers(CallAt(rs, vmStart, length, i), vmStart + k);
    forall i: nat | i < |rs| && Covers(CallAt(rs, vmStart, length, i), vmStart + k)
      ensures var c := CallAt(rs, vmStart, length, i); c.pfn * 4096 + (vmStart + k - c.start) == Flatten(rs)[k]
    {
      assert AcceptableAt(rs, i);
      FlattenAt(rs, i, k - Before(rs, i));
    }
    forall i: nat, j: nat | i < j < |rs| && Covers(CallAt(rs, vmStart, length, i), vmStart + k)
      ensures !Covers(CallAt(rs, vmStart, length, j), vmStart + k)
    {
      BeforeMonotone(rs, i + 1, j);
    }
  }

  lemma NothingOutside(rs: seq<Region>, vmStart: nat, length: nat, i: nat, va: nat)
    requires i < |rs| && Covers(CallAt(rs, vmStart, length, i), va)
    ensures vmStart <= va < vmStart + Min(length, Total(rs))
  {
    BeforeMonotone(rs, i + 1, |rs|);
  }

  /** Every call starts on a page boundary when the mapping does. */
  lemma {:induction false} CallsArePageAligned(rs: seq<Region>, vmStart: nat, length: nat, i: nat)
    requires i < |rs| && Acceptable(rs) && PageAligned(vmStart) && PageAligned(length)
    ensures PageAligned(CallAt(rs, vmStart, length, i).start)
  {
    BeforeAligned(rs, i);
  }

  lemma {:induction false} BeforeAligned(rs: seq<Region>, i: nat)
    requires i < |rs| && Acceptable(rs)
    ensures PageAligned(Before(rs, i))
  {
    if i > 0 {
      BeforeAligned(rs, i - 1);
      assert AcceptableAt(rs, i - 1);
    }
  }
}
