/** The byte layout of a lend/share/donate request: header, ACL, SGL and attribute sections, one behind the other. */
module MemRequest {
  import opened Common
  import opened Bytes
  import opened MemShare

  datatype Acl = Acl(vmid: nat, perms: byte)
  datatype Attr = Attr(attr: nat, vmid: nat)

  /** Everything a request says. */
  datatype Request = Request(memType: byte, flags: byte, labelId: nat, acl: seq<Acl>, sgl: seq<Sgl>, attrs: seq<Attr>) {
    ghost predicate Valid() {
      && labelId < 0x1_0000_0000 && |acl| < 0x1_0000_0000 && |sgl| < 0x1_0000 && |attrs| < 0x1_0000
      && (forall i :: 0 <= i < |acl| ==> acl[i].vmid < 0x1_0000)
      && (forall i :: 0 <= i < |sgl| ==> sgl[i].ipaBase < 0x1_0000_0000_0000_0000 && sgl[i].size < 0x1_0000_0000_0000_0000)
      && (forall i :: 0 <= i < |attrs| ==> attrs[i].attr < 0x1_0000 && attrs[i].vmid < 0x1_0000)
    }
  }

  // ---------------------------------------------------------------------------------------------------------------
  // Records and sections

  function EncodeAcl(e: Acl): (b: seq<byte>) ensures |b| == 4 { EncodeLE(e.vmid, 2) + [e.perms, 0] }
  function EncodeSgl(e: Sgl): (b: seq<byte>) ensures |b| == 16 { EncodeLE(e.ipaBase, 8) + EncodeLE(e.size, 8) }
  function EncodeAttr(e: Attr): (b: seq<byte>) ensures |b| == 4 { EncodeLE(e.attr, 2) + EncodeLE(e.vmid, 2) }

  function AclRecords(a: seq<Acl>): (r: seq<seq<byte>>) ensures |r| == |a| {
    seq(|a|, i requires 0 <= i < |a| => EncodeAcl(a[i]))
  }
  function SglRecords(a: seq<Sgl>): (r: seq<seq<byte>>) ensures |r| == |a| {
    seq(|a|, i requires 0 <= i < |a| => EncodeSgl(a[i]))
  }
  function AttrRecords(a: seq<Attr>): (r: seq<seq<byte>>) ensures |r| == |a| {
    seq(|a|, i requires 0 <= i < |a| => EncodeAttr(a[i]))
  }

  function HeaderSection(memType: byte, flags: byte, labelId: nat): (b: seq<byte>) ensures |b| == 8 {
    [memType, 0, flags, 0] + EncodeLE(labelId, 4)
  }
  function AclSection(acl: seq<Acl>): seq<byte> { EncodeLE(|acl|, 4) + Concat(AclRecords(acl)) }
  function SglSection(sgl: seq<Sgl>, reserved: nat): seq<byte> {
    EncodeLE(|sgl|, 2) + EncodeLE(reserved, 2) + Concat(SglRecords(sgl))
  }
  function AttrSection(attrs: seq<Attr>): seq<byte> { EncodeLE(|attrs|, 2) + [0, 0] + Concat(AttrRecords(attrs)) }

  /** The whole request. */
  function Layout(q: Request): seq<byte> {
    HeaderSection(q.memType, q.flags, q.labelId) + AclSection(q.acl) + SglSection(q.sgl, 0) + AttrSection(q.attrs)
  }

  /** Where each field of a record lies: vmid, perms and a zero byte; base and size; attribute and vmid. */
  lemma RecordLayout(a: Acl, s: Sgl, t: Attr)
    requires a.vmid < 0x1_0000 && t.attr < 0x1_0000 && t.vmid < 0x1_0000
    requires s.ipaBase < 0x1_0000_0000_0000_0000 && s.size < 0x1_0000_0000_0000_0000
    ensures var b := EncodeAcl(a); Number2(b[0], b[1]) == a.vmid && b[2] == a.perms && b[3] == 0
    ensures var b := EncodeSgl(s); DecodeLE(b[..8]) == s.ipaBase && DecodeLE(b[8..]) == s.size
    ensures var b := EncodeAttr(t); Number2(b[0], b[1]) == t.attr && Number2(b[2], b[3]) == t.vmid
  {
    Widths();
    LittleEndianRoundTrip(a.vmid, 2);
    LittleEndianRoundTrip(s.ipaBase, 8);
    LittleEndianRoundTrip(s.size, 8);
    LittleEndianRoundTrip(t.attr, 2);
    LittleEndianRoundTrip(t.vmid, 2);
    TwoAndFourBytes(EncodeLE(a.vmid, 2));
    TwoAndFourBytes(EncodeLE(t.attr, 2));
    TwoAndFourBytes(EncodeLE(t.vmid, 2));
    hide EncodeLE, DecodeLE;
    assert EncodeSgl(s)[..8] == EncodeLE(s.ipaBase, 8) && EncodeSgl(s)[8..] == EncodeLE(s.size, 8);
  }

  /** Records of one width lie at multiples of it. */
  lemma {:induction false} RecordAt(parts: seq<seq<byte>>, w: nat)
    requires forall i :: 0 <= i < |parts| ==> |parts[i]| == w
    ensures |Concat(parts)| == w * |parts|
    ensures forall i: nat :: i < |parts| ==> RecordIs(parts, w, i)
  {
    if parts != [] {
      var rest := parts[1..];
      RecordAt(rest, w);
      assert w * |parts| == w + w * |rest|;
      forall i: nat | i < |parts| ensures RecordIs(parts, w, i) {
        if i > 0 {
          assert RecordIs(rest, w, i - 1);
          assert w * i == w + w * (i - 1) && w * (i + 1) == w + w * i;
          assert w * i <= w * |rest| by { assert w * (|rest| - i) >= 0; }
          assert rest[i - 1] == parts[i];
          var all := Concat(parts);
          assert all == parts[0] + Concat(rest);
          assert all[w * i .. w * i + w] == Concat(rest)[w * (i - 1) .. w * (i - 1) + w];
        }
      }
    }
  }

  ghost predicate RecordIs(parts: seq<seq<byte>>, w: nat, i: nat)
    requires i < |parts|
  {
    w * i + w <= |Concat(parts)| && Concat(parts)[w * i .. w * i + w] == parts[i]
  }

  // ---------------------------------------------------------------------------------------------------------------
  // Sizes

  /** gh_rm_alloc_mem_request_buf. */
  function AllocSize(nAcl: nat, nSgl: nat, nAttr: nat): nat {
    8 + (4 + 4 * nAcl) + (4 + 16 * nSgl) + (4 + 4 * nAttr)
  }

  lemma SectionSizes(q: Request)
    ensures |AclSection(q.acl)| == 4 + 4 * |q.acl|
    ensures |SglSection(q.sgl, 0)| == 4 + 16 * |q.sgl|
    ensures |AttrSection(q.attrs)| == 4 + 4 * |q.attrs|
    ensures |Layout(q)| == AllocSize(|q.acl|, |q.sgl|, |q.attrs|)
  {
    RecordAt(AclRecords(q.acl), 4);
    RecordAt(SglRecords(q.sgl), 16);
    RecordAt(AttrRecords(q.attrs), 4);
  }

  /**
    The helper keeps the ACL count in a u16 before allocating, the populator writes the full u32 count of entries:
    the allocation is exactly as long as what is written if and only if there are at most 65535 ACL entries.
   */
  lemma AllocationMatches(q: Request)
    requires q.Valid()
    ensures AllocSize(|q.acl| % 0x1_0000, |q.sgl|, |q.attrs|) == |Layout(q)| <==> |q.acl| <= 0xFFFF
  {
    SectionSizes(q);
    hide Layout, AclSection, SglSection, AttrSection, Concat;
  }

  // ---------------------------------------------------------------------------------------------------------------
  // An independent reader

  function DecodeAclAt(b: seq<byte>, at: nat): Acl
    requires at + 4 <= |b|
  {
    Acl(DecodeLE(b[at .. at + 2]), b[at + 2])
  }
  function DecodeSglAt(b: seq<byte>, at: nat): Sgl
    requires at + 16 <= |b|
  {
    Sgl(DecodeLE(b[at .. at + 8]), DecodeLE(b[at + 8 .. at + 16]))
  }
  function DecodeAttrAt(b: seq<byte>, at: nat): Attr
    requires at + 4 <= |b|
  {
    Attr(DecodeLE(b[at .. at + 2]), DecodeLE(b[at + 2 .. at + 4]))
  }

  /** Reads a request from its bytes alone, following the counts it finds; fails unless the bytes end with the last section. */
  function Decode(b: seq<byte>): Option<Request> {
    if |b| < 12 then None else
    var nAcl := DecodeLE(b[8..12]);
    var sglAt := 12 + 4 * nAcl;
    if |b| < sglAt + 4 then None else
    var nSgl := DecodeLE(b[sglAt .. sglAt + 2]);
    var attrAt := sglAt + 4 + 16 * nSgl;
    if |b| < attrAt + 4 then None else
    var nAttr := DecodeLE(b[attrAt .. attrAt + 2]);
    if |b| != attrAt + 4 + 4 * nAttr then None else
    Some(Request(b[0], b[2], DecodeLE(b[4..8]),
                 seq(nAcl, i requires 0 <= i < nAcl => DecodeAclAt(b, 12 + 4 * i)),
                 seq(nSgl, i requires 0 <= i < nSgl => DecodeSglAt(b, sglAt + 4 + 16 * i)),
                 seq(nAttr, i requires 0 <= i < nAttr => DecodeAttrAt(b, attrAt + 4 + 4 * i))))
  }

  /** `part` is what `b` holds at offset `p`. */
  ghost predicate At(b: seq<byte>, p: nat, part: seq<byte>) {
    p + |part| <= |b| && b[p .. p + |part|] == part
  }

  lemma AtPart(b: seq<byte>, p: nat, left: seq<byte>, right: seq<byte>)
    requires At(b, p, left + right)
    ensures At(b, p, left) && At(b, p + |left|, right)
  {
    var whole := left + right;
    assert left == whole[..|left|] && right == whole[|left|..];
    assert b[p .. p + |whole|][..|left|] == b[p .. p + |left|];
    assert b[p .. p + |whole|][|left|..] == b[p + |left| .. p + |whole|];
  }

  /** Records that follow one another are each found at their own offset. */
  lemma {:induction false} AtRecords(b: seq<byte>, p: nat, parts: seq<seq<byte>>, w: nat, i: nat)
    requires At(b, p, Concat(parts)) && i < |parts| && forall j :: 0 <= j < |parts| ==> |parts[j]| == w
    ensures At(b, p + w * i, parts[i])
    decreases i
  {
    AtPart(b, p, parts[0], Concat(parts[1..]));
    if i > 0 {
      AtRecords(b, p + w, parts[1..], w, i - 1);
      assert w + w * (i - 1) == w * i;
    }
  }

  lemma AclRecordReadsBack(b: seq<byte>, p: nat, e: Acl)
    requires At(b, p, EncodeAcl(e)) && e.vmid < 0x1_0000
    ensures p + 4 <= |b| && DecodeAclAt(b, p) == e
  {
    Widths();
    AtPart(b, p, EncodeLE(e.vmid, 2), [e.perms, 0]);
    LittleEndianRoundTrip(e.vmid, 2);
    hide EncodeLE, DecodeLE;
    assert b[p + 2 .. p + 4][0] == b[p + 2];
  }

  lemma AclSectionSplits(q: Request, b: seq<byte>, at: nat)
    requires q.Valid() && At(b, at, AclSection(q.acl))
    ensures At(b, at + 4, Concat(AclRecords(q.acl)))
    ensures at + 4 <= |b| && DecodeLE(b[at .. at + 4]) == |q.acl|
  {
    Widths();
    LittleEndianRoundTrip(|q.acl|, 4);
    hide Concat, EncodeLE, DecodeLE, AclRecords;
    AtPart(b, at, EncodeLE(|q.acl|, 4), Concat(AclRecords(q.acl)));
  }

  lemma AclReadAt(q: Request, b: seq<byte>, at: nat, i: nat)
    requires q.Valid() && At(b, at + 4, Concat(AclRecords(q.acl))) && i < |q.acl|
    ensures at + 4 + 4 * i + 4 <= |b| && DecodeAclAt(b, at + 4 + 4 * i) == q.acl[i]
  {
    hide Concat, EncodeLE, DecodeLE, At, EncodeAcl, DecodeAclAt;
    AtRecords(b, at + 4, AclRecords(q.acl), 4, i);
    AclRecordReadsBack(b, at + 4 + 4 * i, q.acl[i]);
  }

  lemma AclReadsBack(q: Request, b: seq<byte>, at: nat)
    requires q.Valid() && At(b, at, AclSection(q.acl))
    ensures at + 4 <= |b| && DecodeLE(b[at .. at + 4]) == |q.acl|
    ensures forall i :: 0 <= i < |q.acl| ==> at + 4 + 4 * i + 4 <= |b| && DecodeAclAt(b, at + 4 + 4 * i) == q.acl[i]
  {
    hide AclRecords, Concat, DecodeLE, AclSection, At, DecodeAclAt;
    AclSectionSplits(q, b, at);
    forall i | 0 <= i < |q.acl| ensures at + 4 + 4 * i + 4 <= |b| && DecodeAclAt(b, at + 4 + 4 * i) == q.acl[i] {
      AclReadAt(q, b, at, i);
    }
  }

  lemma SglRecordReadsBack(b: seq<byte>, p: nat, e: Sgl)
    requires At(b, p, EncodeSgl(e)) && e.ipaBase < 0x1_0000_0000_0000_0000 && e.size < 0x1_0000_0000_0000_0000
    ensures p + 16 <= |b| && DecodeSglAt(b, p) == e
  {
    Widths();
    AtPart(b, p, EncodeLE(e.ipaBase, 8), EncodeLE(e.size, 8));
    LittleEndianRoundTrip(e.ipaBase, 8);
    LittleEndianRoundTrip(e.size, 8);
    hide EncodeLE, DecodeLE;
  }

  lemma SglSectionSplits(q: Request, b: seq<byte>, at: nat)
    requires q.Valid() && At(b, at, SglSection(q.sgl, 0))
    ensures At(b, at + 4, Concat(SglRecords(q.sgl)))
    ensures at + 4 <= |b| && DecodeLE(b[at .. at + 2]) == |q.sgl|
  {
    Widths();
    LittleEndianRoundTrip(|q.sgl|, 2);
    hide Concat, EncodeLE, DecodeLE, SglRecords;
    AtPart(b, at, EncodeLE(|q.sgl|, 2) + EncodeLE(0, 2), Concat(SglRecords(q.sgl)));
    AtPart(b, at, EncodeLE(|q.sgl|, 2), EncodeLE(0, 2));
  }

  lemma SglReadAt(q: Request, b: seq<byte>, at: nat, i: nat)
    requires q.Valid() && At(b, at + 4, Concat(SglRecords(q.sgl))) && i < |q.sgl|
    ensures at + 4 + 16 * i + 16 <= |b| && DecodeSglAt(b, at + 4 + 16 * i) == q.sgl[i]
  {
    hide Concat, EncodeLE, DecodeLE, At, EncodeSgl, DecodeSglAt;
    AtRecords(b, at + 4, SglRecords(q.sgl), 16, i);
    SglRecordReadsBack(b, at + 4 + 16 * i, q.sgl[i]);
  }

  lemma SglReadsBack(q: Request, b: seq<byte>, at: nat)
    requires q.Valid() && At(b, at, SglSection(q.sgl, 0))
    ensures at + 4 <= |b| && DecodeLE(b[at .. at + 2]) == |q.sgl|
    ensures forall i :: 0 <= i < |q.sgl| ==> at + 4 + 16 * i + 16 <= |b| && DecodeSglAt(b, at + 4 + 16 * i) == q.sgl[i]
  {
    hide SglRecords, Concat, DecodeLE, SglSection, At, DecodeSglAt;
    SglSectionSplits(q, b, at);
    forall i | 0 <= i < |q.sgl| ensures at + 4 + 16 * i + 16 <= |b| && DecodeSglAt(b, at + 4 + 16 * i) == q.sgl[i] {
      SglReadAt(q, b, at, i);
    }
  }

  lemma AttrRecordReadsBack(b: seq<byte>, p: nat, e: Attr)
    requires At(b, p, EncodeAttr(e)) && e.attr < 0x1_0000 && e.vmid < 0x1_0000
    ensures p + 4 <= |b| && DecodeAttrAt(b, p) == e
  {
    Widths();
    AtPart(b, p, EncodeLE(e.attr, 2), EncodeLE(e.vmid, 2));
    LittleEndianRoundTrip(e.attr, 2);
    LittleEndianRoundTrip(e.vmid, 2);
    hide EncodeLE, DecodeLE;
  }

  lemma AttrSectionSplits(q: Request, b: seq<byte>, at: nat)
    requires q.Valid() && At(b, at, AttrSection(q.attrs))
    ensures At(b, at + 4, Concat(AttrRecords(q.attrs)))
    ensures at + 4 <= |b| && DecodeLE(b[at .. at + 2]) == |q.attrs|
  {
    Widths();
    LittleEndianRoundTrip(|q.attrs|, 2);
    hide Concat, EncodeLE, DecodeLE, AttrRecords;
    AtPart(b, at, EncodeLE(|q.attrs|, 2) + [0, 0], Concat(AttrRecords(q.attrs)));
    AtPart(b, at, EncodeLE(|q.attrs|, 2), [0, 0]);
  }

  lemma AttrReadAt(q: Request, b: seq<byte>, at: nat, i: nat)
    requires q.Valid() && At(b, at + 4, Concat(AttrRecords(q.attrs))) && i < |q.attrs|
    ensures at + 4 + 4 * i + 4 <= |b| && DecodeAttrAt(b, at + 4 + 4 * i) == q.attrs[i]
  {
    hide Concat, EncodeLE, DecodeLE, At, EncodeAttr, DecodeAttrAt;
    AtRecords(b, at + 4, AttrRecords(q.attrs), 4, i);
    AttrRecordReadsBack(b, at + 4 + 4 * i, q.attrs[i]);
  }

  lemma AttrReadsBack(q: Request, b: seq<byte>, at: nat)
    requires q.Valid() && At(b, at, AttrSection(q.attrs))
    ensures at + 4 <= |b| && DecodeLE(b[at .. at + 2]) == |q.attrs|
    ensures forall i :: 0 <= i < |q.attrs| ==> at + 4 + 4 * i + 4 <= |b| && DecodeAttrAt(b, at + 4 + 4 * i) == q.attrs[i]
  {
    hide AttrRecords, Concat, DecodeLE, AttrSection, At, DecodeAttrAt;
    AttrSectionSplits(q, b, at);
    forall i | 0 <= i < |q.attrs| ensures at + 4 + 4 * i + 4 <= |b| && DecodeAttrAt(b, at + 4 + 4 * i) == q.attrs[i] {
      AttrReadAt(q, b, at, i);
    }
  }

  lemma HeaderReadsBack(q: Request, b: seq<byte>)
    requires q.Valid() && At(b, 0, HeaderSection(q.memType, q.flags, q.labelId))
    ensures |b| >= 8 && b[0] == q.memType && b[1] == 0 && b[2] == q.flags && b[3] == 0 && DecodeLE(b[4..8]) == q.labelId
  {
    AtPart(b, 0, [q.memType, 0, q.flags, 0], EncodeLE(q.labelId, 4));
    Widths();
    LittleEndianRoundTrip(q.labelId, 4);
    hide EncodeLE, DecodeLE;
    assert b[0..4] == [b[0], b[1], b[2], b[3]];
  }

  /** What the reader puts together once every part reads back. */
  lemma DecodeFrom(q: Request, b: seq<byte>)
    requires |b| == 20 + 4 * |q.acl| + 16 * |q.sgl| + 4 * |q.attrs|
    requires b[0] == q.memType && b[2] == q.flags && DecodeLE(b[4..8]) == q.labelId
    requires DecodeLE(b[8..12]) == |q.acl|
    requires var sglAt := 12 + 4 * |q.acl|;
             && DecodeLE(b[sglAt .. sglAt + 2]) == |q.sgl|
             && DecodeLE(b[sglAt + 4 + 16 * |q.sgl| .. sglAt + 6 + 16 * |q.sgl|]) == |q.attrs|
             && (forall i :: 0 <= i < |q.acl| ==> DecodeAclAt(b, 12 + 4 * i) == q.acl[i])
             && (forall i :: 0 <= i < |q.sgl| ==> DecodeSglAt(b, sglAt + 4 + 16 * i) == q.sgl[i])
             && (forall i :: 0 <= i < |q.attrs| ==> DecodeAttrAt(b, sglAt + 8 + 16 * |q.sgl| + 4 * i) == q.attrs[i])
    ensures Decode(b) == Some(q)
  {
    hide DecodeLE, DecodeAclAt, DecodeSglAt, DecodeAttrAt;
    var d := Decode(b);
    assert d.Some?;
    assert d.value.acl == q.acl && d.value.sgl == q.sgl && d.value.attrs == q.attrs;
  }

  /** Each section of the layout is found at the end of the one before it. */
  lemma SectionsAt(q: Request)
    ensures var b := Layout(q);
            var a, s := AclSection(q.acl), SglSection(q.sgl, 0);
            && At(b, 0, HeaderSection(q.memType, q.flags, q.labelId)) && At(b, 8, a) && At(b, 8 + |a|, s)
            && At(b, 8 + |a| + |s|, AttrSection(q.attrs))
  {
    hide HeaderSection, AclSection, SglSection, AttrSection, EncodeLE, Concat;
    var b := Layout(q);
    var h, a, s, t := HeaderSection(q.memType, q.flags, q.labelId), AclSection(q.acl), SglSection(q.sgl, 0), AttrSection(q.attrs);
    assert At(b, 0, h + a + s + t);
    hide At, Layout;
    AtPart(b, 0, h + a + s, t);
    AtPart(b, 0, h + a, s);
    AtPart(b, 0, h, a);
  }

  /** Reading the bytes of a request gives back the whole request: no section reaches into another. */
  lemma LayoutRoundTrip(q: Request)
    requires q.Valid()
    ensures Decode(Layout(q)) == Some(q)
  {
    hide HeaderSection, AclSection, SglSection, AttrSection, Layout, At, Decode, EncodeLE, DecodeLE, Concat,
         DecodeAclAt, DecodeSglAt, DecodeAttrAt;
    var b := Layout(q);
    SectionsAt(q);
    SectionSizes(q);
    HeaderReadsBack(q, b);
    AclReadsBack(q, b, 8);
    SglReadsBack(q, b, 12 + 4 * |q.acl|);
    AttrReadsBack(q, b, 16 + 4 * |q.acl| + 16 * |q.sgl|);
    DecodeFrom(q, b);
  }

  // ---------------------------------------------------------------------------------------------------------------
  // Filling the buffer in place

  /** Nothing outside [lo, hi) differs. */
  ghost predicate SameOutside(now: seq<byte>, before: seq<byte>, lo: nat, hi: nat) {
    |now| == |before| && forall i :: 0 <= i < |now| && !(lo <= i < hi) ==> now[i] == before[i]
  }

  lemma StaysAt(now: seq<byte>, before: seq<byte>, lo: nat, hi: nat, p: nat, part: seq<byte>)
    requires At(before, p, part) && SameOutside(now, before, lo, hi) && (p + |part| <= lo || hi <= p)
    ensures At(now, p, part)
  {
    assert now[p .. p + |part|] == before[p .. p + |part|];
  }

  lemma AtJoin(b: seq<byte>, p: nat, left: seq<byte>, right: seq<byte>)
    requires At(b, p, left) && At(b, p + |left|, right)
    ensures At(b, p, left + right)
  {
    assert b[p .. p + |left| + |right|] == b[p .. p + |left|] + b[p + |left| .. p + |left| + |right|];
  }

  lemma AtThree(b: seq<byte>, p: nat, x: seq<byte>, y: seq<byte>, z: seq<byte>)
    requires At(b, p, x) && At(b, p + |x|, y + z)
    ensures At(b, p, x + y + z)
  {
    AtJoin(b, p, x, y + z);
    assert x + (y + z) == x + y + z;
  }

  lemma OutsideBoth(b2: seq<byte>, b1: seq<byte>, b0: seq<byte>, lo1: nat, hi1: nat, lo2: nat, hi2: nat, lo: nat, hi: nat)
    requires SameOutside(b1, b0, lo1, hi1) && SameOutside(b2, b1, lo2, hi2)
    requires lo <= lo1 && lo <= lo2 && hi1 <= hi && hi2 <= hi
    ensures SameOutside(b2, b0, lo, hi)
  {
  }

  /** Zero bytes in [lo, hi). */
  ghost predicate Zeroed(b: seq<byte>, lo: nat, hi: nat) {
    hi <= |b| && forall i :: lo <= i < hi ==> b[i] == 0
  }

  lemma StaysZero(now: seq<byte>, before: seq<byte>, lo: nat, hi: nat, a: nat, z: nat)
    requires Zeroed(before, a, z) && SameOutside(now, before, lo, hi) && (z <= lo || hi <= a)
    ensures Zeroed(now, a, z)
  {
  }

  /** Stores bytes at an offset and nothing else. */
  method Store(buf: array<byte>, at: nat, b: seq<byte>)
    requires at + |b| <= buf.Length
    modifies buf
    ensures At(buf[..], at, b) && SameOutside(buf[..], old(buf[..]), at, at + |b|)
  {
    forall i | 0 <= i < |b| { buf[at + i] := b[i]; }
  }

  /** One ACL entry: vmid and perms are stored, the reserved byte is left as it is. */
  method StoreAclEntry(buf: array<byte>, p: nat, e: Acl)
    requires p + 4 <= buf.Length && buf[p + 3] == 0
    modifies buf
    ensures At(buf[..], p, EncodeAcl(e)) && SameOutside(buf[..], old(buf[..]), p, p + 4)
  {
    Store(buf, p, EncodeLE(e.vmid, 2));
    ghost var b1 := buf[..];
    Store(buf, p + 2, [e.perms]);
    hide EncodeLE;
    StaysAt(buf[..], b1, p + 2, p + 3, p, EncodeLE(e.vmid, 2));
    assert buf[..][p + 2 .. p + 4] == [e.perms, 0];
    AtJoin(buf[..], p, EncodeLE(e.vmid, 2), [e.perms, 0]);
  }

  lemma NextRecord(parts: seq<seq<byte>>, i: nat)
    requires i < |parts|
    ensures Concat(parts[..i + 1]) == Concat(parts[..i]) + parts[i]
  {
    assert parts[..i + 1] == parts[..i] + [parts[i]];
    ConcatAppend(parts[..i], parts[i]);
  }

  /** What the ACL loop has done after i entries: the count and the records stored, the rest of the section still zero. */
  ghost predicate AclFilled(b: seq<byte>, at: nat, end: nat, count: seq<byte>, done: seq<byte>) {
    At(b, at, count) && At(b, at + 4, done) && Zeroed(b, at + 4 + |done|, end)
  }

  /** One turn of the loop. */
  method PopulateAclEntry(buf: array<byte>, at: nat, end: nat, i: nat, e: Acl, ghost count: seq<byte>, ghost done: seq<byte>)
    requires |count| == 4 && |done| == 4 * i && AclFilled(buf[..], at, end, count, done)
    requires at + 8 + 4 * i <= end <= buf.Length
    modifies buf
    ensures AclFilled(buf[..], at, end, count, done + EncodeAcl(e)) && SameOutside(buf[..], old(buf[..]), at, end)
  {
    hide EncodeAcl, At;
    var p := at + 4 + 4 * i;
    ghost var before := buf[..];
    StoreAclEntry(buf, p, e);
    hide SameOutside, Zeroed;
    StaysAt(buf[..], before, p, p + 4, at, count);
    StaysAt(buf[..], before, p, p + 4, at + 4, done);
    AtJoin(buf[..], at + 4, done, EncodeAcl(e));
    ShrinkZero(before, p, p + 4, end);
    StaysZero(buf[..], before, p, p + 4, p + 4, end);
    OutsideBoth(buf[..], before, before, p, p + 4, p, p + 4, at, end);
  }

  /** gh_rm_populate_acl_desc, into a zeroed section. */
  method PopulateAcl(buf: array<byte>, at: nat, acl: seq<Acl>)
    requires |acl| < 0x1_0000_0000 && Zeroed(buf[..], at, at + 4 + 4 * |acl|)
    modifies buf
    ensures |AclSection(acl)| == 4 + 4 * |acl| && At(buf[..], at, AclSection(acl))
    ensures SameOutside(buf[..], old(buf[..]), at, at + 4 + 4 * |acl|)
  {
    ghost var parts := AclRecords(acl);
    RecordAt(parts, 4);
    assert parts[..0] == [] && Concat(parts[..0]) == [];
    hide Concat, EncodeLE, EncodeAcl, RecordIs;
    var count := EncodeLE(|acl|, 4);
    ghost var b0 := buf[..];
    var end := at + 4 + 4 * |acl|;
    Store(buf, at, count);
    StaysZero(buf[..], b0, at, at + 4, at + 4, end);
    ghost var done: seq<byte> := [];
    var i := 0;
    assert AclFilled(buf[..], at, end, count, done);
    hide At, AclFilled, Zeroed;
    while i < |acl|
      invariant i <= |acl| && done == Concat(parts[..i]) && |done| == 4 * i
      invariant AclFilled(buf[..], at, end, count, done) && SameOutside(buf[..], b0, at, end)
    {
      hide SameOutside;
      ghost var before := buf[..];
      PopulateAclEntry(buf, at, end, i, acl[i], count, done);
      OutsideBoth(buf[..], before, b0, at, end, at, end, at, end);
      NextRecord(parts, i);
      done := done + EncodeAcl(acl[i]);
      i := i + 1;
    }
    assert parts[..i] == parts;
    AclDone(buf[..], at, end, count, done);
  }

  lemma AclDone(b: seq<byte>, at: nat, end: nat, count: seq<byte>, done: seq<byte>)
    requires |count| == 4 && AclFilled(b, at, end, count, done)
    ensures At(b, at, count + done)
  {
    AtJoin(b, at, count, done);
  }

  lemma ShrinkZero(b: seq<byte>, lo: nat, mid: nat, hi: nat)
    requires Zeroed(b, lo, hi) && lo <= mid
    ensures Zeroed(b, mid, hi)
  {
  }

  /** gh_rm_populate_sgl_desc: at most the first 512 entries, copied in one piece. */
  method PopulateSgl(buf: array<byte>, at: nat, sgl: seq<Sgl>, reserved: nat) returns (end: nat)
    requires at + 4 + 16 * Min(MAX_SGL_ENTRIES, |sgl|) <= buf.Length
    modifies buf
    ensures end == at + 4 + 16 * Min(MAX_SGL_ENTRIES, |sgl|)
    ensures At(buf[..], at, SglSection(sgl[..Min(MAX_SGL_ENTRIES, |sgl|)], reserved))
    ensures |SglSection(sgl[..Min(MAX_SGL_ENTRIES, |sgl|)], reserved)| == end - at
    ensures SameOutside(buf[..], old(buf[..]), at, end)
  {
    var n := Min(MAX_SGL_ENTRIES, |sgl|);
    var count, res, entries := EncodeLE(n, 2), EncodeLE(reserved, 2), Concat(SglRecords(sgl[..n]));
    RecordAt(SglRecords(sgl[..n]), 16);
    end := at + 4 + 16 * n;
    hide Concat, EncodeLE, SglRecords, RecordIs, At, SameOutside;
    ghost var b0 := buf[..];
    Store(buf, at, count);
    ghost var b1 := buf[..];
    Store(buf, at + 2, res);
    ghost var b2 := buf[..];
    StaysAt(b2, b1, at + 2, at + 4, at, count);
    AtJoin(b2, at, count, res);
    Store(buf, at + 4, entries);
    StaysAt(buf[..], b2, at + 4, end, at, count + res);
    AtJoin(buf[..], at, count + res, entries);
    OutsideBoth(b2, b1, b0, at, at + 2, at + 2, at + 4, at, end);
    OutsideBoth(buf[..], b2, b0, at, end, at + 4, end, at, end);
  }

  /** gh_rm_populate_mem_attr_desc, into a zeroed section. */
  method PopulateAttr(buf: array<byte>, at: nat, attrs: seq<Attr>)
    requires Zeroed(buf[..], at, at + 4 + 4 * |attrs|)
    modifies buf
    ensures |AttrSection(attrs)| == 4 + 4 * |attrs| && At(buf[..], at, AttrSection(attrs))
    ensures SameOutside(buf[..], old(buf[..]), at, at + 4 + 4 * |attrs|)
  {
    var count, entries := EncodeLE(|attrs|, 2), Concat(AttrRecords(attrs));
    RecordAt(AttrRecords(attrs), 4);
    ghost var b0 := buf[..];
    assert b0[at + 2 .. at + 4] == [0, 0];
    assert At(b0, at + 2, [0, 0]);
    var end := at + 4 + 4 * |attrs|;
    hide Concat, EncodeLE, AttrRecords, RecordIs, At, SameOutside;
    Store(buf, at, count);
    ghost var b1 := buf[..];
    StaysAt(b1, b0, at, at + 2, at + 2, [0, 0]);
    AtJoin(b1, at, count, [0, 0]);
    Store(buf, at + 4, entries);
    StaysAt(buf[..], b1, at + 4, end, at, count + [0, 0]);
    AtJoin(buf[..], at, count + [0, 0], entries);
    OutsideBoth(buf[..], b1, b0, at, at + 2, at + 4, end, at, end);
  }

  /** The SGL and attribute sections, one behind the other. */
  method PopulateSglAndAttr(buf: array<byte>, at: nat, sgl: seq<Sgl>, attrs: seq<Attr>)
    requires buf.Length == at + 8 + 16 * Min(MAX_SGL_ENTRIES, |sgl|) + 4 * |attrs| && Zeroed(buf[..], at, buf.Length)
    modifies buf
    ensures At(buf[..], at, SglSection(sgl[..Min(MAX_SGL_ENTRIES, |sgl|)], 0) + AttrSection(attrs))
    ensures SameOutside(buf[..], old(buf[..]), at, buf.Length)
  {
    var size := buf.Length;
    ghost var b1 := buf[..];
    hide Concat, EncodeLE, SglSection, AttrSection, At, SameOutside, Zeroed;
    var attrAt := PopulateSgl(buf, at, sgl, 0);
    ghost var b2 := buf[..];
    ghost var s := SglSection(sgl[..Min(MAX_SGL_ENTRIES, |sgl|)], 0);
    SplitZero(b1, at, attrAt, size);
    StaysZero(b2, b1, at, attrAt, attrAt, size);
    PopulateAttr(buf, attrAt, attrs);
    StaysAt(buf[..], b2, attrAt, size, at, s);
    AtJoin(buf[..], at, s, AttrSection(attrs));
    OutsideBoth(buf[..], b2, b1, at, attrAt, attrAt, size, at, size);
  }

  /** gh_rm_populate_mem_request: the three sections behind the header, each where the previous one ends. */
  method PopulateMemRequest(buf: array<byte>, acl: seq<Acl>, sgl: seq<Sgl>, attrs: seq<Attr>)
    requires |acl| < 0x1_0000_0000 && Zeroed(buf[..], 8, buf.Length)
    requires buf.Length == AllocSize(|acl|, Min(MAX_SGL_ENTRIES, |sgl|), |attrs|)
    modifies buf
    ensures At(buf[..], 8, AclSection(acl) + SglSection(sgl[..Min(MAX_SGL_ENTRIES, |sgl|)], 0) + AttrSection(attrs))
    ensures SameOutside(buf[..], old(buf[..]), 8, buf.Length)
  {
    var sglAt := 12 + 4 * |acl|;
    var size := buf.Length;
    ghost var b0 := buf[..];
    ghost var n := Min(MAX_SGL_ENTRIES, |sgl|);
    assert size == sglAt + 8 + 16 * n + 4 * |attrs|;
    hide Concat, EncodeLE, AclSection, SglSection, AttrSection, At, SameOutside, Zeroed, Min, AllocSize;
    SplitZero(b0, 8, sglAt, size);
    PopulateAcl(buf, 8, acl);
    ghost var b1 := buf[..];
    StaysZero(b1, b0, 8, sglAt, sglAt, size);
    PopulateSglAndAttr(buf, sglAt, sgl, attrs);
    Populated(buf[..], b1, b0, sglAt, size, AclSection(acl), SglSection(sgl[..n], 0), AttrSection(attrs));
  }

  lemma Populated(b2: seq<byte>, b1: seq<byte>, b0: seq<byte>, mid: nat, size: nat, a: seq<byte>, s: seq<byte>, t: seq<byte>)
    requires |a| + 8 == mid <= size && At(b1, 8, a) && At(b2, mid, s + t)
    requires SameOutside(b1, b0, 8, mid) && SameOutside(b2, b1, mid, size)
    ensures At(b2, 8, a + s + t) && SameOutside(b2, b0, 8, size)
  {
    hide At, SameOutside;
    StaysAt(b2, b1, mid, size, 8, a);
    AtThree(b2, 8, a, s, t);
    OutsideBoth(b2, b1, b0, 8, mid, mid, size, 8, size);
  }

  /**
    The request buffer as gh_rm_mem_share_lend_helper builds it: allocated to the computed size, zeroed, header stored,
    sections populated. It is filled to its last byte with the request that carries the first min(n, 512) entries.
   */
  method BuildRequest(q: Request) returns (buf: array<byte>)
    requires q.Valid() && |q.acl| <= 0xFFFF
    ensures fresh(buf) && buf[..] == Layout(q.(sgl := q.sgl[..Min(MAX_SGL_ENTRIES, |q.sgl|)]))
    ensures Decode(buf[..]) == Some(q.(sgl := q.sgl[..Min(MAX_SGL_ENTRIES, |q.sgl|)]))
  {
    var reqAcl := |q.acl| % 0x1_0000;
    var reqSgl := Min(MAX_SGL_ENTRIES, |q.sgl|);
    buf := new byte[AllocSize(reqAcl, reqSgl, |q.attrs|)](_ => 0);
    ghost var b := buf[..];
    assert Zeroed(b, 8, |b|);
    hide HeaderSection, AclSection, SglSection, AttrSection, Decode, Layout, At, SameOutside, Zeroed;
    var h := HeaderSection(q.memType, q.flags, q.labelId);
    Store(buf, 0, h);
    ghost var b0 := buf[..];
    StaysZero(b0, b, 0, 8, 8, |b|);
    PopulateMemRequest(buf, q.acl, q.sgl, q.attrs);
    StaysAt(buf[..], b0, 8, |b|, 0, h);
    FilledIsLayout(buf[..], q.(sgl := q.sgl[..reqSgl]));
  }

  lemma FilledIsLayout(b: seq<byte>, r: Request)
    requires r.Valid() && |b| == AllocSize(|r.acl|, |r.sgl|, |r.attrs|)
    requires At(b, 0, HeaderSection(r.memType, r.flags, r.labelId))
    requires At(b, 8, AclSection(r.acl) + SglSection(r.sgl, 0) + AttrSection(r.attrs))
    ensures b == Layout(r) && Decode(b) == Some(r)
  {
    hide HeaderSection, AclSection, SglSection, AttrSection, Decode, At;
    SectionSizes(r);
    LayoutRoundTrip(r);
    var h, rest := HeaderSection(r.memType, r.flags, r.labelId), AclSection(r.acl) + SglSection(r.sgl, 0) + AttrSection(r.attrs);
    AtJoin(b, 0, h, rest);
    assert h + rest == Layout(r);
    AtWhole(b, Layout(r));
  }

  lemma SplitZero(b: seq<byte>, lo: nat, mid: nat, hi: nat)
    requires Zeroed(b, lo, hi) && lo <= mid <= hi
    ensures Zeroed(b, lo, mid) && Zeroed(b, mid, hi)
  {
  }

  lemma AtWhole(b: seq<byte>, part: seq<byte>)
    requires At(b, 0, part) && |b| == |part|
    ensures b == part
  {
  }
}
