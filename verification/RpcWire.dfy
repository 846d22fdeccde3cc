/** The Resource Manager RPC message format: an 8-byte header, a 12-byte reply header, at most 240 bytes in all. */
module RpcWire {
  import opened Bytes

  const MAX_MSG_SIZE := 240
  const HDR_SIZE := 8
  const REPLY_HDR_SIZE := 12
  const MAX_PAYLOAD := MAX_MSG_SIZE - HDR_SIZE
  const MAX_NUM_FRAGMENTS := 62

  const TYPE_CONT := 0
  const TYPE_REQ := 1
  const TYPE_RPLY := 2
  const TYPE_NOTIF := 3

  /** struct gh_rm_rpc_hdr; `fragments` counts the messages that follow the first one. */
  datatype Hdr = Hdr(version: nat, hdrWords: nat, typ: nat, fragments: nat, seqNo: nat, msgId: nat) {
    predicate Valid() {
      version < 16 && hdrWords < 16 && typ < 4 && fragments < 64 && seqNo < 0x1_0000 && msgId < 0x1_0000_0000
    }
  }

  function EncodeHdr(h: Hdr): (b: seq<byte>)
    requires h.Valid()
    ensures |b| == HDR_SIZE
  {
    [h.version + 16 * h.hdrWords, h.typ + 4 * h.fragments] + EncodeLE(h.seqNo, 2) + EncodeLE(h.msgId, 4)
  }

  function DecodeHdr(m: seq<byte>): (h: Hdr)
    requires |m| >= HDR_SIZE
  {
    Hdr(m[0] % 16, m[0] / 16, m[1] % 4, m[1] / 4, DecodeLE(m[2..4]), DecodeLE(m[4..8]))
  }

  /** Decoding the first eight bytes of a message gives back the header it was built from. */
  lemma HeaderRoundTrip(h: Hdr, payload: seq<byte>)
    requires h.Valid()
    ensures DecodeHdr(EncodeHdr(h) + payload) == h
    ensures (EncodeHdr(h) + payload)[HDR_SIZE..] == payload
  {
    var m := EncodeHdr(h) + payload;
    assert m[2..4] == EncodeLE(h.seqNo, 2);
    assert m[4..8] == EncodeLE(h.msgId, 4);
    Widths();
    LittleEndianRoundTrip(h.seqNo, 2);
    LittleEndianRoundTrip(h.msgId, 4);
  }

  /** Where each field lies: bit fields from the low end of their byte, then two and four bytes, least significant first. */
  lemma HeaderLayout(h: Hdr)
    requires h.Valid()
    ensures var b := EncodeHdr(h);
            && b[0] == h.version + 16 * h.hdrWords && b[1] == h.typ + 4 * h.fragments
            && Number2(b[2], b[3]) == h.seqNo
            && Number4(b[4], b[5], b[6], b[7]) == h.msgId
  {
    Widths();
    LittleEndianRoundTrip(h.seqNo, 2);
    LittleEndianRoundTrip(h.msgId, 4);
    TwoAndFourBytes(EncodeLE(h.seqNo, 2));
    TwoAndFourBytes(EncodeLE(h.msgId, 4));
    hide EncodeLE, DecodeLE;
  }

  /** A reply's first message: header, little-endian error code, payload. */
  function EncodeReply(h: Hdr, err: nat, payload: seq<byte>): (b: seq<byte>)
    requires h.Valid()
    ensures |b| == REPLY_HDR_SIZE + |payload|
  {
    EncodeHdr(h) + EncodeLE(err, 4) + payload
  }

  function DecodeErr(m: seq<byte>): nat
    requires |m| >= REPLY_HDR_SIZE
  {
    DecodeLE(m[8..12])
  }

  lemma ReplyRoundTrip(h: Hdr, err: nat, payload: seq<byte>)
    requires h.Valid() && err < 0x1_0000_0000
    ensures DecodeHdr(EncodeReply(h, err, payload)) == h
    ensures DecodeErr(EncodeReply(h, err, payload)) == err
    ensures EncodeReply(h, err, payload)[REPLY_HDR_SIZE..] == payload
    ensures var b := EncodeReply(h, err, payload);
            b[..8] == EncodeHdr(h) && Number4(b[8], b[9], b[10], b[11]) == err
  {
    Widths();
    LittleEndianRoundTrip(err, 4);
    hide EncodeHdr, DecodeHdr, EncodeLE, DecodeLE;
    var m := EncodeReply(h, err, payload);
    assert m == EncodeHdr(h) + (EncodeLE(err, 4) + payload);
    HeaderRoundTrip(h, EncodeLE(err, 4) + payload);
    assert m[8..12] == EncodeLE(err, 4);
    TwoAndFourBytes(m[8..12]);
  }
}
