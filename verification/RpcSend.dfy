/** gh_rm_send_request: a request payload leaves as one REQ message and up to 62 CONT messages. */
module RpcSend {
  import opened Common
  import opened Bytes
  import opened RpcWire
  import opened Errno

  const U32 := 0x1_0000_0000
  const U64 := 0x1_0000_0000_0000_0000

  /** One message handed to the queue, with its GH_MSGQ_TX_PUSH flag. */
  datatype TxMsg = TxMsg(bytes: seq<byte>, push: bool)

  /** Number of messages a payload of `n` bytes needs. */
  function MessageCount(n: nat): nat {
    (n + MAX_PAYLOAD - 1) / MAX_PAYLOAD
  }

  /** The u32 the code computes from a size_t: the number of messages after the first, with every wrap-around. */
  function NumFragments(n: nat): (f: nat)
    requires n < U64
    ensures f < U32
  {
    var q := ((n + MAX_PAYLOAD - 1) % U64) / MAX_PAYLOAD % U32;
    (q + U32 - 1) % U32
  }

  predicate Accepted(n: nat)
    requires n < U64
  {
    NumFragments(n) <= MAX_NUM_FRAGMENTS
  }

  /** Below 232 * 2^32 bytes the limit check accepts exactly the payloads of 1 to 63 * 232 bytes. */
  lemma AcceptedSizes(n: nat)
    requires n <= MAX_PAYLOAD * U32
    ensures Accepted(n) <==> 1 <= n <= 63 * MAX_PAYLOAD
    ensures Accepted(n) ==> NumFragments(n) + 1 == MessageCount(n)
  {
    assert (n + MAX_PAYLOAD - 1) % U64 == n + MAX_PAYLOAD - 1;
    assert MessageCount(n) <= U32;
  }

  /** For every size_t: the count is taken modulo 2^32, and a payload within 231 bytes of 2^64 is rejected. */
  lemma AcceptedExactly(n: nat)
    requires n < U64
    ensures Accepted(n) <==> (n + MAX_PAYLOAD - 1 < U64 && 1 <= MessageCount(n) % U32 <= 63)
    ensures Accepted(n) ==> NumFragments(n) + 1 == MessageCount(n) % U32
    ensures Accepted(n) ==> MAX_PAYLOAD * NumFragments(n) < n
  {
    if n + MAX_PAYLOAD - 1 < U64 {
      var c := MessageCount(n);
      assert c % U32 <= c;
      assert MAX_PAYLOAD * (c - 1) < n || n == 0;
    } else {
      assert (n + MAX_PAYLOAD - 1) % U64 == n + MAX_PAYLOAD - 1 - U64;
    }
  }

  /** So the limit does not hold for every size_t: this size needs 2^32 + 1 messages and is accepted as one. */
  lemma OversizeAcceptedExample()
    ensures Accepted(MAX_PAYLOAD * U32 + 1) && NumFragments(MAX_PAYLOAD * U32 + 1) == 0
  {
    AcceptedExactly(MAX_PAYLOAD * U32 + 1);
    assert MessageCount(MAX_PAYLOAD * U32 + 1) == U32 + 1;
  }

  /** The k-th slice of the payload. */
  function Chunk(req: seq<byte>, k: nat): (c: seq<byte>)
    requires MAX_PAYLOAD * k <= |req|
    ensures |c| <= MAX_PAYLOAD
  {
    req[MAX_PAYLOAD * k .. Min(MAX_PAYLOAD * (k + 1), |req|)]
  }

  function FragmentHdr(first: nat, msgId: nat, seqNo: nat, fragments: nat, k: nat): (h: Hdr)
  {
    Hdr(1, 2, if k == 0 then first else TYPE_CONT, fragments, seqNo, msgId)
  }

  predicate ValidIds(msgId: nat, seqNo: nat) { msgId < 0x1_0000_0000 && seqNo < 0x1_0000 }

  /** Message `k` of a series of `fragments + 1`; `first` is the type of message 0 (REQ when this driver sends it). */
  function Fragment(first: nat, msgId: nat, seqNo: nat, fragments: nat, req: seq<byte>, k: nat): (m: TxMsg)
    requires first < 4 && ValidIds(msgId, seqNo) && fragments < 64 && MAX_PAYLOAD * k <= |req|
    ensures |m.bytes| <= MAX_MSG_SIZE
  {
    TxMsg(EncodeHdr(FragmentHdr(first, msgId, seqNo, fragments, k)) + Chunk(req, k), k == fragments)
  }

  function Series(first: nat, msgId: nat, seqNo: nat, fragments: nat, req: seq<byte>): (s: seq<TxMsg>)
    requires first < 4 && ValidIds(msgId, seqNo) && fragments < 64 && MAX_PAYLOAD * fragments <= |req|
    ensures |s| == fragments + 1
  {
    seq(fragments + 1, k requires 0 <= k <= fragments => Fragment(first, msgId, seqNo, fragments, req, k))
  }

  /** The messages of one request. */
  function RequestSeries(msgId: nat, seqNo: nat, req: seq<byte>): (s: seq<TxMsg>)
    requires ValidIds(msgId, seqNo) && |req| < U64 && Accepted(|req|)
  {
    AcceptedExactly(|req|);
    Series(TYPE_REQ, msgId, seqNo, NumFragments(|req|), req)
  }

  /** Every header field, the payload and the PUSH flag of message `k`, read back from its bytes. */
  lemma FragmentOnTheWire(first: nat, msgId: nat, seqNo: nat, fragments: nat, req: seq<byte>, k: nat)
    requires first < 4 && ValidIds(msgId, seqNo) && fragments < 64 && MAX_PAYLOAD * fragments < |req| && k <= fragments
    ensures var m := Series(first, msgId, seqNo, fragments, req)[k];
            && HDR_SIZE < |m.bytes| <= MAX_MSG_SIZE
            && (m.push <==> k == fragments)
            && DecodeHdr(m.bytes) == Hdr(1, 2, if k == 0 then first else TYPE_CONT, fragments, seqNo, msgId)
            && m.bytes[HDR_SIZE..] == Chunk(req, k) && |Chunk(req, k)| >= 1
  {
    var h := FragmentHdr(first, msgId, seqNo, fragments, k);
    var chunk := Chunk(req, k);
    assert 1 <= |chunk| <= MAX_PAYLOAD;
    HeaderRoundTrip(h, chunk);
    assert Series(first, msgId, seqNo, fragments, req)[k] == TxMsg(EncodeHdr(h) + chunk, k == fragments);
  }

  /** For the sizes the driver sends, the series has ceil(n / 232) messages. */
  lemma SeriesLength(n: nat)
    requires 1 <= n <= 63 * MAX_PAYLOAD
    ensures Accepted(n) && NumFragments(n) == MessageCount(n) - 1 < 63
    ensures MAX_PAYLOAD * (MessageCount(n) - 1) < n <= MAX_PAYLOAD * MessageCount(n)
  {
    AcceptedSizes(n);
  }

  function Chunks(req: seq<byte>, n: nat): (c: seq<seq<byte>>)
    requires n == 0 || MAX_PAYLOAD * (n - 1) <= |req|
    ensures |c| == n
  {
    seq(n, k requires 0 <= k < n => Chunk(req, k))
  }

  /** The first n slices put together are the first 232 * n bytes of the payload. */
  lemma {:induction false} ChunksCover(req: seq<byte>, n: nat)
    requires n == 0 || MAX_PAYLOAD * (n - 1) <= |req|
    ensures Concat(Chunks(req, n)) == req[..Min(MAX_PAYLOAD * n, |req|)]
  {
    if n > 0 {
      ChunksCover(req, n - 1);
      ConcatAppend(Chunks(req, n - 1), Chunk(req, n - 1));
      assert Chunks(req, n) == Chunks(req, n - 1) + [Chunk(req, n - 1)];
    }
  }

  function Payloads(msgs: seq<TxMsg>): (p: seq<seq<byte>>)
    requires forall i :: 0 <= i < |msgs| ==> |msgs[i].bytes| >= HDR_SIZE
    ensures |p| == |msgs|
  {
    seq(|msgs|, i requires 0 <= i < |msgs| => msgs[i].bytes[HDR_SIZE..])
  }

  /** Message k of n says, in its bytes, that it belongs to this request. */
  predicate SaysSo(m: TxMsg, k: nat, n: nat, messageId: nat, seqNo: nat)
    requires k < n
  {
    && 8 < |m.bytes| <= 240 && (m.push <==> k == n - 1)
    && DecodeHdr(m.bytes) == Hdr(1, 2, if k == 0 then 1 else 0, n - 1, seqNo, messageId)
  }

  /** These messages, read from their bytes alone, are the whole request and nothing else. */
  ghost predicate CarriesRequest(msgs: seq<TxMsg>, messageId: nat, seqNo: nat, req: seq<byte>) {
    && |msgs| == (|req| + 231) / 232
    && (forall k: nat :: k < |msgs| ==> SaysSo(msgs[k], k, |msgs|, messageId, seqNo))
    && Concat(Payloads(msgs)) == req
  }

  lemma RequestOnTheWire(messageId: nat, seqNo: nat, req: seq<byte>)
    requires ValidIds(messageId, seqNo) && 1 <= |req| <= 63 * 232
    ensures Accepted(|req|) && CarriesRequest(RequestSeries(messageId, seqNo, req), messageId, seqNo, req)
  {
    SeriesLength(|req|);
    var f := NumFragments(|req|);
    var msgs := RequestSeries(messageId, seqNo, req);
    assert msgs == Series(TYPE_REQ, messageId, seqNo, f, req);
    hide Series, Fragment, DecodeHdr, Chunk, Concat, NumFragments;
    forall k: nat | k < |msgs|
      ensures SaysSo(msgs[k], k, |msgs|, messageId, seqNo) && MAX_PAYLOAD * k <= |req| && msgs[k].bytes[HDR_SIZE..] == Chunk(req, k)
    {
      Position(k, f);
      FragmentOnTheWire(TYPE_REQ, messageId, seqNo, f, req, k);
    }
    assert Payloads(msgs) == Chunks(req, f + 1);
    ChunksCover(req, f + 1);
    assert Concat(Payloads(msgs)) == req[..|req|];
  }

  /** The environment of one call: readiness, allocation, the interruptible lock and each gh_msgq_send result. */
  datatype SendEnv = SendEnv(descReady: bool, allocOk: bool, interrupted: bool, sendRet: nat -> int)

  /** Number of messages queued before the first failing send, among `n`. */
  function SentBefore(ret: nat -> int, n: nat): (k: nat)
    ensures k <= n
    ensures forall i: nat :: i < k ==> ret(i) == 0
    ensures k < n ==> ret(k) != 0
  {
    if n == 0 then 0
    else var k := SentBefore(ret, n - 1); if k == n - 1 && ret(n - 1) == 0 then n else k
  }

  /** The sending side of the transport: everything that has been put on the queue, in order. */
  class Sender {
    var txq: seq<TxMsg>

    constructor ()
      ensures txq == []
    {
      txq := [];
    }

    /** memset, header stores and memcpy into the message buffer. */
    static method FillMessage(msg: array<byte>, h: Hdr, payload: seq<byte>)
      requires msg.Length == MAX_MSG_SIZE && h.Valid() && |payload| <= MAX_PAYLOAD
      modifies msg
      ensures msg[..HDR_SIZE + |payload|] == EncodeHdr(h) + payload
      ensures forall i :: HDR_SIZE + |payload| <= i < msg.Length ==> msg[i] == 0
    {
      var hdr := EncodeHdr(h);
      forall i | 0 <= i < msg.Length { msg[i] := 0; }
      forall i | 0 <= i < HDR_SIZE { msg[i] := hdr[i]; }
      forall i | 0 <= i < |payload| { msg[HDR_SIZE + i] := payload[i]; }
    }

    static method BuildFragment(msg: array<byte>, messageId: nat, seqNo: nat, fragments: nat, req: seq<byte>, i: nat,
                                curr: nat, payloadSize: nat) returns (sent: TxMsg)
      requires msg.Length == MAX_MSG_SIZE && ValidIds(messageId, seqNo) && fragments < 64
      requires curr == MAX_PAYLOAD * i <= |req| && payloadSize == Min(MAX_PAYLOAD, |req| - curr)
      modifies msg
      ensures sent == Fragment(TYPE_REQ, messageId, seqNo, fragments, req, i)
    {
      var payload := req[curr .. curr + payloadSize];
      assert payload == Chunk(req, i);
      FillMessage(msg, FragmentHdr(TYPE_REQ, messageId, seqNo, fragments, i), payload);
      sent := TxMsg(msg[..HDR_SIZE + payloadSize], i == fragments);
    }

    /** The send loop: the messages before the first failing send are appended, and its result is returned. */
    method SendSeries(messageId: nat, req: seq<byte>, seqNo: nat, numFragments: nat, sendRet: nat -> int)
      returns (ret: int)
      requires ValidIds(messageId, seqNo) && numFragments < 64 && MAX_PAYLOAD * numFragments < |req|
      modifies this
      ensures var k := SentBefore(sendRet, numFragments + 1);
              && txq == old(txq) + Series(TYPE_REQ, messageId, seqNo, numFragments, req)[..k]
              && ret == if k == numFragments + 1 then 0 else sendRet(k)
    {
      var msg := new byte[MAX_MSG_SIZE];
      ghost var series := Series(TYPE_REQ, messageId, seqNo, numFragments, req);
      var remaining := |req|;
      var curr := 0;
      ret := 0;
      var i := 0;
      while i <= numFragments
        invariant i <= numFragments + 1
        invariant i <= numFragments ==> curr == MAX_PAYLOAD * i && remaining == |req| - curr > 0
        invariant SentBefore(sendRet, i) == i && ret == 0
        invariant txq == old(txq) + series[..i]
      {
        Position(i, numFragments);
        var payloadSize;
        if remaining > MAX_PAYLOAD {
          payloadSize := MAX_PAYLOAD;
          remaining := remaining - payloadSize;
        } else {
          payloadSize := remaining;
        }
        var sent := BuildFragment(msg, messageId, seqNo, numFragments, req, i, curr, payloadSize);
        curr := curr + payloadSize;
        ret := sendRet(i);
        if ret != 0 {
          FirstFailure(sendRet, i, numFragments + 1);
          return;
        }
        SeriesPrefix(series, i, sent);
        txq := txq + [sent];
        i := i + 1;
      }
    }

    /**
      An unready driver, an empty or oversized payload, a failed allocation or an interrupted lock queue nothing;
      otherwise exactly the messages of the series before the first failing send are appended.
     */
    method SendRequest(messageId: nat, req: seq<byte>, seqNo: nat, env: SendEnv) returns (ret: int)
      requires ValidIds(messageId, seqNo) && |req| < U64
      modifies this
      ensures !env.descReady ==> ret == EPROBE_DEFER && txq == old(txq)
      ensures env.descReady && !Accepted(|req|) ==> ret == E2BIG && txq == old(txq)
      ensures env.descReady && Accepted(|req|) && !env.allocOk ==> ret == ENOMEM && txq == old(txq)
      ensures env.descReady && Accepted(|req|) && env.allocOk && env.interrupted ==>
                ret == ERESTARTSYS && txq == old(txq)
      ensures env.descReady && Accepted(|req|) && env.allocOk && !env.interrupted ==>
                var series := RequestSeries(messageId, seqNo, req);
                var k := SentBefore(env.sendRet, |series|);
                txq == old(txq) + series[..k] && ret == if k == |series| then 0 else env.sendRet(k)
      ensures ret == 0 && 1 <= |req| <= 63 * 232 ==>
                old(txq) <= txq && CarriesRequest(txq[|old(txq)|..], messageId, seqNo, req)
    {
      if !env.descReady { return EPROBE_DEFER; }
      var numFragments := NumFragments(|req|);
      if numFragments > MAX_NUM_FRAGMENTS { return E2BIG; }
      if !env.allocOk { return ENOMEM; }
      if env.interrupted { return ERESTARTSYS; }
      hide CarriesRequest, RequestSeries, SentBefore;
      ret := SendAccepted(messageId, req, seqNo, numFragments, env.sendRet);
    }

    method SendAccepted(messageId: nat, req: seq<byte>, seqNo: nat, numFragments: nat, sendRet: nat -> int)
      returns (ret: int)
      requires ValidIds(messageId, seqNo) && |req| < U64 && Accepted(|req|) && numFragments == NumFragments(|req|)
      modifies this
      ensures var series := RequestSeries(messageId, seqNo, req);
              var k := SentBefore(sendRet, |series|);
              txq == old(txq) + series[..k] && ret == if k == |series| then 0 else sendRet(k)
      ensures ret == 0 && 1 <= |req| <= 63 * 232 ==>
                old(txq) <= txq && CarriesRequest(txq[|old(txq)|..], messageId, seqNo, req)
    {
      AcceptedExactly(|req|);
      hide CarriesRequest, Series, NumFragments;
      ret := SendSeries(messageId, req, seqNo, numFragments, sendRet);
      ghost var series := RequestSeries(messageId, seqNo, req);
      if ret == 0 && 1 <= |req| <= 63 * 232 {
        RequestOnTheWire(messageId, seqNo, req);
        assert series[..|series|] == series;
        assert txq[|old(txq)|..] == series;
      }
    }
  }

  lemma Position(i: nat, n: nat)
    requires i <= n
    ensures MAX_PAYLOAD * (i + 1) == MAX_PAYLOAD * i + MAX_PAYLOAD
    ensures i < n ==> MAX_PAYLOAD * i + MAX_PAYLOAD <= MAX_PAYLOAD * n
  {
  }

  lemma SeriesPrefix(series: seq<TxMsg>, i: nat, m: TxMsg)
    requires i < |series| && series[i] == m
    ensures series[..i + 1] == series[..i] + [m]
  {
  }

  lemma {:induction false} FirstFailure(ret: nat -> int, i: nat, n: nat)
    requires i < n && SentBefore(ret, i) == i && ret(i) != 0
    ensures SentBefore(ret, n) == i
  {
    if n > i + 1 { FirstFailure(ret, i, n - 1); }
  }
}
