/** Framing and reassembly undo each other. */
module RpcRoundTrip {
  import opened Common
  import opened Bytes
  import opened RpcWire
  import opened RpcSend
  import opened RpcReceive

  /** `stream` carries the first messages of the series for `req`, the first one marked as a notification. */
  ghost predicate Carries(stream: seq<Arrival>, msgId: nat, seqNo: nat, fragments: nat, req: seq<byte>) {
    && ValidIds(msgId, seqNo) && fragments < 64 && MAX_PAYLOAD * fragments < |req| <= MAX_PAYLOAD * (fragments + 1)
    && |stream| <= fragments + 1
    && forall k :: 0 <= k < |stream| ==> stream[k].msg == Series(TYPE_NOTIF, msgId, seqNo, fragments, req)[k].bytes
  }

  /** The connection after the first `n` messages. */
  function Partial(r: Recv, msgId: nat, fragments: nat, req: seq<byte>, n: nat): Conn
    requires r.Recv? && MAX_PAYLOAD * fragments < |req| && 1 <= n <= fragments + 1
  {
    Conn(NotifConn(r.notifs), msgId, TYPE_NOTIF, fragments, n - 1, |Chunk(req, 0)| + fragments * MAX_PAYLOAD,
         req[..Min(MAX_PAYLOAD * n, |req|)], 0, Chunks(req, n))
  }

  function Expected(r: Recv, msgId: nat, fragments: nat, req: seq<byte>, n: nat): Recv
    requires r.Recv? && MAX_PAYLOAD * fragments < |req| && 1 <= n <= fragments + 1
  {
    var before := AbortPending(r).finished;
    var c := Partial(r, msgId, fragments, req, n);
    if n <= fragments then Recv.Recv(Some(c), before, r.notifs + 1)
    else Recv.Recv(None, before + [Completed(c)], r.notifs + 1)
  }

  lemma FirstMessage(r: Recv, a: Arrival, msgId: nat, seqNo: nat, fragments: nat, req: seq<byte>)
    requires r.Recv? && Carries([a], msgId, seqNo, fragments, req)
    ensures Step(a.table, r, a.msg) == Expected(r, msgId, fragments, req, 1)
  {
    assert [a][0].msg == Series(TYPE_NOTIF, msgId, seqNo, fragments, req)[0].bytes;
    FragmentOnTheWire(TYPE_NOTIF, msgId, seqNo, fragments, req, 0);
    StartsNotif(a.table, r, a.msg, Chunk(req, 0));
    assert Chunks(req, 1) == [Chunk(req, 0)];
  }

  lemma NextChunk(req: seq<byte>, fragments: nat, n: nat)
    requires MAX_PAYLOAD * fragments < |req| && 1 <= n <= fragments
    ensures Min(MAX_PAYLOAD * n, |req|) + |Chunk(req, n)| <= |Chunk(req, 0)| + fragments * MAX_PAYLOAD
    ensures req[..Min(MAX_PAYLOAD * n, |req|)] + Chunk(req, n) == req[..Min(MAX_PAYLOAD * (n + 1), |req|)]
    ensures Chunks(req, n + 1) == Chunks(req, n) + [Chunk(req, n)]
  {
  }

  lemma NextMessage(r: Recv, t: Table, msgId: nat, seqNo: nat, fragments: nat, req: seq<byte>, n: nat)
    requires r.Recv? && ValidIds(msgId, seqNo) && fragments < 64 && MAX_PAYLOAD * fragments < |req|
    requires 1 <= n <= fragments
    ensures Step(t, Expected(r, msgId, fragments, req, n), Series(TYPE_NOTIF, msgId, seqNo, fragments, req)[n].bytes)
         == Expected(r, msgId, fragments, req, n + 1)
  {
    var m := Series(TYPE_NOTIF, msgId, seqNo, fragments, req)[n].bytes;
    var c := Partial(r, msgId, fragments, req, n);
    FragmentOnTheWire(TYPE_NOTIF, msgId, seqNo, fragments, req, n);
    NextChunk(req, fragments, n);
    ContinuesSeries(t, Expected(r, msgId, fragments, req, n), m, c, Chunk(req, n));
  }

  lemma {:induction false} AfterEachMessage(r: Recv, stream: seq<Arrival>, msgId: nat, seqNo: nat, fragments: nat,
                                            req: seq<byte>)
    requires r.Recv? && Carries(stream, msgId, seqNo, fragments, req) && stream != []
    ensures Run(r, stream) == Expected(r, msgId, fragments, req, |stream|)
  {
    var n := |stream| - 1;
    var init := stream[..n];
    if n == 0 {
      assert stream == [stream[0]] && init == [];
      FirstMessage(r, stream[0], msgId, seqNo, fragments, req);
    } else {
      AfterEachMessage(r, init, msgId, seqNo, fragments, req);
      NextMessage(r, stream[n].table, msgId, seqNo, fragments, req, n);
    }
  }

  /**
    Whatever state the receive loop is in and whatever its table holds, the series SendRequest queues for a payload of
    1 to 63 * 232 bytes makes it complete one connection with exactly that payload, on the last of ceil(n / 232)
    messages; until then nothing completes and the bytes received are the payload's prefix.
   */
  lemma FramingRoundTrip(r: Recv, stream: seq<Arrival>, msgId: nat, seqNo: nat, req: seq<byte>)
    requires r.Recv? && 1 <= |req| <= 63 * MAX_PAYLOAD && stream != []
    requires Carries(stream, msgId, seqNo, MessageCount(|req|) - 1, req)
    ensures Accepted(|req|) && NumFragments(|req|) == MessageCount(|req|) - 1
    ensures Run(r, stream).Recv?
    ensures |stream| < MessageCount(|req|) ==>
              && Run(r, stream).finished == AbortPending(r).finished && Run(r, stream).pending.Some?
              && Run(r, stream).pending.value.data == req[..Min(MAX_PAYLOAD * |stream|, |req|)]
    ensures |stream| == MessageCount(|req|) ==>
              && Run(r, stream).pending.None?
              && exists c :: Run(r, stream).finished == AbortPending(r).finished + [Completed(c)]
                          && c.data == req && c.msgId == msgId && c.typ == TYPE_NOTIF
  {
    SeriesLength(|req|);
    AfterEachMessage(r, stream, msgId, seqNo, MessageCount(|req|) - 1, req);
    if |stream| == MessageCount(|req|) {
      assert Partial(r, msgId, MessageCount(|req|) - 1, req, |stream|).data == req;
    }
  }
}
