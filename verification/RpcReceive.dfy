/** The receive loop of gh_rm_core.c: messages from the Resource Manager are reassembled into connections. */
module RpcReceive {
  import opened Common
  import opened Bytes
  import opened RpcWire

  /** Whose object a connection is: a caller waiting for a reply, or the n-th notification. */
  datatype ConnId = CallConn(call: nat) | NotifConn(n: nat)

  /**
    struct gh_rm_connection while its fragments arrive. `capacity` is the size of the payload allocation (0 when
    there is none), `data` the bytes stored so far, `frags` the payloads accepted so far, in order.
   */
  datatype Conn = Conn(id: ConnId, msgId: nat, typ: nat, numFragments: nat, fragmentsReceived: nat,
                       capacity: nat, data: seq<byte>, rmError: nat, frags: seq<seq<byte>>)

  /** An entry of the sequence-number table: the waiting caller and the message id of its request. */
  datatype CallInfo = CallInfo(call: nat, msgId: nat)
  type Table = map<nat, CallInfo>

  datatype Finish = Completed(conn: Conn) | Aborted(conn: Conn)

  /** The loop's variables; `Fault` is an access through a wild pointer or past an allocation. */
  datatype Recv =
    | Recv(pending: Option<Conn>, finished: seq<Finish>, notifs: nat)
    | Fault

  const Initial := Recv.Recv(None, [], 0)

  /** gh_rm_init_connection_buff. */
  function InitConn(id: ConnId, msgId: nat, h: Hdr, payload: seq<byte>, rmError: nat): Conn {
    Conn(id, msgId, h.typ, h.fragments, 0, if payload == [] then 0 else |payload| + h.fragments * MAX_PAYLOAD,
         payload, rmError, [payload])
  }

  /** gh_rm_abort_connection on whatever series a start message cuts off. */
  function AbortPending(r: Recv): Recv
    requires r.Recv?
  {
    if r.pending.Some? then Recv.Recv(None, r.finished + [Aborted(r.pending.value)], r.notifs) else r
  }

  function ProcessNotif(r: Recv, m: seq<byte>): Recv
    requires r.Recv? && |m| > HDR_SIZE
  {
    var h := DecodeHdr(m);
    var r1 := AbortPending(r);
    Recv.Recv(Some(InitConn(NotifConn(r.notifs), h.msgId, h, m[HDR_SIZE..], 0)), r1.finished, r.notifs + 1)
  }

  /**
    gh_rm_process_rply: a reply without a matching table entry, or shorter than the reply header (its payload size
    wraps and the allocation is refused), leaves an error pointer that the completion check then follows.
   */
  function ProcessReply(t: Table, r: Recv, m: seq<byte>): Recv
    requires r.Recv? && |m| > HDR_SIZE
  {
    var h := DecodeHdr(m);
    if h.seqNo !in t || t[h.seqNo].msgId != h.msgId || |m| < REPLY_HDR_SIZE then Fault
    else
      var c := InitConn(CallConn(t[h.seqNo].call), h.msgId, h, m[REPLY_HDR_SIZE..], DecodeErr(m));
      AbortPending(r).(pending := Some(c))
  }

  /** gh_rm_process_cont: a different fragment count is refused, a different message id only logged. */
  function ProcessCont(r: Recv, m: seq<byte>): Recv
    requires r.Recv? && |m| > HDR_SIZE
  {
    if r.pending.None? || r.pending.value.numFragments != DecodeHdr(m).fragments then r
    else
      var c := r.pending.value;
      var payload := m[HDR_SIZE..];
      if |c.data| + |payload| > c.capacity then Fault
      else r.(pending := Some(c.(data := c.data + payload, fragmentsReceived := c.fragmentsReceived + 1,
                                 frags := c.frags + [payload])))
  }

  /** gh_rm_complete_connection. */
  function CompletePending(r: Recv): Recv {
    if r.Recv? && r.pending.Some? && r.pending.value.fragmentsReceived == r.pending.value.numFragments
    then Recv.Recv(None, r.finished + [Completed(r.pending.value)], r.notifs)
    else r
  }

  /** One iteration of gh_rm_recv_task_fn. */
  function Step(t: Table, r: Recv, m: seq<byte>): Recv {
    if r.Fault? || |m| <= HDR_SIZE then r
    else
      var typ := DecodeHdr(m).typ;
      CompletePending(
        if typ == TYPE_NOTIF then ProcessNotif(r, m)
        else if typ == TYPE_RPLY then ProcessReply(t, r, m)
        else if typ == TYPE_CONT then ProcessCont(r, m)
        else r)
  }

  /** A message together with the table contents the loop sees when it takes it. */
  datatype Arrival = Arrival(table: Table, msg: seq<byte>)

  function Run(r: Recv, stream: seq<Arrival>): Recv {
    if stream == [] then r
    else Step(stream[|stream| - 1].table, Run(r, stream[..|stream| - 1]), stream[|stream| - 1].msg)
  }

  // One iteration, from the decoded parts of its message

  lemma StartsNotif(t: Table, r: Recv, m: seq<byte>, payload: seq<byte>)
    requires r.Recv? && |m| > HDR_SIZE && DecodeHdr(m).typ == TYPE_NOTIF && m[HDR_SIZE..] == payload
    ensures var h := DecodeHdr(m);
            Step(t, r, m) == CompletePending(Recv.Recv(Some(InitConn(NotifConn(r.notifs), h.msgId, h, payload, 0)),
                                                       AbortPending(r).finished, r.notifs + 1))
  {
  }

  lemma StartsReply(t: Table, r: Recv, m: seq<byte>, payload: seq<byte>)
    requires r.Recv? && |m| >= REPLY_HDR_SIZE && DecodeHdr(m).typ == TYPE_RPLY && m[REPLY_HDR_SIZE..] == payload
    requires DecodeHdr(m).seqNo in t && t[DecodeHdr(m).seqNo].msgId == DecodeHdr(m).msgId
    ensures var h := DecodeHdr(m);
            var c := InitConn(CallConn(t[h.seqNo].call), h.msgId, h, payload, DecodeErr(m));
            Step(t, r, m) == CompletePending(Recv.Recv(Some(c), AbortPending(r).finished, r.notifs))
  {
  }

  /** What a continuation does to a pending series, from its decoded parts. */
  lemma ContinuesSeries(t: Table, r: Recv, m: seq<byte>, c: Conn, payload: seq<byte>)
    requires r.Recv? && r.pending == Some(c) && |m| > HDR_SIZE
    requires DecodeHdr(m).typ == TYPE_CONT && DecodeHdr(m).fragments == c.numFragments && m[HDR_SIZE..] == payload
    requires |c.data| + |payload| <= c.capacity
    ensures Step(t, r, m) == CompletePending(r.(pending := Some(c.(data := c.data + payload,
              fragmentsReceived := c.fragmentsReceived + 1, frags := c.frags + [payload]))))
  {
  }

  // ---------------------------------------------------------------------------------------------------------------
  // What every iteration keeps

  ghost predicate ConnOk(c: Conn) {
    && c.fragmentsReceived < c.numFragments < 64
    && |c.frags| == c.fragmentsReceived + 1
    && c.data == Concat(c.frags)
    && c.capacity == (if c.frags[0] == [] then 0 else |c.frags[0]| + c.numFragments * MAX_PAYLOAD)
    && |c.data| <= |c.frags[0]| + c.fragmentsReceived * MAX_PAYLOAD
  }

  function FinishId(f: Finish): ConnId { f.conn.id }

  ghost predicate IdUsed(r: Recv, id: ConnId)
    requires r.Recv?
  {
    || (r.pending.Some? && r.pending.value.id == id)
    || exists i :: 0 <= i < |r.finished| && FinishId(r.finished[i]) == id
  }

  /** No connection is finished twice, and the pending one is not finished yet. */
  ghost predicate FinishedOnce(r: Recv)
    requires r.Recv?
  {
    && (forall i, j :: 0 <= i < j < |r.finished| ==> FinishId(r.finished[i]) != FinishId(r.finished[j]))
    && (r.pending.Some? ==> forall i :: 0 <= i < |r.finished| ==> FinishId(r.finished[i]) != r.pending.value.id)
    && (forall n: nat :: IdUsed(r, NotifConn(n)) ==> n < r.notifs)
  }

  /** A completed connection has all its fragments, an aborted one misses some; either holds just what it accepted. */
  ghost predicate FinishOk(f: Finish) {
    && |f.conn.frags| == f.conn.fragmentsReceived + 1 && f.conn.data == Concat(f.conn.frags)
    && f.conn.fragmentsReceived <= f.conn.numFragments
    && (f.Completed? <==> f.conn.fragmentsReceived == f.conn.numFragments)
  }

  ghost predicate Inv(r: Recv) {
    r.Recv? && (r.pending.Some? ==> ConnOk(r.pending.value)) && FinishedOnce(r) && forall f <- r.finished :: FinishOk(f)
  }

  /** The start of a reply names a caller that is waiting and whose reply has not started. */
  ghost predicate ReplyExpected(r: Recv, t: Table, m: seq<byte>)
    requires r.Recv? && |m| > HDR_SIZE
  {
    var h := DecodeHdr(m);
    && h.seqNo in t && t[h.seqNo].msgId == h.msgId && |m| >= REPLY_HDR_SIZE
    && !IdUsed(r, CallConn(t[h.seqNo].call))
  }

  /** What the Resource Manager owes the loop about message `m`: at most 240 bytes, and replies only to waiting calls. */
  ghost predicate Lawful(r: Recv, a: Arrival) {
    && |a.msg| <= MAX_MSG_SIZE
    && (r.Recv? && |a.msg| > HDR_SIZE && DecodeHdr(a.msg).typ == TYPE_RPLY ==> ReplyExpected(r, a.table, a.msg))
  }

  /** A pending series whose first message had no payload, so that it has no buffer. */
  predicate NoBuffer(r: Recv) { r.Recv? && r.pending.Some? && r.pending.value.capacity == 0 }

  /** Continuations of a series that started without payload are the one thing that reaches past an allocation. */
  predicate ContWithoutBuffer(r: Recv, m: seq<byte>) {
    && NoBuffer(r) && |m| > HDR_SIZE && DecodeHdr(m).typ == TYPE_CONT
    && r.pending.value.numFragments == DecodeHdr(m).fragments
  }

  /** The next continuation of a pending series fits in the allocation, whatever its size up to 232 bytes. */
  lemma NextAppendFits(r: Recv, payload: seq<byte>)
    requires Inv(r) && r.pending.Some? && |payload| <= MAX_PAYLOAD && !NoBuffer(r)
    ensures |r.pending.value.data| + |payload| <= r.pending.value.capacity
  {
    var c := r.pending.value;
    assert (c.fragmentsReceived + 1) * MAX_PAYLOAD <= c.numFragments * MAX_PAYLOAD;
  }

  /** An iteration faults exactly on an unmatched or short reply, or a continuation of a series with no buffer. */
  lemma FaultExactly(t: Table, r: Recv, m: seq<byte>)
    requires Inv(r) && |m| <= MAX_MSG_SIZE
    ensures Step(t, r, m).Fault? <==>
              || (|m| > HDR_SIZE && DecodeHdr(m).typ == TYPE_RPLY &&
                  (DecodeHdr(m).seqNo !in t || t[DecodeHdr(m).seqNo].msgId != DecodeHdr(m).msgId ||
                   |m| < REPLY_HDR_SIZE))
              || ContWithoutBuffer(r, m)
  {
    if |m| > HDR_SIZE && DecodeHdr(m).typ == TYPE_CONT && r.pending.Some? {
      var c := r.pending.value;
      if c.capacity == 0 {
        assert c.frags[0] == [];
        assert |m[HDR_SIZE..]| > 0;
      } else {
        NextAppendFits(r, m[HDR_SIZE..]);
      }
    }
  }

  /** A reply to a waiting call that starts without payload but announces more, and any next fragment of it. */
  lemma EmptySeriesFaults(t: Table, first: Hdr, err: nat, payload: seq<byte>)
    requires first.Valid() && first.typ == TYPE_RPLY && first.fragments > 0 && err < 0x1_0000_0000
    requires first.seqNo in t && t[first.seqNo].msgId == first.msgId && 1 <= |payload| <= MAX_PAYLOAD
    ensures var r := Step(t, Initial, EncodeReply(first, err, []));
            NoBuffer(r) && Step(t, r, EncodeHdr(first.(typ := TYPE_CONT)) + payload) == Fault
  {
    ReplyRoundTrip(first, err, []);
    HeaderRoundTrip(first.(typ := TYPE_CONT), payload);
    hide EncodeHdr, DecodeHdr, EncodeReply;
    StartsReply(t, Initial, EncodeReply(first, err, []), []);
  }

  /** From the loop's initial state: a 12-byte reply and its continuation. */
  lemma ShortReplyThenContinuation()
    ensures exists stream: seq<Arrival> :: |stream| == 2 && Run(Initial, stream) == Fault && |stream[0].msg| == 12
  {
    var t, first := map[5 := CallInfo(0, 7)], Hdr(1, 2, TYPE_RPLY, 1, 5, 7);
    EmptySeriesFaults(t, first, 0, [0]);
    var m, m' := EncodeReply(first, 0, []), EncodeHdr(first.(typ := TYPE_CONT)) + [0];
    hide EncodeHdr, EncodeReply, EncodeLE, DecodeLE, Step, Run;
    TwoSteps(Arrival(t, m), Arrival(t, m'));
    assert |[Arrival(t, m), Arrival(t, m')][0].msg| == 12;
  }

  /** And a reply nobody waits for. */
  lemma StrayReply()
    ensures exists a: Arrival :: a.table == map[] && Run(Initial, [a]) == Fault
  {
    var first := Hdr(1, 2, TYPE_RPLY, 0, 5, 7);
    var stray := Arrival(map[], EncodeReply(first, 0, []));
    hide EncodeHdr, DecodeHdr, EncodeReply, Step, Run;
    ReplyType(first);
    OneStep(stray);
    StrayFaults(stray.msg);
    assert Run(Initial, [stray]) == Fault;
  }

  lemma ReplyType(h: Hdr)
    requires h.Valid() && h.typ == TYPE_RPLY
    ensures |EncodeReply(h, 0, [])| == 12 && DecodeHdr(EncodeReply(h, 0, [])).typ == TYPE_RPLY
  {
    ReplyRoundTrip(h, 0, []);
    hide EncodeHdr, DecodeHdr, EncodeReply, Number4;
  }

  lemma StrayFaults(m: seq<byte>)
    requires |m| > HDR_SIZE && DecodeHdr(m).typ == TYPE_RPLY
    ensures Step(map[], Initial, m) == Fault
  {
  }

  lemma OneStep(a: Arrival)
    ensures Run(Initial, [a]) == Step(a.table, Initial, a.msg)
  {
    assert [a][..0] == [];
  }

  lemma TwoSteps(a: Arrival, b: Arrival)
    ensures Run(Initial, [a, b]) == Step(b.table, Step(a.table, Initial, a.msg), b.msg)
  {
    OneStep(a);
    assert [a, b][..1] == [a];
  }

  lemma AbortKeeps(r: Recv)
    requires Inv(r)
    ensures Inv(AbortPending(r)) && AbortPending(r).pending.None?
    ensures forall id :: IdUsed(AbortPending(r), id) <==> IdUsed(r, id)
  {
    var r1 := AbortPending(r);
    if r.pending.Some? {
      var n := |r.finished|;
      assert FinishId(r1.finished[n]) == r.pending.value.id;
      forall id ensures IdUsed(r1, id) <==> IdUsed(r, id) {
        if exists i :: 0 <= i < |r.finished| && FinishId(r.finished[i]) == id {
          var i :| 0 <= i < |r.finished| && FinishId(r.finished[i]) == id;
          assert FinishId(r1.finished[i]) == id;
        }
      }
    }
  }

  /** Adopting a fresh connection and then running the completion check keeps the invariant. */
  lemma AdoptKeeps(r: Recv, c: Conn, notifs: nat)
    requires Inv(r) && r.pending.None? && !IdUsed(r, c.id) && r.notifs <= notifs
    requires c.id.NotifConn? ==> c.id.n < notifs
    requires c.fragmentsReceived == 0 && c.numFragments < 64 && c.frags == [c.data]
    requires c.capacity == if c.data == [] then 0 else |c.data| + c.numFragments * MAX_PAYLOAD
    ensures Inv(CompletePending(Recv.Recv(Some(c), r.finished, notifs)))
  {
    var r1 := Recv.Recv(Some(c), r.finished, notifs);
    var r2 := CompletePending(r1);
    assert c.frags[1..] == [] && Concat(c.frags) == c.data;
    assert forall i :: 0 <= i < |r.finished| ==> r2.finished[i] == r.finished[i];
    forall n: nat | IdUsed(r2, NotifConn(n)) ensures n < notifs {
      if NotifConn(n) != c.id {
        var i :| 0 <= i < |r.finished| && FinishId(r.finished[i]) == NotifConn(n);
        assert IdUsed(r, NotifConn(n));
      }
    }
  }

  lemma ContKeeps(r: Recv, m: seq<byte>)
    requires Inv(r) && HDR_SIZE < |m| <= MAX_MSG_SIZE && !ContWithoutBuffer(r, m) && DecodeHdr(m).typ == TYPE_CONT
    ensures Inv(CompletePending(ProcessCont(r, m)))
  {
    if r.pending.Some? && r.pending.value.numFragments == DecodeHdr(m).fragments {
      var c := r.pending.value;
      var payload := m[HDR_SIZE..];
      NextAppendFits(r, payload);
      ConcatAppend(c.frags, payload);
      var r1 := ProcessCont(r, m);
      var r2 := CompletePending(r1);
      assert r1.pending.value.id == c.id;
      assert forall i :: 0 <= i < |r.finished| ==> r2.finished[i] == r.finished[i];
      forall n: nat | IdUsed(r2, NotifConn(n)) ensures n < r.notifs {
        if NotifConn(n) == c.id {
          assert IdUsed(r, NotifConn(n));
        } else {
          var i :| 0 <= i < |r.finished| && FinishId(r.finished[i]) == NotifConn(n);
          assert IdUsed(r, NotifConn(n));
        }
      }
    }
  }

  lemma HeaderBounds(m: seq<byte>)
    requires |m| >= HDR_SIZE
    ensures DecodeHdr(m).fragments < 64 && DecodeHdr(m).typ < 4
  {
  }

  /** Every lawful message keeps the invariant, unless it continues a series that has no buffer. */
  lemma StepKeeps(r: Recv, a: Arrival)
    requires Inv(r) && Lawful(r, a) && !ContWithoutBuffer(r, a.msg)
    ensures Inv(Step(a.table, r, a.msg))
  {
    var m := a.msg;
    if |m| > HDR_SIZE {
      var h := DecodeHdr(m);
      HeaderBounds(m);
      AbortKeeps(r);
      var r1 := AbortPending(r);
      if h.typ == TYPE_NOTIF {
        assert !IdUsed(r1, NotifConn(r.notifs));
        AdoptKeeps(r1, InitConn(NotifConn(r.notifs), h.msgId, h, m[HDR_SIZE..], 0), r.notifs + 1);
      } else if h.typ == TYPE_RPLY {
        var c := InitConn(CallConn(a.table[h.seqNo].call), h.msgId, h, m[REPLY_HDR_SIZE..], DecodeErr(m));
        AdoptKeeps(r1, c, r1.notifs);
        assert AbortPending(r).(pending := Some(c)) == Recv.Recv(Some(c), r1.finished, r1.notifs);
      } else if h.typ == TYPE_CONT {
        ContKeeps(r, m);
      }
    }
  }

  /** Identities are never forgotten, and a reply's start uses its caller's. */
  lemma IdsGrow(r: Recv, a: Arrival)
    requires Inv(r) && Lawful(r, a) && !ContWithoutBuffer(r, a.msg)
    ensures Step(a.table, r, a.msg).Recv?
    ensures forall id :: IdUsed(r, id) ==> IdUsed(Step(a.table, r, a.msg), id)
    ensures |a.msg| > HDR_SIZE && DecodeHdr(a.msg).typ == TYPE_RPLY ==>
              IdUsed(Step(a.table, r, a.msg), CallConn(a.table[DecodeHdr(a.msg).seqNo].call))
  {
    StepKeeps(r, a);
    AbortKeeps(r);
    var r2 := Step(a.table, r, a.msg);
    if r2 != r {
      assert |r2.finished| > 0 ==> IdUsed(r2, FinishId(r2.finished[|r2.finished| - 1]));
      forall id | IdUsed(r, id) ensures IdUsed(r2, id) {
        if exists i :: 0 <= i < |r.finished| && FinishId(r.finished[i]) == id {
          var i :| 0 <= i < |r.finished| && FinishId(r.finished[i]) == id;
          assert FinishId(r2.finished[i]) == id;
        } else if r2.pending != r.pending && |r2.finished| > |r.finished| {
          assert FinishId(r2.finished[|r.finished|]) == id;
        }
      }
    }
  }

  /** Every prefix of the stream is followed by a lawful message that has a buffer to go to. */
  ghost predicate LawfulStream(r: Recv, stream: seq<Arrival>) {
    forall k :: 0 <= k < |stream| ==>
      Lawful(Run(r, stream[..k]), stream[k]) && !ContWithoutBuffer(Run(r, stream[..k]), stream[k].msg)
  }

  /**
    Over every lawful stream, at every loop head: nothing has faulted, a pending connection still misses a fragment,
    its size is the sum of the payloads it accepted, its next fragment fits, and no connection finished twice.
   */
  lemma {:induction false} StreamKeeps(r: Recv, stream: seq<Arrival>)
    requires Inv(r) && LawfulStream(r, stream)
    ensures Inv(Run(r, stream))
  {
    hide Inv, Step, Lawful, ContWithoutBuffer;
    if stream != [] {
      var k := |stream| - 1;
      var init := stream[..k];
      assert forall j :: 0 <= j < k ==> init[..j] == stream[..j] && init[j] == stream[j];
      StreamKeeps(r, init);
      StepKeeps(Run(r, init), stream[k]);
    }
  }

  // ---------------------------------------------------------------------------------------------------------------
  // The loop on the heap

  /** A connection object with its payload buffer, filled in place. */
  class Connection {
    const id: ConnId
    const msgId: nat
    var typ: nat
    var numFragments: nat
    var fragmentsReceived: nat
    var payload: array?<byte>
    var size: nat
    var rmError: nat
    ghost var frags: seq<seq<byte>>

    ghost predicate Valid()
      reads this, payload
    {
      (payload == null ==> size == 0) && (payload != null ==> size <= payload.Length)
    }

    ghost function View(): Conn
      requires Valid()
      reads this, payload
    {
      Conn(id, msgId, typ, numFragments, fragmentsReceived, if payload == null then 0 else payload.Length,
           if payload == null then [] else payload[..size], rmError, frags)
    }

    constructor (id: ConnId, msgId: nat)
      ensures this.id == id && this.msgId == msgId && Valid() && payload == null && size == 0 && rmError == 0
    {
      this.id, this.msgId := id, msgId;
      typ, numFragments, fragmentsReceived, payload, size, rmError := 0, 0, 0, null, 0, 0;
      frags := [];
    }

    /** Called on a connection whose object is fresh, so a message without payload leaves it without a buffer. */
    method InitBuff(recvBuff: seq<byte>, hdrSize: nat)
      requires HDR_SIZE <= hdrSize <= |recvBuff| && payload == null && size == 0
      modifies this
      ensures Valid() && (payload != null ==> fresh(payload)) && rmError == old(rmError)
      ensures View() == InitConn(id, msgId, DecodeHdr(recvBuff), recvBuff[hdrSize..], rmError)
    {
      var h := DecodeHdr(recvBuff);
      var payloadSize := |recvBuff| - hdrSize;
      numFragments, fragmentsReceived, typ := h.fragments, 0, h.typ;
      frags := [recvBuff[hdrSize..]];
      if payloadSize == 0 { return; }
      var buf := new byte[payloadSize + h.fragments * MAX_PAYLOAD](_ => 0);
      forall i | 0 <= i < payloadSize { buf[i] := recvBuff[hdrSize + i]; }
      payload, size := buf, payloadSize;
      assert payload[..size] == recvBuff[hdrSize..];
    }

    /** The append at `payload + size`; its fit is what the loop's invariant provides. */
    method AppendCont(recvBuff: seq<byte>)
      requires Valid() && |recvBuff| > HDR_SIZE
      requires numFragments == DecodeHdr(recvBuff).fragments ==>
                 payload != null && size + |recvBuff| - HDR_SIZE <= payload.Length
      modifies this, payload
      ensures Valid() && payload == old(payload)
      ensures Recv.Recv(Some(View()), [], 0) == ProcessCont(Recv.Recv(Some(old(View())), [], 0), recvBuff)
    {
      if numFragments != DecodeHdr(recvBuff).fragments { return; }
      var payloadSize := |recvBuff| - HDR_SIZE;
      forall i | 0 <= i < payloadSize { payload[size + i] := recvBuff[HDR_SIZE + i]; }
      assert payload[..size + payloadSize] == old(payload[..size]) + recvBuff[HDR_SIZE..];
      size := size + payloadSize;
      fragmentsReceived := fragmentsReceived + 1;
      frags := frags + [recvBuff[HDR_SIZE..]];
    }
  }

  /** The receive task and its current series. A caller's connection object is created when its reply starts. */
  class Receiver {
    var connection: Connection?
    var notifs: nat
    ghost var finished: seq<Finish>

    ghost predicate Valid()
      reads this, connection, if connection == null then {} else {connection.payload}
    {
      connection != null ==> connection.Valid()
    }

    ghost function View(): Recv
      requires Valid()
      reads this, connection, if connection == null then {} else {connection.payload}
    {
      Recv.Recv(if connection == null then None else Some(connection.View()), finished, notifs)
    }

    constructor ()
      ensures Valid() && View() == Initial
    {
      connection, notifs, finished := null, 0, [];
    }

    method AbortConnection()
      requires Valid()
      modifies `connection, `finished
      ensures connection == null && View() == AbortPending(old(View()))
    {
      if connection != null { finished := finished + [Aborted(connection.View())]; }
      connection := null;
    }

    method CompleteConnection()
      requires Valid()
      modifies `connection, `finished
      ensures Valid() && (connection == null || connection == old(connection))
      ensures View() == CompletePending(old(View()))
    {
      if connection != null && connection.fragmentsReceived == connection.numFragments {
        finished := finished + [Completed(connection.View())];
        connection := null;
      }
    }

    method StartNotif(m: seq<byte>)
      requires Valid() && |m| > HDR_SIZE
      modifies this
      ensures Valid() && View() == ProcessNotif(old(View()), m)
      ensures connection != null && fresh(connection) && (connection.payload != null ==> fresh(connection.payload))
    {
      AbortConnection();
      var c := new Connection(NotifConn(notifs), DecodeHdr(m).msgId);
      c.InitBuff(m, HDR_SIZE);
      connection, notifs := c, notifs + 1;
    }

    method StartReply(table: Table, m: seq<byte>)
      requires Valid() && |m| > HDR_SIZE && ProcessReply(table, View(), m).Recv?
      modifies this
      ensures Valid() && View() == ProcessReply(table, old(View()), m)
      ensures connection != null && fresh(connection) && (connection.payload != null ==> fresh(connection.payload))
    {
      AbortConnection();
      var c := new Connection(CallConn(table[DecodeHdr(m).seqNo].call), DecodeHdr(m).msgId);
      c.InitBuff(m, REPLY_HDR_SIZE);
      c.rmError := DecodeErr(m);
      connection := c;
    }

    method Continue(m: seq<byte>)
      requires Valid() && |m| > HDR_SIZE && ProcessCont(View(), m).Recv?
      modifies connection, if connection == null then {} else {connection.payload}
      ensures Valid() && View() == ProcessCont(old(View()), m)
      ensures connection != null ==> connection.payload == old(connection.payload)
    {
      if connection != null { connection.AppendCont(m); }
    }

    /** One message that does not fault: the heap follows `Step`, every array access on the way within bounds. */
    method Receive(table: Table, m: seq<byte>)
      requires Valid() && Step(table, View(), m).Recv?
      modifies this, connection, if connection == null then {} else {connection.payload}
      ensures Valid() && View() == Step(table, old(View()), m)
      ensures connection == null || (connection == old(connection) && connection.payload == old(connection.payload)) ||
              (fresh(connection) && (connection.payload != null ==> fresh(connection.payload)))
    {
      if |m| <= HDR_SIZE { return; }
      var typ := DecodeHdr(m).typ;
      if typ == TYPE_NOTIF {
        StartNotif(m);
      } else if typ == TYPE_RPLY {
        StartReply(table, m);
      } else if typ == TYPE_CONT {
        Continue(m);
      }
      CompleteConnection();
    }
  }

  /** gh_rm_recv_task_fn over a whole lawful stream: no access is out of bounds and the heap ends as `Run` says. */
  method RecvTask(stream: seq<Arrival>) returns (rx: Receiver)
    requires LawfulStream(Initial, stream)
    ensures rx.Valid() && rx.View() == Run(Initial, stream) && fresh(rx)
  {
    rx := new Receiver();
    var i := 0;
    while i < |stream|
      invariant i <= |stream| && rx.Valid() && rx.View() == Run(Initial, stream[..i]) && fresh(rx)
      invariant rx.connection != null ==> fresh(rx.connection)
      invariant rx.connection != null && rx.connection.payload != null ==> fresh(rx.connection.payload)
    {
      hide Run, Step, LawfulStream;
      PrefixSafe(stream, i);
      rx.Receive(stream[i].table, stream[i].msg);
      i := i + 1;
    }
    assert stream[..i] == stream;
  }

  lemma PrefixSafe(stream: seq<Arrival>, i: nat)
    requires LawfulStream(Initial, stream) && i < |stream|
    ensures Run(Initial, stream[..i + 1]) == Step(stream[i].table, Run(Initial, stream[..i]), stream[i].msg)
    ensures Run(Initial, stream[..i + 1]).Recv?
  {
    var pre := stream[..i + 1];
    assert pre[..i] == stream[..i] && pre[i] == stream[i];
    assert forall j :: 0 <= j < |pre| ==> pre[..j] == stream[..j] && pre[j] == stream[j];
    StreamKeeps(Initial, pre);
  }
}
