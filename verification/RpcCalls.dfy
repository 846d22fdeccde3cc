/**
  gh_rm_call from many threads at once: sequence numbers from one table, requests sent under one lock, replies matched
  by the receive loop. The Resource Manager is the environment: it reads the request queue and answers each complete
  request once, in any order, in as many fragments as it likes, with notifications in between.
 */
module RpcCalls {
  import opened Common
  import opened Bytes
  import opened RpcWire
  import opened RpcSend
  import opened RpcReceive

  const MAX_SEQ := 0xFFFF

  /** What a caller gets: the error code and payload of a reply, or -EIO for a series cut off by another. */
  datatype CallResult = Reply(err: nat, payload: seq<byte>) | CutOff

  datatype Pc = Allocated | Sending(k: nat) | Waiting | Returned(result: CallResult)

  /** What a gh_rm_call asks for, under the sequence number it was given. */
  datatype Request = Request(msgId: nat, req: seq<byte>, seqNo: nat, fragments: nat) {
    predicate Ok() {
      ValidIds(msgId, seqNo) && fragments < 63 && MAX_PAYLOAD * fragments < |req| <= MAX_PAYLOAD * (fragments + 1)
    }
  }

  /** Which call put a message on the request queue, and as which fragment. */
  datatype Owner = Owner(call: nat, k: nat)

  /** A series the Resource Manager sends: the answer to the request that starts at `pos`, or a notification. */
  datatype Job =
    | ReplyJob(pos: nat, err: nat, chunks: seq<seq<byte>>)
    | NotifJob(msgId: nat, chunks: seq<seq<byte>>)

  datatype Item = Item(job: nat, k: nat)

  /** `done` holds the completed calls with what the receive loop left in their connections. */
  datatype State = State(info: map<nat, Request>, pc: map<nat, Pc>, done: map<nat, CallResult>,
                         table: Table, lock: Option<nat>, tx: seq<TxMsg>, owners: seq<Owner>,
                         jobs: seq<Job>, rx: seq<Item>, taken: nat, recv: Recv)

  const Init := State(map[], map[], map[], map[], None, [], [], [], [], 0, Initial)

  datatype Action =
    | Begin(call: nat, msgId: nat, req: seq<byte>, seqNo: nat)
    | LockSend(call: nat)
    | SendFragment(call: nat)
    | UnlockSend(call: nat)
    | RmStart(job: Job)
    | RmContinue
    | ReceiveOne
    | Return(call: nat)

  predicate ChunksOk(chunks: seq<seq<byte>>, room: nat) {
    && 1 <= |chunks| <= 64 && |chunks[0]| <= room && (|chunks| > 1 ==> chunks[0] != [])
    && forall k :: 1 <= k < |chunks| ==> 1 <= |chunks[k]| <= MAX_PAYLOAD
  }

  predicate JobOk(job: Job) {
    match job
    case ReplyJob(_, err, chunks) => err < 0x1_0000_0000 && ChunksOk(chunks, MAX_MSG_SIZE - REPLY_HDR_SIZE)
    case NotifJob(msgId, chunks) => msgId < 0x1_0000_0000 && ChunksOk(chunks, MAX_PAYLOAD) && chunks[0] != []
  }

  /** The Resource Manager works from the bytes alone: a whole request is there and nobody answered it yet. */
  predicate Answerable(tx: seq<TxMsg>, jobs: seq<Job>, pos: nat) {
    && pos < |tx| && |tx[pos].bytes| >= HDR_SIZE
    && DecodeHdr(tx[pos].bytes).typ == TYPE_REQ
    && pos + DecodeHdr(tx[pos].bytes).fragments < |tx|
    && forall j :: 0 <= j < |jobs| && jobs[j].ReplyJob? ==> jobs[j].pos != pos
  }

  /** The last fragment of the last series has been queued. */
  predicate RmIdle(jobs: seq<Job>, rx: seq<Item>) {
    rx == [] || (var it := rx[|rx| - 1]; it.job < |jobs| && it.k + 1 == |jobs[it.job].chunks|)
  }

  predicate RmBusy(jobs: seq<Job>, rx: seq<Item>) {
    rx != [] && (var it := rx[|rx| - 1]; it.job < |jobs| && it.k + 1 < |jobs[it.job].chunks|)
  }

  /** The bytes of fragment `k` of a series; a reply copies sequence number and message id from the request's bytes. */
  function ItemBytes(tx: seq<TxMsg>, job: Job, k: nat): (m: seq<byte>)
    requires JobOk(job) && k < |job.chunks|
    requires job.ReplyJob? ==> job.pos < |tx| && |tx[job.pos].bytes| >= HDR_SIZE && DecodeHdr(tx[job.pos].bytes).Valid()
  {
    var h := if job.ReplyJob? then
               var q := DecodeHdr(tx[job.pos].bytes); Hdr(1, 2, TYPE_RPLY, |job.chunks| - 1, q.seqNo, q.msgId)
             else Hdr(1, 2, TYPE_NOTIF, |job.chunks| - 1, 0, job.msgId);
    if k > 0 then EncodeHdr(h.(typ := TYPE_CONT)) + job.chunks[k]
    else if job.ReplyJob? then EncodeReply(h, job.err, job.chunks[0])
    else EncodeHdr(h) + job.chunks[0]
  }

  /** complete() on a reply's connection, with or without ret = -EIO. */
  function Deliver(done: map<nat, CallResult>, finishes: seq<Finish>): map<nat, CallResult> {
    if finishes == [] then done
    else
      var f := finishes[|finishes| - 1];
      var before := Deliver(done, finishes[..|finishes| - 1]);
      if f.conn.id.CallConn? then
        before[f.conn.id.call := if f.Completed? then Reply(f.conn.rmError, f.conn.data) else CutOff]
      else before
  }

  predicate Enabled(s: State, a: Action) {
    match a
    case Begin(c, msgId, req, seqNo) =>
      c !in s.info && 0 < msgId < 0x1_0000_0000 && 1 <= |req| <= 63 * MAX_PAYLOAD && seqNo < MAX_SEQ && seqNo !in s.table
    case LockSend(c) => c in s.pc && s.pc[c] == Allocated && s.lock.None?
    case SendFragment(c) =>
      && s.lock == Some(c) && c in s.pc && s.pc[c].Sending?
      && c in s.info && s.info[c].Ok() && s.pc[c].k <= s.info[c].fragments
    case UnlockSend(c) => s.lock == Some(c) && c in s.pc && c in s.info && s.pc[c] == Sending(s.info[c].fragments + 1)
    case RmStart(job) =>
      RmIdle(s.jobs, s.rx) && JobOk(job) && (job.ReplyJob? ==> Answerable(s.tx, s.jobs, job.pos))
    case RmContinue => RmBusy(s.jobs, s.rx)
    case ReceiveOne =>
      && s.taken < |s.rx| && s.recv.Recv?
      && s.rx[s.taken].job < |s.jobs| && JobOk(s.jobs[s.rx[s.taken].job])
      && s.rx[s.taken].k < |s.jobs[s.rx[s.taken].job].chunks|
      && var job := s.jobs[s.rx[s.taken].job];
         job.ReplyJob? ==> job.pos < |s.tx| && |s.tx[job.pos].bytes| >= HDR_SIZE && DecodeHdr(s.tx[job.pos].bytes).Valid()
    case Return(c) => c in s.pc && s.pc[c] == Waiting && c in s.info && c in s.done
  }

  function Apply(s: State, a: Action): State
    requires Enabled(s, a)
  {
    match a
    case Begin(c, msgId, req, seqNo) =>
      s.(info := s.info[c := Request(msgId, req, seqNo, MessageCount(|req|) - 1)], pc := s.pc[c := Allocated],
         table := s.table[seqNo := CallInfo(c, msgId)])
    case LockSend(c) => s.(lock := Some(c), pc := s.pc[c := Sending(0)])
    case SendFragment(c) =>
      var q := s.info[c];
      s.(tx := s.tx + [Fragment(TYPE_REQ, q.msgId, q.seqNo, q.fragments, q.req, s.pc[c].k)],
         owners := s.owners + [Owner(c, s.pc[c].k)],
         pc := s.pc[c := Sending(s.pc[c].k + 1)])
    case UnlockSend(c) => s.(lock := None, pc := s.pc[c := Waiting])
    case RmStart(job) => s.(jobs := s.jobs + [job], rx := s.rx + [Item(|s.jobs|, 0)])
    case RmContinue => s.(rx := s.rx + [Item(s.rx[|s.rx| - 1].job, s.rx[|s.rx| - 1].k + 1)])
    case ReceiveOne =>
      var it := s.rx[s.taken];
      var r := Step(s.table, s.recv, ItemBytes(s.tx, s.jobs[it.job], it.k));
      if r.Fault? then s.(recv := Fault)
      else s.(taken := s.taken + 1, recv := r,
              done := Deliver(s.done, if |r.finished| >= |s.recv.finished| then r.finished[|s.recv.finished|..] else []))
    case Return(c) => s.(pc := s.pc[c := Returned(s.done[c])], table := s.table - {s.info[c].seqNo})
  }

  /** State i + 1 of a run comes from state i by action i. */
  predicate Moves(states: seq<State>, actions: seq<Action>, i: nat)
    requires |states| == |actions| + 1 && i < |actions|
  {
    Enabled(states[i], actions[i]) && states[i + 1] == Apply(states[i], actions[i])
  }

  predicate IsRun(states: seq<State>, actions: seq<Action>) {
    && |states| == |actions| + 1 && states[0] == Init
    && forall i: nat :: i < |actions| ==> Moves(states, actions, i)
  }
}
