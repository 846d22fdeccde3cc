/** What every interleaving of callers, Resource Manager and receive loop keeps. */
module RpcCallsSafety {
  import opened Common
  import opened Bytes
  import opened RpcWire
  import opened RpcSend
  import opened RpcReceive
  import opened RpcCalls

  type Infos = map<nat, Request>
  type Pcs = map<nat, Pc>

  // ---------------------------------------------------------------------------------------------------------------
  // The invariant, piece by piece

  ghost predicate InfoOk(info: Infos) {
    forall c :: c in info ==> info[c].Ok()
  }

  /** Number of fragments of its request a call has queued. */
  function Sent(q: Request, p: Pc): nat {
    match p case Allocated => 0 case Sending(k) => k case _ => q.fragments + 1
  }

  /** The send lock is held by the one call that is in its send loop. */
  ghost predicate PcOk(info: Infos, pc: Pcs, lock: Option<nat>) {
    && pc.Keys == info.Keys && (lock.Some? ==> lock.value in pc)
    && (forall c :: c in pc ==> (pc[c].Sending? <==> lock == Some(c)))
    && (forall c :: c in pc ==> Sent(info[c], pc[c]) <= info[c].fragments + 1)
  }

  /** The table holds exactly the calls that have not returned, each under its own sequence number. */
  ghost predicate TableOk(info: Infos, pc: Pcs, table: Table) {
    && (forall q :: q in table ==>
          q < MAX_SEQ && table[q].call in info && table[q].call in pc && !pc[table[q].call].Returned? &&
          info[table[q].call].seqNo == q && info[table[q].call].msgId == table[q].msgId)
    && (forall c :: c in info && c in pc && !pc[c].Returned? ==> info[c].seqNo in table && table[info[c].seqNo].call == c)
  }

  /** Message `i` of the request queue is fragment `k` of its owner's series. */
  ghost predicate TxOk(info: Infos, tx: seq<TxMsg>, owners: seq<Owner>) {
    && |tx| == |owners|
    && forall i :: 0 <= i < |owners| ==> owners[i].call in info && IsFragment(info[owners[i].call], tx[i], owners[i].k)
  }

  ghost predicate IsFragment(q: Request, m: TxMsg, k: nat) {
    q.Ok() && k <= q.fragments && m == Fragment(TYPE_REQ, q.msgId, q.seqNo, q.fragments, q.req, k)
  }

  /** Only fragments a call has sent are on the queue. */
  ghost predicate SentOk(info: Infos, pc: Pcs, owners: seq<Owner>) {
    forall i :: 0 <= i < |owners| ==>
      owners[i].call in info && owners[i].call in pc && owners[i].k < Sent(info[owners[i].call], pc[owners[i].call])
  }

  /** No fragment is queued twice. */
  ghost predicate Distinct(owners: seq<Owner>) {
    forall i, j :: 0 <= i < j < |owners| ==> owners[i] != owners[j]
  }

  /** Position `i`: a later fragment stands right behind its predecessor, and a request is not left before its last one. */
  ghost predicate Adjacent(info: Infos, owners: seq<Owner>, i: nat)
    requires i < |owners|
  {
    && (owners[i].k > 0 ==> i > 0 && owners[i - 1] == Owner(owners[i].call, owners[i].k - 1))
    && (i + 1 < |owners| && owners[i].call in info && owners[i].k < info[owners[i].call].fragments ==>
          owners[i + 1] == Owner(owners[i].call, owners[i].k + 1))
  }

  /** Fragments of one request lie side by side in the queue, in order. */
  ghost predicate Ordered(info: Infos, owners: seq<Owner>) {
    forall i: nat :: i < |owners| ==> Adjacent(info, owners, i)
  }

  /** The queue's last message is the last fragment of a request, or the last one the lock holder sent. */
  ghost predicate TailOk(info: Infos, pc: Pcs, owners: seq<Owner>) {
    owners != [] ==>
      var last := owners[|owners| - 1];
      last.call in info && last.call in pc &&
      (last.k == info[last.call].fragments || pc[last.call] == Sending(last.k + 1))
  }

  ghost predicate HolderTail(pc: Pcs, owners: seq<Owner>) {
    forall c :: c in pc && pc[c].Sending? && pc[c].k > 0 ==>
      owners != [] && owners[|owners| - 1] == Owner(c, pc[c].k - 1)
  }

  /** Every answer is for a request that is wholly on the queue, and no request is answered twice. */
  ghost predicate JobsOk(info: Infos, pc: Pcs, owners: seq<Owner>, jobs: seq<Job>) {
    && (forall j :: 0 <= j < |jobs| ==> JobOk(jobs[j]))
    && (forall j :: 0 <= j < |jobs| && jobs[j].ReplyJob? ==>
          && jobs[j].pos < |owners| && owners[jobs[j].pos].k == 0 && WhollySent(info, pc, owners[jobs[j].pos].call)
          && jobs[j].pos + info[owners[jobs[j].pos].call].fragments < |owners|)
    && (forall i, j :: 0 <= i < j < |jobs| && jobs[i].ReplyJob? && jobs[j].ReplyJob? ==> jobs[i].pos != jobs[j].pos)
  }

  ghost predicate WhollySent(info: Infos, pc: Pcs, c: nat) {
    c in info && c in pc && Sent(info[c], pc[c]) == info[c].fragments + 1
  }

  predicate LastOf(jobs: seq<Job>, it: Item) { it.job < |jobs| && it.k + 1 == |jobs[it.job].chunks| }

  /** The reply queue is the series of job 0, then of job 1, and so on, the last one possibly unfinished. */
  ghost predicate RxOk(jobs: seq<Job>, rx: seq<Item>) {
    && (forall i :: 0 <= i < |rx| ==> rx[i].job < |jobs| && rx[i].k < |jobs[rx[i].job].chunks|)
    && (rx == [] ==> jobs == []) && (rx != [] ==> rx[0] == Item(0, 0) && rx[|rx| - 1].job == |jobs| - 1)
    && (forall i {:trigger rx[i]} :: 0 < i < |rx| ==> Follows(jobs, rx[i - 1], rx[i]))
  }

  predicate Follows(jobs: seq<Job>, prev: Item, it: Item) {
    it == if LastOf(jobs, prev) then Item(prev.job + 1, 0) else Item(prev.job, prev.k + 1)
  }

  /** Number of series the receive loop has taken completely. */
  function DoneJobs(jobs: seq<Job>, rx: seq<Item>, taken: nat): nat
    requires taken <= |rx|
  {
    if taken == 0 then 0 else if LastOf(jobs, rx[taken - 1]) then rx[taken - 1].job + 1 else rx[taken - 1].job
  }

  /** What the loop's connection holds after fragment `k` of a series. */
  function Partial(id: ConnId, msgId: nat, job: Job, k: nat): Conn
    requires k < |job.chunks|
  {
    Conn(id, msgId, if job.ReplyJob? then TYPE_RPLY else TYPE_NOTIF, |job.chunks| - 1, k,
         if job.chunks[0] == [] then 0 else |job.chunks[0]| + (|job.chunks| - 1) * MAX_PAYLOAD,
         Concat(job.chunks[..k + 1]), if job.ReplyJob? then job.err else 0, job.chunks[..k + 1])
  }

  ghost predicate IdFor(owners: seq<Owner>, job: Job, id: ConnId) {
    if job.ReplyJob? then job.pos < |owners| && id == CallConn(owners[job.pos].call) else id.NotifConn?
  }

  ghost predicate PendingIs(owners: seq<Owner>, job: Job, k: nat, pending: Option<Conn>)
    requires k < |job.chunks|
  {
    if k + 1 == |job.chunks| then pending.None?
    else pending.Some? && IdFor(owners, job, pending.value.id) &&
         pending.value == Partial(pending.value.id, pending.value.msgId, job, k)
  }

  ghost predicate RecvOk(owners: seq<Owner>, jobs: seq<Job>, rx: seq<Item>, taken: nat, recv: Recv) {
    && recv.Recv? && taken <= |rx|
    && (taken == 0 ==> recv.pending.None?)
    && (taken > 0 ==> rx[taken - 1].job < |jobs| && rx[taken - 1].k < |jobs[rx[taken - 1].job].chunks| &&
                      PendingIs(owners, jobs[rx[taken - 1].job], rx[taken - 1].k, recv.pending))
  }

  function ResultOf(job: Job): CallResult
    requires job.ReplyJob?
  {
    Reply(job.err, Concat(job.chunks))
  }

  /** Job `j` answers call `c`. */
  ghost predicate Answers(owners: seq<Owner>, jobs: seq<Job>, j: nat, c: nat) {
    j < |jobs| && jobs[j].ReplyJob? && jobs[j].pos < |owners| && owners[jobs[j].pos].call == c
  }

  /** A call is completed exactly when its answer has been taken whole, and with that answer. */
  ghost predicate DoneOk(owners: seq<Owner>, jobs: seq<Job>, n: nat, done: map<nat, CallResult>) {
    && (forall j: nat, c: nat :: Answers(owners, jobs, j, c) ==> (c in done <==> j < n))
    && (forall j: nat, c: nat :: Answers(owners, jobs, j, c) && j < n ==> c in done && done[c] == ResultOf(jobs[j]))
    && (forall c :: c in done ==> exists j: nat :: j < n && Answers(owners, jobs, j, c))
  }

  ghost predicate ReturnedOk(pc: Pcs, done: map<nat, CallResult>) {
    forall c :: c in pc && pc[c].Returned? ==> c in done && done[c] == pc[c].result
  }

  ghost predicate Inv(s: State) {
    && InfoOk(s.info) && PcOk(s.info, s.pc, s.lock) && TableOk(s.info, s.pc, s.table)
    && TxOk(s.info, s.tx, s.owners) && SentOk(s.info, s.pc, s.owners) && Distinct(s.owners)
    && Ordered(s.info, s.owners) && TailOk(s.info, s.pc, s.owners) && HolderTail(s.pc, s.owners)
    && JobsOk(s.info, s.pc, s.owners, s.jobs) && RxOk(s.jobs, s.rx)
    && RecvOk(s.owners, s.jobs, s.rx, s.taken, s.recv)
    && DoneOk(s.owners, s.jobs, DoneJobs(s.jobs, s.rx, s.taken), s.done) && ReturnedOk(s.pc, s.done)
  }

  lemma InitOk()
    ensures Inv(Init)
  {
  }

  // ---------------------------------------------------------------------------------------------------------------
  // Callers

  lemma BeginTable(info: Infos, pc: Pcs, table: Table, c: nat, q: Request)
    requires TableOk(info, pc, table) && pc.Keys == info.Keys && c !in info && q.seqNo !in table && q.seqNo < MAX_SEQ
    ensures TableOk(info[c := q], pc[c := Allocated], table[q.seqNo := CallInfo(c, q.msgId)])
  {
  }

  lemma BeginQueues(info: Infos, pc: Pcs, tx: seq<TxMsg>, owners: seq<Owner>, jobs: seq<Job>, c: nat, q: Request)
    requires TxOk(info, tx, owners) && SentOk(info, pc, owners) && TailOk(info, pc, owners) && HolderTail(pc, owners)
    requires JobsOk(info, pc, owners, jobs) && Ordered(info, owners) && c !in info && c !in pc
    ensures TxOk(info[c := q], tx, owners) && SentOk(info[c := q], pc[c := Allocated], owners)
    ensures TailOk(info[c := q], pc[c := Allocated], owners) && HolderTail(pc[c := Allocated], owners)
    ensures JobsOk(info[c := q], pc[c := Allocated], owners, jobs) && Ordered(info[c := q], owners)
  {
    var info' := info[c := q];
    forall i: nat | i < |owners| ensures Adjacent(info', owners, i) { assert Adjacent(info, owners, i); }
    forall j | 0 <= j < |jobs| && jobs[j].ReplyJob?
      ensures WhollySent(info[c := q], pc[c := Allocated], owners[jobs[j].pos].call)
    {
      assert WhollySent(info, pc, owners[jobs[j].pos].call);
    }
  }

  lemma BeginSmall(info: Infos, pc: Pcs, done: map<nat, CallResult>, c: nat, q: Request)
    requires InfoOk(info) && ReturnedOk(pc, done) && q.Ok()
    ensures InfoOk(info[c := q]) && ReturnedOk(pc[c := Allocated], done)
  {
  }

  lemma BeginKeeps(s: State, a: Action)
    requires Inv(s) && a.Begin? && Enabled(s, a)
    ensures Inv(Apply(s, a))
  {
    hide InfoOk, TableOk, TxOk, SentOk, Distinct, Ordered, TailOk, HolderTail, JobsOk, RxOk, RecvOk, DoneOk, ReturnedOk;
    SeriesLength(|a.req|);
    var q := Request(a.msgId, a.req, a.seqNo, MessageCount(|a.req|) - 1);
    assert q.Ok();
    BeginTable(s.info, s.pc, s.table, a.call, q);
    BeginQueues(s.info, s.pc, s.tx, s.owners, s.jobs, a.call, q);
    BeginSmall(s.info, s.pc, s.done, a.call, q);
  }

  /** Advancing a call never unsends a fragment. */
  lemma AdvanceQueues(info: Infos, pc: Pcs, owners: seq<Owner>, jobs: seq<Job>, c: nat, p: Pc)
    requires SentOk(info, pc, owners) && JobsOk(info, pc, owners, jobs)
    requires c in info && c in pc && Sent(info[c], pc[c]) <= Sent(info[c], p) <= info[c].fragments + 1
    ensures SentOk(info, pc[c := p], owners) && JobsOk(info, pc[c := p], owners, jobs)
  {
    forall j | 0 <= j < |jobs| && jobs[j].ReplyJob? ensures WhollySent(info, pc[c := p], owners[jobs[j].pos].call) {
      assert WhollySent(info, pc, owners[jobs[j].pos].call);
    }
  }

  lemma AdvanceTail(info: Infos, pc: Pcs, done: map<nat, CallResult>, owners: seq<Owner>, c: nat, p: Pc)
    requires TailOk(info, pc, owners) && HolderTail(pc, owners) && ReturnedOk(pc, done) && c in info && c in pc
    requires (p == Sending(0) && pc[c] == Allocated) || (p == Waiting && pc[c] == Sending(info[c].fragments + 1)) ||
             (pc[c] == Waiting && p.Returned? && c in done && done[c] == p.result)
    ensures TailOk(info, pc[c := p], owners) && HolderTail(pc[c := p], owners) && ReturnedOk(pc[c := p], done)
  {
  }

  lemma AdvanceTable(info: Infos, pc: Pcs, table: Table, c: nat, p: Pc)
    requires TableOk(info, pc, table) && c in pc && !pc[c].Returned? && !p.Returned?
    ensures TableOk(info, pc[c := p], table)
  {
  }

  lemma LockKeeps(s: State, a: Action)
    requires Inv(s) && a.LockSend? && Enabled(s, a)
    ensures Inv(Apply(s, a))
  {
    hide InfoOk, TableOk, TxOk, SentOk, Distinct, Ordered, TailOk, HolderTail, JobsOk, RxOk, RecvOk, DoneOk, ReturnedOk;
    AdvanceQueues(s.info, s.pc, s.owners, s.jobs, a.call, Sending(0));
    AdvanceTable(s.info, s.pc, s.table, a.call, Sending(0));
    AdvanceTail(s.info, s.pc, s.done, s.owners, a.call, Sending(0));
  }

  lemma UnlockKeeps(s: State, a: Action)
    requires Inv(s) && a.UnlockSend? && Enabled(s, a)
    ensures Inv(Apply(s, a))
  {
    hide InfoOk, TableOk, TxOk, SentOk, Distinct, Ordered, TailOk, HolderTail, JobsOk, RxOk, RecvOk, DoneOk, ReturnedOk;
    AdvanceQueues(s.info, s.pc, s.owners, s.jobs, a.call, Waiting);
    AdvanceTable(s.info, s.pc, s.table, a.call, Waiting);
    AdvanceTail(s.info, s.pc, s.done, s.owners, a.call, Waiting);
  }

  lemma ReturnTable(info: Infos, pc: Pcs, table: Table, c: nat, p: Pc)
    requires TableOk(info, pc, table) && c in info && c in pc && !pc[c].Returned? && p.Returned?
    ensures TableOk(info, pc[c := p], table - {info[c].seqNo})
  {
  }

  lemma ReturnKeeps(s: State, a: Action)
    requires Inv(s) && a.Return? && Enabled(s, a)
    ensures Inv(Apply(s, a))
  {
    hide InfoOk, TableOk, TxOk, SentOk, Distinct, Ordered, TailOk, HolderTail, JobsOk, RxOk, RecvOk, DoneOk, ReturnedOk;
    var p := Returned(s.done[a.call]);
    AdvanceQueues(s.info, s.pc, s.owners, s.jobs, a.call, p);
    ReturnTable(s.info, s.pc, s.table, a.call, p);
    AdvanceTail(s.info, s.pc, s.done, s.owners, a.call, p);
  }

  /** Growing the request queue by a later fragment does not disturb the answers. */
  lemma AppendOwner(owners: seq<Owner>, jobs: seq<Job>, n: nat, done: map<nat, CallResult>, o: Owner)
    requires DoneOk(owners, jobs, n, done)
    requires forall j :: 0 <= j < |jobs| && jobs[j].ReplyJob? ==> jobs[j].pos < |owners|
    ensures DoneOk(owners + [o], jobs, n, done)
  {
    var owners' := owners + [o];
    assert forall j: nat, c: nat :: Answers(owners', jobs, j, c) <==> Answers(owners, jobs, j, c);
  }

  lemma SendOwners(info: Infos, pc: Pcs, owners: seq<Owner>, c: nat, k: nat)
    requires SentOk(info, pc, owners) && Distinct(owners)
    requires c in info && c in pc && pc[c] == Sending(k) && k <= info[c].fragments
    ensures SentOk(info, pc[c := Sending(k + 1)], owners + [Owner(c, k)]) && Distinct(owners + [Owner(c, k)])
  {
    assert forall i :: 0 <= i < |owners| ==> owners[i] != Owner(c, k);
  }

  lemma SendOrdered(info: Infos, pc: Pcs, owners: seq<Owner>, c: nat, k: nat)
    requires Ordered(info, owners) && TailOk(info, pc, owners) && HolderTail(pc, owners)
    requires c in info && c in pc && pc[c] == Sending(k) && k <= info[c].fragments
    requires forall d :: d in pc && pc[d].Sending? ==> d == c
    ensures Ordered(info, owners + [Owner(c, k)])
    ensures TailOk(info, pc[c := Sending(k + 1)], owners + [Owner(c, k)])
    ensures HolderTail(pc[c := Sending(k + 1)], owners + [Owner(c, k)])
  {
    var owners' := owners + [Owner(c, k)];
    forall i: nat | i < |owners'| ensures Adjacent(info, owners', i) {
      if i < |owners| { assert Adjacent(info, owners, i); }
    }
  }

  lemma SendJobs(info: Infos, pc: Pcs, owners: seq<Owner>, jobs: seq<Job>, o: Owner)
    requires JobsOk(info, pc, owners, jobs)
    ensures JobsOk(info, pc, owners + [o], jobs)
    ensures forall j :: 0 <= j < |jobs| && jobs[j].ReplyJob? ==> jobs[j].pos < |owners|
  {
    assert forall i :: 0 <= i < |owners| ==> (owners + [o])[i] == owners[i];
  }

  lemma SendTx(info: Infos, tx: seq<TxMsg>, owners: seq<Owner>, c: nat, m: TxMsg, k: nat)
    requires TxOk(info, tx, owners) && c in info && IsFragment(info[c], m, k)
    ensures TxOk(info, tx + [m], owners + [Owner(c, k)])
  {
    hide IsFragment;
  }

  lemma SendReturned(pc: Pcs, done: map<nat, CallResult>, c: nat, k: nat)
    requires ReturnedOk(pc, done)
    ensures ReturnedOk(pc[c := Sending(k)], done)
  {
  }

  lemma SendRecv(owners: seq<Owner>, jobs: seq<Job>, rx: seq<Item>, taken: nat, recv: Recv, o: Owner)
    requires RecvOk(owners, jobs, rx, taken, recv)
    ensures RecvOk(owners + [o], jobs, rx, taken, recv)
  {
  }

  lemma SendKeeps(s: State, a: Action)
    requires Inv(s) && a.SendFragment? && Enabled(s, a)
    ensures Inv(Apply(s, a))
  {
    hide InfoOk, TableOk, TxOk, SentOk, Distinct, Ordered, TailOk, HolderTail, JobsOk, RxOk, RecvOk, DoneOk, ReturnedOk;
    hide DoneJobs, Fragment;
    var c, k, q := a.call, s.pc[a.call].k, s.info[a.call];
    var m := Fragment(TYPE_REQ, q.msgId, q.seqNo, q.fragments, q.req, k);
    AdvanceQueues(s.info, s.pc, s.owners, s.jobs, c, Sending(k + 1));
    SendOwners(s.info, s.pc, s.owners, c, k);
    SendOrdered(s.info, s.pc, s.owners, c, k);
    SendTx(s.info, s.tx, s.owners, c, m, k);
    SendJobs(s.info, s.pc[c := Sending(k + 1)], s.owners, s.jobs, Owner(c, k));
    SendReturned(s.pc, s.done, c, k + 1);
    AdvanceTable(s.info, s.pc, s.table, c, Sending(k + 1));
    SendRecv(s.owners, s.jobs, s.rx, s.taken, s.recv, Owner(c, k));
    AppendOwner(s.owners, s.jobs, DoneJobs(s.jobs, s.rx, s.taken), s.done, Owner(c, k));
  }

  // ---------------------------------------------------------------------------------------------------------------
  // The Resource Manager

  lemma {:induction false} SeriesAhead(info: Infos, owners: seq<Owner>, pos: nat, k: nat)
    requires Ordered(info, owners) && pos + k < |owners| && owners[pos].k == 0
    requires owners[pos].call in info && k <= info[owners[pos].call].fragments
    ensures owners[pos + k] == Owner(owners[pos].call, k)
  {
    if k > 0 {
      SeriesAhead(info, owners, pos, k - 1);
      assert Adjacent(info, owners, pos + k - 1);
    }
  }

  /** What the Resource Manager reads in the header of a queued request message. */
  lemma RequestHeader(q: Request, m: TxMsg, k: nat)
    requires IsFragment(q, m, k)
    ensures |m.bytes| > HDR_SIZE
    ensures DecodeHdr(m.bytes) == Hdr(1, 2, if k == 0 then TYPE_REQ else TYPE_CONT, q.fragments, q.seqNo, q.msgId)
    ensures DecodeHdr(m.bytes).Valid()
  {
    FragmentOnTheWire(TYPE_REQ, q.msgId, q.seqNo, q.fragments, q.req, k);
    assert Series(TYPE_REQ, q.msgId, q.seqNo, q.fragments, q.req)[k] == m;
  }

  /** A request the Resource Manager may answer is one call's, and wholly sent. */
  lemma AnswerableIsWhole(info: Infos, pc: Pcs, tx: seq<TxMsg>, owners: seq<Owner>, jobs: seq<Job>, pos: nat)
    requires TxOk(info, tx, owners) && SentOk(info, pc, owners) && Ordered(info, owners)
    requires forall c :: c in pc && c in info ==> Sent(info[c], pc[c]) <= info[c].fragments + 1
    requires Answerable(tx, jobs, pos)
    ensures pos < |owners| && owners[pos].k == 0 && WhollySent(info, pc, owners[pos].call)
    ensures pos + info[owners[pos].call].fragments < |owners|
  {
    var c := owners[pos].call;
    RequestHeader(info[c], tx[pos], owners[pos].k);
    SeriesAhead(info, owners, pos, info[c].fragments);
    assert owners[pos + info[c].fragments] == Owner(c, info[c].fragments);
  }

  lemma StartJobs(info: Infos, pc: Pcs, owners: seq<Owner>, jobs: seq<Job>, job: Job)
    requires JobsOk(info, pc, owners, jobs) && JobOk(job)
    requires job.ReplyJob? ==> job.pos < |owners| && owners[job.pos].k == 0 && WhollySent(info, pc, owners[job.pos].call)
    requires job.ReplyJob? ==> job.pos + info[owners[job.pos].call].fragments < |owners|
    requires job.ReplyJob? ==> forall j :: 0 <= j < |jobs| && jobs[j].ReplyJob? ==> jobs[j].pos != job.pos
    ensures JobsOk(info, pc, owners, jobs + [job])
  {
    hide JobOk;
  }

  lemma StartRx(owners: seq<Owner>, jobs: seq<Job>, rx: seq<Item>, taken: nat, recv: Recv, job: Job)
    requires RxOk(jobs, rx) && RmIdle(jobs, rx) && RecvOk(owners, jobs, rx, taken, recv) && |job.chunks| >= 1
    ensures RxOk(jobs + [job], rx + [Item(|jobs|, 0)])
    ensures RecvOk(owners, jobs + [job], rx + [Item(|jobs|, 0)], taken, recv)
    ensures DoneJobs(jobs + [job], rx + [Item(|jobs|, 0)], taken) == DoneJobs(jobs, rx, taken) <= |jobs|
  {
    var jobs', rx' := jobs + [job], rx + [Item(|jobs|, 0)];
    assert forall j :: 0 <= j < |jobs| ==> jobs'[j] == jobs[j];
    assert forall i :: 0 <= i < |rx| ==> rx'[i] == rx[i] && LastOf(jobs', rx[i]) == LastOf(jobs, rx[i]);
  }

  lemma StartDone(owners: seq<Owner>, jobs: seq<Job>, n: nat, done: map<nat, CallResult>, job: Job)
    requires DoneOk(owners, jobs, n, done) && Distinct(owners) && n <= |jobs|
    requires forall j :: 0 <= j < |jobs| && jobs[j].ReplyJob? ==> jobs[j].pos < |owners| && owners[jobs[j].pos].k == 0
    requires job.ReplyJob? ==> job.pos < |owners| && owners[job.pos].k == 0
    requires job.ReplyJob? ==> forall j :: 0 <= j < |jobs| && jobs[j].ReplyJob? ==> jobs[j].pos != job.pos
    ensures DoneOk(owners, jobs + [job], n, done)
  {
    var jobs' := jobs + [job];
    assert forall j: nat, c: nat :: j < |jobs| ==> (Answers(owners, jobs', j, c) <==> Answers(owners, jobs, j, c));
    if job.ReplyJob? {
      var c := owners[job.pos].call;
      forall j: nat | j < n ensures !Answers(owners, jobs, j, c) {
        if jobs[j].ReplyJob? { assert owners[jobs[j].pos] != owners[job.pos]; }
      }
    }
  }

  lemma RmStartKeeps(s: State, a: Action)
    requires Inv(s) && a.RmStart? && Enabled(s, a)
    ensures Inv(Apply(s, a))
  {
    if a.job.ReplyJob? {
      AnswerableIsWhole(s.info, s.pc, s.tx, s.owners, s.jobs, a.job.pos);
    }
    assert |a.job.chunks| >= 1;
    JobPositions(s.info, s.pc, s.owners, s.jobs);
    hide InfoOk, TableOk, TxOk, SentOk, Distinct, Ordered, TailOk, HolderTail, JobsOk, RxOk, RecvOk, DoneOk, ReturnedOk, PcOk;
    StartJobs(s.info, s.pc, s.owners, s.jobs, a.job);
    StartRx(s.owners, s.jobs, s.rx, s.taken, s.recv, a.job);
    StartDone(s.owners, s.jobs, DoneJobs(s.jobs, s.rx, s.taken), s.done, a.job);
  }

  lemma JobPositions(info: Infos, pc: Pcs, owners: seq<Owner>, jobs: seq<Job>)
    requires JobsOk(info, pc, owners, jobs)
    ensures forall j :: 0 <= j < |jobs| && jobs[j].ReplyJob? ==> jobs[j].pos < |owners| && owners[jobs[j].pos].k == 0
  {
  }

  lemma ContinueRx(owners: seq<Owner>, jobs: seq<Job>, rx: seq<Item>, taken: nat, recv: Recv)
    requires RxOk(jobs, rx) && RmBusy(jobs, rx) && RecvOk(owners, jobs, rx, taken, recv)
    ensures var rx' := rx + [Item(rx[|rx| - 1].job, rx[|rx| - 1].k + 1)];
            && RxOk(jobs, rx') && RecvOk(owners, jobs, rx', taken, recv)
            && DoneJobs(jobs, rx', taken) == DoneJobs(jobs, rx, taken)
  {
    var rx' := rx + [Item(rx[|rx| - 1].job, rx[|rx| - 1].k + 1)];
    assert forall i :: 0 <= i < |rx| ==> rx'[i] == rx[i];
  }

  lemma RmContinueKeeps(s: State, a: Action)
    requires Inv(s) && a.RmContinue? && Enabled(s, a)
    ensures Inv(Apply(s, a))
  {
    hide InfoOk, TableOk, TxOk, SentOk, Distinct, Ordered, TailOk, HolderTail, JobsOk, RxOk, RecvOk, DoneOk, ReturnedOk, PcOk;
    ContinueRx(s.owners, s.jobs, s.rx, s.taken, s.recv);
  }

  // ---------------------------------------------------------------------------------------------------------------
  // The receive loop

  /** The bytes of a series, read back. */
  lemma ItemOnTheWire(tx: seq<TxMsg>, job: Job, k: nat, q: Request)
    requires JobOk(job) && k < |job.chunks|
    requires job.ReplyJob? ==> job.pos < |tx| && IsFragment(q, tx[job.pos], 0)
    ensures job.ReplyJob? ==> |tx[job.pos].bytes| >= HDR_SIZE && DecodeHdr(tx[job.pos].bytes).Valid()
    ensures var m := ItemBytes(tx, job, k);
            && HDR_SIZE < |m| <= MAX_MSG_SIZE
            && DecodeHdr(m).fragments == |job.chunks| - 1
            && DecodeHdr(m).typ == (if k > 0 then TYPE_CONT else if job.ReplyJob? then TYPE_RPLY else TYPE_NOTIF)
            && (k > 0 || job.NotifJob? ==> m[HDR_SIZE..] == job.chunks[k])
            && (job.ReplyJob? ==> DecodeHdr(m).seqNo == q.seqNo && DecodeHdr(m).msgId == q.msgId)
            && (k == 0 && job.ReplyJob? ==>
                  |m| >= REPLY_HDR_SIZE && m[REPLY_HDR_SIZE..] == job.chunks[0] && DecodeErr(m) == job.err)
  {
    if job.ReplyJob? { RequestHeader(q, tx[job.pos], 0); }
    var h := if job.ReplyJob? then Hdr(1, 2, TYPE_RPLY, |job.chunks| - 1, q.seqNo, q.msgId)
             else Hdr(1, 2, TYPE_NOTIF, |job.chunks| - 1, 0, job.msgId);
    if k > 0 {
      HeaderRoundTrip(h.(typ := TYPE_CONT), job.chunks[k]);
    } else if job.ReplyJob? {
      ReplyRoundTrip(h, job.err, job.chunks[0]);
    } else {
      HeaderRoundTrip(h, job.chunks[0]);
    }
  }

  /** The connection that finishes a series carries all of it. */
  ghost predicate Whole(owners: seq<Owner>, job: Job, c: Conn) {
    && IdFor(owners, job, c.id) && c.data == Concat(job.chunks)
    && (job.ReplyJob? ==> c.rmError == job.err)
  }

  /** Taking fragment `k`: the series goes on, or completes with everything it carried. */
  ghost predicate Taken(owners: seq<Owner>, job: Job, k: nat, r: Recv, r': Recv)
    requires k < |job.chunks| && r.Recv?
  {
    && r'.Recv? && PendingIs(owners, job, k, r'.pending)
    && (k + 1 < |job.chunks| ==> r'.finished == r.finished)
    && (k + 1 == |job.chunks| ==>
          && |r'.finished| == |r.finished| + 1 && r'.finished[..|r.finished|] == r.finished
          && r'.finished[|r.finished|].Completed? && Whole(owners, job, r'.finished[|r.finished|].conn))
  }

  lemma AdoptedIsPartial(job: Job, id: ConnId, msgId: nat, h: Hdr, err: nat)
    requires JobOk(job) && h.fragments == |job.chunks| - 1
    requires h.typ == (if job.ReplyJob? then TYPE_RPLY else TYPE_NOTIF) && err == (if job.ReplyJob? then job.err else 0)
    ensures InitConn(id, msgId, h, job.chunks[0], err) == Partial(id, msgId, job, 0)
  {
    assert job.chunks[..1] == [job.chunks[0]];
    ConcatSingle(job.chunks[0]);
  }

  lemma TakeFirst(table: Table, tx: seq<TxMsg>, owners: seq<Owner>, job: Job, q: Request, r: Recv)
    requires JobOk(job) && r.Recv? && r.pending.None?
    requires job.ReplyJob? ==> job.pos < |tx| && job.pos < |owners| && IsFragment(q, tx[job.pos], 0)
    requires job.ReplyJob? ==> q.seqNo in table && table[q.seqNo] == CallInfo(owners[job.pos].call, q.msgId)
    ensures job.ReplyJob? ==> |tx[job.pos].bytes| >= HDR_SIZE && DecodeHdr(tx[job.pos].bytes).Valid()
    ensures Taken(owners, job, 0, r, Step(table, r, ItemBytes(tx, job, 0)))
  {
    ItemOnTheWire(tx, job, 0, q);
    var m := ItemBytes(tx, job, 0);
    var h := DecodeHdr(m);
    hide ItemBytes, DecodeHdr, DecodeErr, IsFragment;
    var r' := Step(table, r, m);
    if job.ReplyJob? {
      StartsReply(table, r, m, job.chunks[0]);
      AdoptedIsPartial(job, CallConn(owners[job.pos].call), h.msgId, h, job.err);
    } else {
      StartsNotif(table, r, m, job.chunks[0]);
      AdoptedIsPartial(job, NotifConn(r.notifs), h.msgId, h, 0);
    }
    if |job.chunks| == 1 { assert job.chunks[..1] == job.chunks; }
  }

  lemma {:induction false} PartialFits(job: Job, k: nat)
    requires JobOk(job) && k < |job.chunks| && job.chunks[0] != []
    ensures |Concat(job.chunks[..k + 1])| <= |job.chunks[0]| + k * MAX_PAYLOAD
  {
    if k == 0 {
      assert job.chunks[..1] == [job.chunks[0]];
      ConcatSingle(job.chunks[0]);
    } else {
      PartialFits(job, k - 1);
      assert job.chunks[..k + 1] == job.chunks[..k] + [job.chunks[k]];
      ConcatAppend(job.chunks[..k], job.chunks[k]);
    }
  }

  lemma NextFits(job: Job, k: nat, id: ConnId, msgId: nat)
    requires JobOk(job) && k + 1 < |job.chunks|
    ensures |Partial(id, msgId, job, k).data| + |job.chunks[k + 1]| <= Partial(id, msgId, job, k).capacity
  {
    PartialFits(job, k);
    hide Concat;
    var a, b, p := k + 1, |job.chunks| - 1, MAX_PAYLOAD;
    assert a * p <= b * p by { assert (b - a) * p >= 0; }
  }

  lemma NextPartial(job: Job, k: nat, id: ConnId, msgId: nat)
    requires JobOk(job) && k + 1 < |job.chunks|
    ensures var c := Partial(id, msgId, job, k);
            var payload := job.chunks[k + 1];
            && |c.data| + |payload| <= c.capacity && c.numFragments == |job.chunks| - 1
            && c.(data := c.data + payload, fragmentsReceived := c.fragmentsReceived + 1, frags := c.frags + [payload])
               == Partial(id, msgId, job, k + 1)
    ensures var c := Partial(id, msgId, job, k + 1);
            && c.id == id && c.msgId == msgId && c.fragmentsReceived == k + 1 && c.numFragments == |job.chunks| - 1
            && (job.ReplyJob? ==> c.rmError == job.err)
            && (k + 2 == |job.chunks| ==> c.data == Concat(job.chunks))
  {
    NextFits(job, k, id, msgId);
    hide JobOk, Concat;
    ConcatAppend(job.chunks[..k + 1], job.chunks[k + 1]);
    assert job.chunks[..k + 2] == job.chunks[..k + 1] + [job.chunks[k + 1]];
    if k + 2 == |job.chunks| { assert job.chunks[..k + 2] == job.chunks; }
  }

  lemma TakeNext(table: Table, tx: seq<TxMsg>, owners: seq<Owner>, job: Job, k: nat, q: Request, r: Recv)
    requires JobOk(job) && r.Recv? && k + 1 < |job.chunks| && PendingIs(owners, job, k, r.pending)
    requires job.ReplyJob? ==> job.pos < |tx| && job.pos < |owners| && IsFragment(q, tx[job.pos], 0)
    ensures job.ReplyJob? ==> |tx[job.pos].bytes| >= HDR_SIZE && DecodeHdr(tx[job.pos].bytes).Valid()
    ensures Taken(owners, job, k + 1, r, Step(table, r, ItemBytes(tx, job, k + 1)))
  {
    ItemOnTheWire(tx, job, k + 1, q);
    var m := ItemBytes(tx, job, k + 1);
    var c := r.pending.value;
    NextPartial(job, k, c.id, c.msgId);
    hide ItemBytes, DecodeHdr, IsFragment, Concat, Partial, JobOk, IdFor;
    ContinuesSeries(table, r, m, c, job.chunks[k + 1]);
  }

  /** The next item is the first fragment of the next series, or the next fragment of the one being taken. */
  lemma NextItem(owners: seq<Owner>, jobs: seq<Job>, rx: seq<Item>, taken: nat, recv: Recv)
    requires RxOk(jobs, rx) && RecvOk(owners, jobs, rx, taken, recv) && taken < |rx|
    ensures rx[taken].job < |jobs| && rx[taken].k < |jobs[rx[taken].job].chunks|
    ensures rx[taken].job == DoneJobs(jobs, rx, taken)
    ensures rx[taken].k == 0 ==> recv.pending.None?
    ensures rx[taken].k > 0 ==> PendingIs(owners, jobs[rx[taken].job], rx[taken].k - 1, recv.pending)
    ensures DoneJobs(jobs, rx, taken + 1) ==
            rx[taken].job + if rx[taken].k + 1 == |jobs[rx[taken].job].chunks| then 1 else 0
  {
    if taken > 0 { assert Follows(jobs, rx[taken - 1], rx[taken]); }
  }

  lemma AnswersUnique(owners: seq<Owner>, jobs: seq<Job>, i: nat, j: nat, c: nat)
    requires Distinct(owners) && Answers(owners, jobs, i, c) && Answers(owners, jobs, j, c)
    requires owners[jobs[i].pos].k == 0 && owners[jobs[j].pos].k == 0
    requires forall i, j :: 0 <= i < j < |jobs| && jobs[i].ReplyJob? && jobs[j].ReplyJob? ==> jobs[i].pos != jobs[j].pos
    ensures i == j
  {
    assert owners[jobs[i].pos] == owners[jobs[j].pos];
  }

  /** Only answer `n` is for call `c0`, and it is for no other call. */
  ghost predicate OneToOne(owners: seq<Owner>, jobs: seq<Job>, n: nat, c0: nat) {
    && Answers(owners, jobs, n, c0)
    && (forall j: nat :: Answers(owners, jobs, j, c0) ==> j == n) && (forall c: nat :: Answers(owners, jobs, n, c) ==> c == c0)
  }

  lemma DoneGrows(owners: seq<Owner>, jobs: seq<Job>, n: nat, done: map<nat, CallResult>, c0: nat)
    requires DoneOk(owners, jobs, n, done) && n < |jobs| && OneToOne(owners, jobs, n, c0)
    ensures DoneOk(owners, jobs, n + 1, done[c0 := ResultOf(jobs[n])]) && c0 !in done
  {
    var done' := done[c0 := ResultOf(jobs[n])];
    hide Answers, ResultOf;
    forall c | c in done' ensures exists j: nat :: j < n + 1 && Answers(owners, jobs, j, c) {
      if c != c0 {
        var j: nat :| j < n && Answers(owners, jobs, j, c);
        assert j < n + 1;
      }
    }
  }

  lemma DoneSame(owners: seq<Owner>, jobs: seq<Job>, n: nat, done: map<nat, CallResult>)
    requires DoneOk(owners, jobs, n, done) && n < |jobs| && jobs[n].NotifJob?
    ensures DoneOk(owners, jobs, n + 1, done)
  {
    assert forall c: nat :: !Answers(owners, jobs, n, c);
    hide Answers, ResultOf;
    forall c | c in done ensures exists j: nat :: j < n + 1 && Answers(owners, jobs, j, c) {
      var j: nat :| j < n && Answers(owners, jobs, j, c);
      assert j < n + 1;
    }
  }

  /** Completing series `n` completes the call it answers, with that answer, and no other call. */
  lemma CompleteDone(info: Infos, pc: Pcs, owners: seq<Owner>, jobs: seq<Job>, n: nat, done: map<nat, CallResult>)
    requires DoneOk(owners, jobs, n, done) && Distinct(owners) && JobsOk(info, pc, owners, jobs) && n < |jobs|
    requires ReturnedOk(pc, done)
    ensures jobs[n].NotifJob? ==> DoneOk(owners, jobs, n + 1, done)
    ensures jobs[n].ReplyJob? ==>
              jobs[n].pos < |owners| &&
              var done' := done[owners[jobs[n].pos].call := ResultOf(jobs[n])];
              DoneOk(owners, jobs, n + 1, done') && ReturnedOk(pc, done')
  {
    JobPositions(info, pc, owners, jobs);
    hide Distinct, DoneOk, ResultOf;
    if jobs[n].ReplyJob? {
      var c0 := owners[jobs[n].pos].call;
      forall j: nat | Answers(owners, jobs, j, c0) ensures j == n { AnswersUnique(owners, jobs, j, n, c0); }
      DoneGrows(owners, jobs, n, done, c0);
    } else {
      DoneSame(owners, jobs, n, done);
    }
  }

  /** An answer that is not taken yet belongs to a call still in the table. */
  lemma AnswerExpected(s: State, j: nat)
    requires Inv(s) && j < |s.jobs| && s.jobs[j].ReplyJob? && s.taken <= |s.rx| && DoneJobs(s.jobs, s.rx, s.taken) <= j
    ensures s.jobs[j].pos < |s.owners| && s.jobs[j].pos < |s.tx| && s.owners[s.jobs[j].pos].call in s.info
    ensures var c := s.owners[s.jobs[j].pos].call;
            var q := s.info[c];
            IsFragment(q, s.tx[s.jobs[j].pos], 0) && q.seqNo in s.table && s.table[q.seqNo] == CallInfo(c, q.msgId)
  {
    hide JobOk, IsFragment, RxOk, RecvOk, HolderTail, TailOk, Ordered, Distinct;
    var c := s.owners[s.jobs[j].pos].call;
    assert Answers(s.owners, s.jobs, j, c);
    assert c !in s.done;
    assert c in s.pc && !s.pc[c].Returned?;
  }

  /** The loop can take the next item, and taking it does what `Taken` says. */
  ghost predicate TakesNext(s: State) {
    && Enabled(s, ReceiveOne)
    && var it := s.rx[s.taken];
       Taken(s.owners, s.jobs[it.job], it.k, s.recv, Step(s.table, s.recv, ItemBytes(s.tx, s.jobs[it.job], it.k)))
  }

  lemma JobAt(info: Infos, pc: Pcs, owners: seq<Owner>, jobs: seq<Job>, j: nat)
    requires JobsOk(info, pc, owners, jobs) && j < |jobs|
    ensures JobOk(jobs[j])
  {
  }

  /** What `NextItem` says, in a state of the machine. */
  ghost predicate ItemReady(s: State) {
    && s.recv.Recv? && s.taken < |s.rx|
    && var it := s.rx[s.taken];
       && it.job < |s.jobs| && it.k < |s.jobs[it.job].chunks| && JobOk(s.jobs[it.job])
       && it.job == DoneJobs(s.jobs, s.rx, s.taken)
       && (it.k == 0 ==> s.recv.pending.None?)
       && (it.k > 0 ==> PendingIs(s.owners, s.jobs[it.job], it.k - 1, s.recv.pending))
       && DoneJobs(s.jobs, s.rx, s.taken + 1) == it.job + if it.k + 1 == |s.jobs[it.job].chunks| then 1 else 0
  }

  lemma NextItemReady(s: State)
    requires Inv(s) && s.taken < |s.rx|
    ensures ItemReady(s)
  {
    hide InfoOk, TableOk, TxOk, SentOk, Distinct, Ordered, TailOk, HolderTail, JobsOk, RxOk, DoneOk, ReturnedOk, PcOk;
    NextItem(s.owners, s.jobs, s.rx, s.taken, s.recv);
    JobAt(s.info, s.pc, s.owners, s.jobs, s.rx[s.taken].job);
  }

  lemma ReceiveTakes(s: State)
    requires Inv(s) && s.taken < |s.rx|
    ensures ItemReady(s) && TakesNext(s)
  {
    hide Inv, Taken, Step, IsFragment, JobOk, PendingIs, DoneJobs;
    NextItemReady(s);
    var it := s.rx[s.taken];
    var job := s.jobs[it.job];
    var q := Request(0, [], 0, 0);
    if job.ReplyJob? {
      AnswerExpected(s, it.job);
      q := s.info[s.owners[job.pos].call];
    }
    if it.k == 0 {
      TakeFirst(s.table, s.tx, s.owners, job, q, s.recv);
    } else {
      TakeNext(s.table, s.tx, s.owners, job, it.k - 1, q, s.recv);
    }
  }

  /** A reply cut off by another series gives its caller an error, not a reply. */
  lemma DeliverCutOff(done: map<nat, CallResult>, c: Conn)
    requires c.id.CallConn?
    ensures Deliver(done, [Aborted(c)]) == done[c.id.call := CutOff]
  {
    assert [Aborted(c)][..0] == [];
  }

  lemma DeliverOne(done: map<nat, CallResult>, finishes: seq<Finish>)
    requires |finishes| == 1 && finishes[0].Completed?
    ensures var c := finishes[0].conn;
            Deliver(done, finishes) == if c.id.CallConn? then done[c.id.call := Reply(c.rmError, c.data)] else done
  {
    assert finishes[..0] == [];
  }

  /** The state after taking the next item, written out. */
  lemma ReceiveApplied(s: State)
    requires ItemReady(s) && TakesNext(s)
    ensures var s' := Apply(s, ReceiveOne);
            var it := s.rx[s.taken];
            var job := s.jobs[it.job];
            && s' == s.(taken := s.taken + 1, recv := s'.recv, done := s'.done)
            && RecvOk(s.owners, s.jobs, s.rx, s.taken + 1, s'.recv)
            && s'.done == if it.k + 1 == |job.chunks| && job.ReplyJob? then
                            s.done[s.owners[job.pos].call := ResultOf(job)] else s.done
  {
    hide Step, JobOk, DoneJobs, ItemBytes;
    var it := s.rx[s.taken];
    var job := s.jobs[it.job];
    var r := Step(s.table, s.recv, ItemBytes(s.tx, job, it.k));
    var news := r.finished[|s.recv.finished|..];
    if it.k + 1 == |job.chunks| {
      DeliverOne(s.done, news);
    } else {
      assert news == [];
    }
  }

  lemma ReceiveKeeps(s: State, a: Action)
    requires Inv(s) && a.ReceiveOne? && Enabled(s, a)
    ensures Inv(Apply(s, a))
  {
    hide InfoOk, TableOk, TxOk, SentOk, Distinct, Ordered, TailOk, HolderTail, JobsOk, RxOk, RecvOk, DoneOk, ReturnedOk, PcOk;
    hide Apply, TakesNext, ResultOf;
    ReceiveTakes(s);
    ReceiveApplied(s);
    CompleteDone(s.info, s.pc, s.owners, s.jobs, s.rx[s.taken].job, s.done);
  }

  // ---------------------------------------------------------------------------------------------------------------
  // Every run

  lemma StepKeeps(s: State, a: Action)
    requires Inv(s) && Enabled(s, a)
    ensures Inv(Apply(s, a))
  {
    hide Inv, Apply, Enabled;
    match a
    case Begin(_, _, _, _) => BeginKeeps(s, a);
    case LockSend(_) => LockKeeps(s, a);
    case SendFragment(_) => SendKeeps(s, a);
    case UnlockSend(_) => UnlockKeeps(s, a);
    case RmStart(_) => RmStartKeeps(s, a);
    case RmContinue => RmContinueKeeps(s, a);
    case ReceiveOne => ReceiveKeeps(s, a);
    case Return(_) => ReturnKeeps(s, a);
  }

  lemma {:induction false} RunKeeps(states: seq<State>, actions: seq<Action>, n: nat)
    requires IsRun(states, actions) && n < |states|
    ensures Inv(states[n])
  {
    hide Inv, Apply, Enabled;
    if n == 0 {
      InitOk();
    } else {
      RunKeeps(states, actions, n - 1);
      assert Moves(states, actions, n - 1);
      StepKeeps(states[n - 1], actions[n - 1]);
    }
  }

  /** In every reachable state, two calls that have not returned have different sequence numbers. */
  lemma SequenceNumbersDistinct(states: seq<State>, actions: seq<Action>, n: nat, c: nat, d: nat)
    requires IsRun(states, actions) && n < |states|
    requires var s := states[n];
             c in s.pc && d in s.pc && c != d && !s.pc[c].Returned? && !s.pc[d].Returned?
    ensures var s := states[n];
            c in s.info && d in s.info && s.info[c].seqNo != s.info[d].seqNo
  {
    RunKeeps(states, actions, n);
    var s := states[n];
    assert PcOk(s.info, s.pc, s.lock) && TableOk(s.info, s.pc, s.table);
    hide *;
    TableInjective(s.info, s.pc, s.table, c, d);
  }

  lemma TableInjective(info: Infos, pc: Pcs, table: Table, c: nat, d: nat)
    requires TableOk(info, pc, table) && pc.Keys == info.Keys
    requires c in pc && d in pc && c != d && !pc[c].Returned? && !pc[d].Returned?
    ensures info[c].seqNo != info[d].seqNo
  {
  }

  lemma QueuePieces(s: State)
    requires Inv(s)
    ensures TxOk(s.info, s.tx, s.owners) && |s.tx| == |s.owners| && Ordered(s.info, s.owners) && Distinct(s.owners)
    ensures JobsOk(s.info, s.pc, s.owners, s.jobs)
  {
    hide InfoOk, TableOk, SentOk, Distinct, Ordered, TailOk, HolderTail, JobsOk, RxOk, RecvOk, DoneOk, ReturnedOk, PcOk;
  }

  /** In every run the receive loop can take the next message, without a fault, and then holds that series so far. */
  lemma ReceiveNeverFaults(states: seq<State>, actions: seq<Action>, n: nat)
    requires IsRun(states, actions) && n < |states| && states[n].taken < |states[n].rx|
    ensures ItemReady(states[n]) && TakesNext(states[n])
  {
    hide IsRun, Inv, ItemReady, TakesNext;
    RunKeeps(states, actions, n);
    ReceiveTakes(states[n]);
  }

  /** In every run: from the first message of a request on, the queue holds that one request's series, uninterrupted. */
  lemma RequestsNeverInterleave(states: seq<State>, actions: seq<Action>, n: nat, pos: nat)
    requires IsRun(states, actions) && n < |states|
    requires pos < |states[n].owners| && states[n].owners[pos].k == 0
    ensures var s := states[n];
            var c := s.owners[pos].call;
            && |s.tx| == |s.owners| && c in s.info && s.info[c].Ok()
            && var q := s.info[c];
               var series := Series(TYPE_REQ, q.msgId, q.seqNo, q.fragments, q.req);
               var end := Min(pos + |series|, |s.tx|);
               s.tx[pos..end] == series[..end - pos]
  {
    hide Inv, IsRun, TxOk, Ordered, JobsOk, Distinct;
    RunKeeps(states, actions, n);
    var s := states[n];
    QueuePieces(s);
    SeriesOnQueue(s.info, s.tx, s.owners, pos);
  }

  lemma SeriesOnQueue(info: Infos, tx: seq<TxMsg>, owners: seq<Owner>, pos: nat)
    requires TxOk(info, tx, owners) && Ordered(info, owners) && pos < |owners| && owners[pos].k == 0
    ensures owners[pos].call in info && info[owners[pos].call].Ok()
    ensures var q := info[owners[pos].call];
            var series := Series(TYPE_REQ, q.msgId, q.seqNo, q.fragments, q.req);
            var end := Min(pos + |series|, |tx|);
            tx[pos..end] == series[..end - pos]
  {
    var c := owners[pos].call;
    var q := info[c];
    assert IsFragment(q, tx[pos], 0);
    var series := Series(TYPE_REQ, q.msgId, q.seqNo, q.fragments, q.req);
    var end := Min(pos + |series|, |tx|);
    forall k: nat | k < end - pos ensures tx[pos + k] == series[k] {
      SeriesAhead(info, owners, pos, k);
      assert owners[pos + k] == Owner(c, k);
      assert IsFragment(q, tx[pos + k], k);
    }
  }

  /** In every run: every message of the queue lies in the series that starts `k` places before it. */
  lemma EveryMessageInItsSeries(states: seq<State>, actions: seq<Action>, n: nat, i: nat)
    requires IsRun(states, actions) && n < |states| && i < |states[n].owners|
    ensures var owners := states[n].owners;
            owners[i].k <= i && owners[i - owners[i].k] == Owner(owners[i].call, 0)
  {
    hide Inv, IsRun, TxOk, Ordered, JobsOk, Distinct;
    RunKeeps(states, actions, n);
    var s := states[n];
    QueuePieces(s);
    SeriesBehind(s.info, s.owners, i);
  }

  lemma {:induction false} SeriesBehind(info: Infos, owners: seq<Owner>, i: nat)
    requires Ordered(info, owners) && i < |owners|
    ensures owners[i].k <= i && owners[i - owners[i].k] == Owner(owners[i].call, 0)
  {
    assert Adjacent(info, owners, i);
    if owners[i].k > 0 { SeriesBehind(info, owners, i - 1); }
  }

  /**
    In every run: a call that has returned got the answer the Resource Manager gave to the request that this call put on
    the queue, not to another call's, even one with the same bytes.
   */
  lemma EachCallGetsItsOwnReply(states: seq<State>, actions: seq<Action>, n: nat, c: nat)
    requires IsRun(states, actions) && n < |states|
    requires c in states[n].pc && states[n].pc[c].Returned?
    ensures var s := states[n];
            && |s.tx| == |s.owners| && c in s.info && s.info[c].Ok()
            && exists j: nat :: AnsweredBy(s, c, j) && s.pc[c].result == ResultOf(s.jobs[j])
  {
    RunKeeps(states, actions, n);
    var s := states[n];
    hide IsRun;
    ReturnedAnswered(s.pc, s.owners, s.jobs, DoneJobs(s.jobs, s.rx, s.taken), s.done, c);
    var j: nat :| Answers(s.owners, s.jobs, j, c) && s.pc[c].result == ResultOf(s.jobs[j]);
    WholeRequestAt(s, j, c);
  }

  /** Job `j` answers the request that call `c` itself put on the queue, and whose series stands there whole. */
  ghost predicate AnsweredBy(s: State, c: nat, j: nat) {
    && j < |s.jobs| && s.jobs[j].ReplyJob? && c in s.info && s.info[c].Ok()
    && var q, pos := s.info[c], s.jobs[j].pos;
       pos + q.fragments < |s.tx| && pos < |s.owners| && s.owners[pos] == Owner(c, 0) &&
       s.tx[pos .. pos + q.fragments + 1] == Series(TYPE_REQ, q.msgId, q.seqNo, q.fragments, q.req)
  }

  lemma ReturnedAnswered(pc: Pcs, owners: seq<Owner>, jobs: seq<Job>, n: nat, done: map<nat, CallResult>, c: nat)
    requires DoneOk(owners, jobs, n, done) && ReturnedOk(pc, done) && c in pc && pc[c].Returned?
    ensures exists j: nat :: Answers(owners, jobs, j, c) && pc[c].result == ResultOf(jobs[j])
  {
    var j: nat :| j < n && Answers(owners, jobs, j, c);
    assert pc[c].result == ResultOf(jobs[j]);
  }

  lemma WholeRequestAt(s: State, j: nat, c: nat)
    requires Inv(s) && Answers(s.owners, s.jobs, j, c)
    ensures |s.tx| == |s.owners| && AnsweredBy(s, c, j)
  {
    hide Inv, Ordered, TxOk, Distinct;
    QueuePieces(s);
    JobPositions(s.info, s.pc, s.owners, s.jobs);
    SeriesOnQueue(s.info, s.tx, s.owners, s.jobs[j].pos);
  }

  // ---------------------------------------------------------------------------------------------------------------
  // Sequence numbers are there to be had

  /** The calls that have begun and not returned. */
  function Outstanding(pc: Pcs): set<nat> { set c | c in pc && !pc[c].Returned? }

  /** With the first k numbers all taken, k different calls hold them. */
  lemma {:induction false} Holders(info: Infos, pc: Pcs, table: Table, k: nat) returns (calls: set<nat>)
    requires TableOk(info, pc, table) && forall q: nat :: q < k ==> q in table
    ensures |calls| == k && calls <= Outstanding(pc) && forall c <- calls :: c in info && info[c].seqNo < k
  {
    if k == 0 {
      calls := {};
    } else {
      var fewer := Holders(info, pc, table, k - 1);
      calls := fewer + {table[k - 1].call};
    }
  }

  /** With fewer than 65535 calls outstanding a sequence number is free, so a call can begin. */
  lemma SequenceNumberAvailable(states: seq<State>, actions: seq<Action>, n: nat)
    requires IsRun(states, actions) && n < |states| && |Outstanding(states[n].pc)| < MAX_SEQ
    ensures exists q: nat :: q < MAX_SEQ && q !in states[n].table
  {
    RunKeeps(states, actions, n);
    var s := states[n];
    assert TableOk(s.info, s.pc, s.table);
    hide *;
    if forall q: nat :: q < MAX_SEQ ==> q in s.table {
      var calls := Holders(s.info, s.pc, s.table, MAX_SEQ);
      SubsetSize(calls, Outstanding(s.pc));
    }
  }

  lemma {:induction false} SubsetSize(a: set<nat>, b: set<nat>)
    requires a <= b
    ensures |a| <= |b|
  {
    if a != {} {
      var x :| x in a;
      SubsetSize(a - {x}, b - {x});
    }
  }
}
