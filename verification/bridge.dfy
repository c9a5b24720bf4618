/**
 What holds of the bridge in every interleaving of its steps: the queue and its answers, the pending map,
 where answers come from, and ESTOP first.
 */
module Bridge {
  import opened BatchOrder
  import opened BridgeSteps

  // ----- the queue and its answers -----

  function JobsOf(os: seq<Outcome>): seq<Job> {
    if os == [] then [] else JobsOf(os[..|os| - 1]) + [os[|os| - 1].job]
  }

  function SentOf(o: Outcome): Sent
    requires o.Settled?
  {
    Sent(o.job.client, o.job.frame.seqNo, o.ack, o.delivered)
  }

  /** The ACKs for the settled jobs: one each, with the job's own sequence number, none for dropped jobs. */
  function AcksOf(os: seq<Outcome>): seq<Sent> {
    if os == [] then []
    else
      var o := os[|os| - 1];
      AcksOf(os[..|os| - 1]) + if o.Settled? then [SentOf(o)] else []
  }

  function PubOf(j: Job): Pub {
    Pub(j.client, j.batch, j.frame)
  }

  function PubsOf(os: seq<Outcome>): seq<Pub> {
    if os == [] then []
    else
      var o := os[|os| - 1];
      PubsOf(os[..|os| - 1]) + if o.Settled? && o.published then [PubOf(o.job)] else []
  }

  function WorkerPubs(ps: seq<Pub>): seq<Pub> {
    if ps == [] then []
    else WorkerPubs(ps[..|ps| - 1]) + if IsEstop(ps[|ps| - 1].frame) then [] else [ps[|ps| - 1]]
  }

  function InHand(w: Worker): seq<Job> {
    if w.Idle? then [] else [w.job]
  }

  function InHandPub(w: Worker): seq<Pub> {
    if HasPublished(w) || (w.Answered? && w.published) then [PubOf(w.job)] else []
  }

  lemma JobsSnoc(os: seq<Outcome>, o: Outcome)
    ensures JobsOf(os + [o]) == JobsOf(os) + [o.job]
    ensures AcksOf(os + [o]) == AcksOf(os) + if o.Settled? then [SentOf(o)] else []
    ensures PubsOf(os + [o]) == PubsOf(os) + if o.Settled? && o.published then [PubOf(o.job)] else []
  {
    assert (os + [o])[..|os|] == os;
  }

  lemma PubsSnoc(ps: seq<Pub>, p: Pub)
    ensures WorkerPubs(ps + [p]) == WorkerPubs(ps) + if IsEstop(p.frame) then [] else [p]
  {
    assert (ps + [p])[..|ps|] == ps;
  }

  /** Enqueue order is settle order; the ACKs and the worker's publications follow it. */
  ghost predicate QueueInv(s: Sys) {
    && s.enqueued == JobsOf(s.settled) + InHand(s.worker) + s.queue
    && s.sent == AcksOf(s.settled)
    && WorkerPubs(s.published) == PubsOf(s.settled) + InHandPub(s.worker)
    && (forall j :: j in s.enqueued ==> IsCommand(j.frame) && !IsEstop(j.frame) && j.client in s.clients)
  }

  lemma WorkerJobQueued(s: Sys)
    requires QueueInv(s) && !s.worker.Idle?
    ensures s.worker.job in s.enqueued
  {
    assert s.worker.job in InHand(s.worker);
  }

  /** Steps that leave the queue, the job in hand and the logs alone. */
  lemma QueueFrame(s: Sys, s': Sys)
    requires QueueInv(s)
    requires s'.enqueued == s.enqueued && s'.settled == s.settled && s'.queue == s.queue && s'.sent == s.sent
    requires s'.published == s.published && s.clients.Keys <= s'.clients.Keys
    requires InHand(s'.worker) == InHand(s.worker) && InHandPub(s'.worker) == InHandPub(s.worker)
    ensures QueueInv(s')
  {
  }

  lemma QueueEnqueue(s: Sys, s': Sys, job: Job)
    requires QueueInv(s) && IsCommand(job.frame) && !IsEstop(job.frame) && job.client in s.clients
    requires s'.enqueued == s.enqueued + [job] && s'.queue == s.queue + [job]
    requires s'.settled == s.settled && s'.sent == s.sent && s'.published == s.published
    requires s'.worker == s.worker && s'.clients.Keys == s.clients.Keys
    ensures QueueInv(s')
  {
  }

  lemma MoveHead(a: seq<Job>, q: seq<Job>)
    requires q != []
    ensures a + [] + q == a + [q[0]] + q[1..]
    ensures a + [] + q == (a + [q[0]]) + [] + q[1..]
  {
    assert q == [q[0]] + q[1..];
  }

  lemma CloseHand<T>(a: seq<T>, h: seq<T>, q: seq<T>)
    ensures a + h + q == (a + h) + [] + q
    ensures a + h == (a + h) + []
  {
  }

  lemma QueueTake(s: Sys, s': Sys, job: Job)
    requires QueueInv(s) && s.worker.Idle? && s.queue != [] && job == s.queue[0]
    requires s'.enqueued == s.enqueued && s'.queue == s.queue[1..] && s'.sent == s.sent && s'.published == s.published
    requires s'.clients == s.clients
    requires || (s'.worker == Taken(job) && s'.settled == s.settled)
             || (s'.worker == Idle && s'.settled == s.settled + [Dropped(job)])
    ensures QueueInv(s')
  {
    JobsSnoc(s.settled, Dropped(job));
    MoveHead(JobsOf(s.settled), s.queue);
  }

  lemma QueueKeepsDequeue(s: Sys)
    requires Enabled(s, Dequeue) && QueueInv(s)
    ensures QueueInv(DoDequeue(s))
  {
    QueueTake(s, DoDequeue(s), s.queue[0]);
  }

  lemma QueuePublish(s: Sys, s': Sys, p: Pub)
    requires QueueInv(s) && s.worker.Recorded? && p == PubOf(s.worker.job)
    requires s'.enqueued == s.enqueued && s'.queue == s.queue && s'.settled == s.settled && s'.sent == s.sent
    requires s'.clients == s.clients && s'.published == s.published + [p]
    requires s'.worker == Waiting(s.worker.job, s.worker.since)
    ensures QueueInv(s')
  {
    NotAnEstop(s);
    PubsSnoc(s.published, p);
    FillHand(PubsOf(s.settled), p);
    assert InHand(s'.worker) == InHand(s.worker);
  }

  lemma NotAnEstop(s: Sys)
    requires QueueInv(s) && !s.worker.Idle?
    ensures !IsEstop(s.worker.job.frame)
  {
    WorkerJobQueued(s);
  }

  lemma FillHand(ps: seq<Pub>, p: Pub)
    ensures (ps + []) + [p] == ps + [p]
  {
  }

  lemma QueueKeepsPublish(s: Sys)
    requires Enabled(s, Publish) && QueueInv(s)
    ensures QueueInv(DoPublish(s))
  {
    QueuePublish(s, DoPublish(s), PubOf(s.worker.job));
  }

  lemma QueueSettle(s: Sys, s': Sys, o: Outcome)
    requires QueueInv(s) && s.worker.Answered?
    requires o.Settled? && o == Settled(s.worker.job, s.worker.ack, s.worker.since, s.worker.published, o.delivered)
    requires s'.enqueued == s.enqueued && s'.queue == s.queue && s'.published == s.published && s'.clients == s.clients
    requires s'.worker == Idle && s'.settled == s.settled + [o]
    requires s'.sent == s.sent + [SentOf(o)]
    ensures QueueInv(s')
  {
    JobsSnoc(s.settled, o);
    CloseHand(JobsOf(s.settled), [o.job], s.queue);
    CloseHand(PubsOf(s.settled), InHandPub(s.worker), []);
  }

  lemma QueueKeepsSendAck(s: Sys, ok: bool)
    requires Enabled(s, SendAck(ok)) && QueueInv(s)
    ensures QueueInv(DoSendAck(s, ok))
  {
    var s' := DoSendAck(s, ok);
    QueueSettle(s, s', s'.settled[|s.settled|]);
  }

  lemma QueueKeepsHandle(s: Sys, c: nat, helloOk: bool)
    requires Enabled(s, Handle(c, helloOk)) && QueueInv(s)
    ensures QueueInv(DoHandle(s, c, helloOk))
  {
    var s' := DoHandle(s, c, helloOk);
    var f := s.clients[c].todo[0];
    HandleFrame(s, c, helloOk);
    if IsCommand(f) && !IsEstop(f) {
      QueueEnqueue(s, s', Job(c, s.clients[c].batch, f));
    } else {
      QueueFrame(s, s');
    }
  }

  lemma QueueKeepsEstop(s: Sys, c: nat)
    requires Enabled(s, PublishEstop(c)) && QueueInv(s) && HeadIsEstop(s)
    ensures QueueInv(DoPublishEstop(s, c))
  {
    PubsSnoc(s.published, Pub(c, s.clients[c].batch, s.clients[c].todo[0]));
  }

  /** A frame inside `urgent_estop` is an ESTOP, and its number is in the slot's history once stored. */
  ghost predicate HeadOk(k: Client, stored: seq<nat>) {
    k.stage != NotStarted ==>
      k.todo != [] && IsEstop(k.todo[0]) && (k.stage != FlagRaised ==> k.todo[0].seqNo in stored)
  }

  ghost predicate HeadIsEstop(s: Sys) {
    forall c :: c in s.clients ==> HeadOk(s.clients[c], s.stored)
  }

  lemma HeadOne(s: Sys, s': Sys, c: nat)
    requires HeadIsEstop(s) && c in s'.clients
    requires s'.clients == s.clients[c := s'.clients[c]] && s.stored <= s'.stored
    requires HeadOk(s'.clients[c], s'.stored)
    ensures HeadIsEstop(s')
  {
    forall d | d in s'.clients ensures HeadOk(s'.clients[d], s'.stored) {
      if d != c {
        assert HeadOk(s.clients[d], s.stored);
      }
    }
  }

  lemma HeadKeeps(s: Sys, step: Step)
    requires Enabled(s, step) && HeadIsEstop(s)
    ensures HeadIsEstop(Apply(s, step))
  {
    if OfClient(step) {
      HeadMoves(s, step);
    } else if OfCallback(step) {
      CallbackFrame(s, step);
    } else {
      WorkerFrame(s, step);
    }
  }

  lemma HeadMoves(s: Sys, step: Step)
    requires Enabled(s, step) && OfClient(step) && HeadIsEstop(s)
    ensures HeadIsEstop(Apply(s, step))
  {
    match step
    case Accept(c) => HeadOne(s, Apply(s, step), c);
    case Receive(c, frames) => HeadOne(s, DoReceive(s, c, frames), c);
    case Handle(c, helloOk) => HeadHandle(s, c, helloOk);
    case StoreSeq(c) => HeadOne(s, DoStoreSeq(s, c), c);
    case ArmSlot(c) => HeadOne(s, DoArmSlot(s, c), c);
    case RecordEstop(c) => HeadOne(s, DoRecordEstop(s, c), c);
    case PublishEstop(c) => HeadOne(s, DoPublishEstop(s, c), c);
    case Close(c) => HeadOne(s, Apply(s, step), c);
  }

  lemma HeadHandle(s: Sys, c: nat, helloOk: bool)
    requires Enabled(s, Handle(c, helloOk)) && HeadIsEstop(s)
    ensures HeadIsEstop(DoHandle(s, c, helloOk))
  {
    HandleFrame(s, c, helloOk);
    HandledHead(s, c, helloOk);
    HeadOne(s, DoHandle(s, c, helloOk), c);
  }

  lemma HandledHead(s: Sys, c: nat, helloOk: bool)
    requires Enabled(s, Handle(c, helloOk))
    ensures var s' := DoHandle(s, c, helloOk);
            && c in s'.clients && s'.clients == s.clients[c := s'.clients[c]]
            && HeadOk(s'.clients[c], s.stored)
  {
  }

  lemma QueueKeepsWorker(s: Sys, step: Step)
    requires Enabled(s, step) && !OfClient(step) && !OfCallback(step) && QueueInv(s)
    ensures QueueInv(Apply(s, step))
  {
    if step.Dequeue? {
      QueueKeepsDequeue(s);
    } else if step.Publish? {
      QueueKeepsPublish(s);
    } else if step.SendAck? {
      QueueKeepsSendAck(s, step.ok);
    } else {
      SameHand(s, step);
      QueueFrame(s, Apply(s, step));
    }
  }

  lemma SameHand(s: Sys, step: Step)
    requires Enabled(s, step) && !OfClient(step) && !OfCallback(step)
    requires !step.Dequeue? && !step.Publish? && !step.SendAck?
    ensures var s' := Apply(s, step);
            && s' == s.(worker := s'.worker, pending := s'.pending)
            && InHand(s'.worker) == InHand(s.worker) && InHandPub(s'.worker) == InHandPub(s.worker)
  {
  }

  lemma SameQueue(s: Sys, step: Step)
    requires Enabled(s, step) && OfClient(step) && !step.Handle? && !step.PublishEstop?
    ensures var s' := Apply(s, step);
            s'.queue == s.queue && s'.enqueued == s.enqueued && s'.published == s.published
  {
  }

  lemma QueueKeepsClient(s: Sys, step: Step)
    requires Enabled(s, step) && OfClient(step) && QueueInv(s) && HeadIsEstop(s)
    ensures QueueInv(Apply(s, step))
  {
    if step.Handle? {
      QueueKeepsHandle(s, step.c, step.helloOk);
    } else if step.PublishEstop? {
      QueueKeepsEstop(s, step.c);
    } else {
      ClientFrame(s, step);
      SameQueue(s, step);
      QueueFrame(s, Apply(s, step));
    }
  }

  lemma QueueKeeps(s: Sys, step: Step)
    requires Enabled(s, step) && QueueInv(s) && HeadIsEstop(s)
    ensures QueueInv(Apply(s, step))
  {
    if OfClient(step) {
      QueueKeepsClient(s, step);
    } else if OfCallback(step) {
      CallbackFrame(s, step);
      QueueFrame(s, Apply(s, step));
    } else {
      QueueKeepsWorker(s, step);
    }
  }

  // ----- the pending map and where answers come from -----

  /** The robot gave this result under this number at or after position `from`. */
  ghost predicate Delivered(results: seq<RobotResult>, from: nat, seqNo: nat, r: RobotResult) {
    r.seqNo == seqNo && exists i :: from <= i < |results| && results[i] == r
  }

  predicate Waits(w: Worker) {
    w.Recorded? || HasPublished(w)
  }

  ghost predicate KeysInv(s: Sys) {
    && (forall k :: k in s.pending ==> k in s.stored || (Waits(s.worker) && s.worker.job.frame.seqNo == k))
    && (Waits(s.worker) ==> s.worker.job.frame.seqNo in s.pending
                            && s.worker.since <= s.pending[s.worker.job.frame.seqNo].since)
  }

  ghost predicate EntriesInv(s: Sys) {
    forall k :: k in s.pending ==>
      && s.pending[k].since <= |s.results|
      && (s.pending[k].done ==> Delivered(s.results, s.pending[k].since, k, s.pending[k].r))
  }

  ghost predicate AnswerFromRobot(results: seq<RobotResult>, job: Job, ack: Ack, since: nat) {
    ack.FromRobot? ==> Delivered(results, since, job.frame.seqNo, ack.r)
  }

  ghost predicate AnswersInv(s: Sys) {
    && (s.worker.Answered? ==> AnswerFromRobot(s.results, s.worker.job, s.worker.ack, s.worker.since))
    && (forall o :: o in s.settled && o.Settled? ==> AnswerFromRobot(s.results, o.job, o.ack, o.since))
  }

  lemma DeliveredLater(results: seq<RobotResult>, results': seq<RobotResult>, from: nat, seqNo: nat,
                       r: RobotResult)
    requires Delivered(results, from, seqNo, r) && results <= results'
    ensures Delivered(results', from, seqNo, r)
  {
    var i :| from <= i < |results| && results[i] == r;
    assert results'[i] == results[i];
  }

  /** One entry made anew for number n, which is an ESTOP's or the worker's. */
  lemma KeysInsert(s: Sys, s': Sys, n: nat)
    requires KeysInv(s) && EntriesInv(s)
    requires s'.pending == s.pending[n := Entry(false, NOTHING, |s.results|)] && s'.stored == s.stored
    requires Waits(s'.worker) ==> s'.worker.since <= |s.results|
    requires if s'.worker == s.worker then n in s.stored
             else !Waits(s.worker) && Waits(s'.worker) && s'.worker.job.frame.seqNo == n
    ensures KeysInv(s')
  {
  }

  /** The worker's own entry goes with its answer. */
  lemma KeysAnswer(s: Sys, ack: Ack)
    requires HasPublished(s.worker) && KeysInv(s)
    ensures KeysInv(Answer(s, ack))
  {
  }

  lemma KeysFrame(s: Sys, s': Sys)
    requires KeysInv(s) && s'.pending.Keys == s.pending.Keys && s.stored <= s'.stored
    requires forall k :: k in s.pending ==> s'.pending[k].since == s.pending[k].since
    requires Waits(s'.worker) == Waits(s.worker)
    requires Waits(s.worker) ==> s'.worker.job == s.worker.job && s'.worker.since == s.worker.since
    ensures KeysInv(s')
  {
  }

  lemma SamePending(s: Sys, step: Step)
    requires Enabled(s, step) && OfClient(step) && !step.RecordEstop?
    ensures Apply(s, step).pending == s.pending && s.stored <= Apply(s, step).stored
  {
    if step.Handle? {
      HandleFrame(s, step.c, step.helloOk);
    }
  }

  lemma KeysKeepsClient(s: Sys, step: Step)
    requires Enabled(s, step) && OfClient(step) && KeysInv(s) && EntriesInv(s) && HeadIsEstop(s)
    ensures KeysInv(Apply(s, step))
  {
    ClientFrame(s, step);
    if step.RecordEstop? {
      KeysInsert(s, DoRecordEstop(s, step.c), s.clients[step.c].todo[0].seqNo);
    } else {
      SamePending(s, step);
      KeysFrame(s, Apply(s, step));
    }
  }

  lemma KeysKeepsPoll(s: Sys)
    requires Enabled(s, Poll) && KeysInv(s)
    ensures KeysInv(DoPoll(s))
  {
    var n := s.worker.job.frame.seqNo;
    if n in s.pending && s.pending[n].done {
      KeysAnswer(s, FromRobot(s.pending[n].r));
    } else {
      KeysFrame(s, DoPoll(s));
    }
  }

  lemma SameWait(s: Sys, step: Step)
    requires Enabled(s, step) && !OfClient(step) && !OfCallback(step)
    requires !step.RecordJob? && !step.Poll? && !step.Abort? && !step.TimeOut?
    ensures var s' := Apply(s, step);
            && s'.pending == s.pending && s'.stored == s.stored && Waits(s'.worker) == Waits(s.worker)
            && (Waits(s.worker) ==> s'.worker.job == s.worker.job && s'.worker.since == s.worker.since)
  {
  }

  lemma KeysKeepsWorker(s: Sys, step: Step)
    requires Enabled(s, step) && !OfClient(step) && !OfCallback(step) && KeysInv(s) && EntriesInv(s)
    ensures KeysInv(Apply(s, step))
  {
    if step.RecordJob? {
      KeysInsert(s, DoRecordJob(s), s.worker.job.frame.seqNo);
    } else if step.Poll? {
      KeysKeepsPoll(s);
    } else if step.Abort? || step.TimeOut? {
      KeysAnswer(s, Rejected(if step.Abort? then EstopActive else TimedOut));
    } else {
      SameWait(s, step);
      KeysFrame(s, Apply(s, step));
    }
  }

  lemma KeysKeeps(s: Sys, step: Step)
    requires Enabled(s, step) && KeysInv(s) && EntriesInv(s) && HeadIsEstop(s)
    ensures KeysInv(Apply(s, step))
  {
    if OfClient(step) {
      KeysKeepsClient(s, step);
    } else if OfCallback(step) {
      CallbackFrame(s, step);
      SameKeys(s, step);
      KeysFrame(s, Apply(s, step));
    } else {
      KeysKeepsWorker(s, step);
    }
  }

  lemma SameKeys(s: Sys, step: Step)
    requires Enabled(s, step) && OfCallback(step)
    ensures var s' := Apply(s, step);
            && s'.pending.Keys == s.pending.Keys
            && forall k :: k in s.pending ==> s'.pending[k].since == s.pending[k].since
  {
    if step.DeliverResult? {
      SameKeysDelivered(s);
    } else {
      NotDelivered(s, step);
    }
  }

  lemma NotDelivered(s: Sys, step: Step)
    requires Enabled(s, step) && OfCallback(step) && !step.DeliverResult?
    ensures Apply(s, step).pending == s.pending
  {
  }

  lemma SameKeysDelivered(s: Sys)
    requires Enabled(s, DeliverResult)
    ensures var s' := DoDeliverResult(s);
            && s'.pending.Keys == s.pending.Keys
            && forall k :: k in s.pending ==> s'.pending[k].since == s.pending[k].since
  {
  }

  /** More results, and each entry as it was, made anew, or completed by the last result. */
  lemma EntriesStep(s: Sys, s': Sys)
    requires EntriesInv(s)
    requires s'.results == s.results || (|s'.results| == |s.results| + 1 && s.results == s'.results[..|s.results|])
    requires forall k :: k in s'.pending ==>
               || (k in s.pending && s'.pending[k] == s.pending[k])
               || (!s'.pending[k].done && s'.pending[k].since <= |s'.results|)
               || (&& k in s.pending && s'.pending[k].since == s.pending[k].since && |s'.results| > |s.results|
                   && s'.results[|s.results|] == s'.pending[k].r && s'.pending[k].r.seqNo == k)
    ensures EntriesInv(s')
  {
    forall k | k in s'.pending
      ensures s'.pending[k].since <= |s'.results|
      ensures s'.pending[k].done ==> Delivered(s'.results, s'.pending[k].since, k, s'.pending[k].r)
    {
      if k in s.pending && s'.pending[k] == s.pending[k] && s.pending[k].done {
        DeliveredLater(s.results, s'.results, s.pending[k].since, k, s.pending[k].r);
      }
    }
  }

  lemma EntriesKeeps(s: Sys, step: Step)
    requires Enabled(s, step) && EntriesInv(s)
    ensures EntriesInv(Apply(s, step))
  {
    if OfClient(step) {
      ClientFrame(s, step);
      EntriesOfClient(s, step);
    } else if OfCallback(step) {
      EntriesOfCallback(s, step);
    } else {
      WorkerFrame(s, step);
      EntriesOfWorker(s, step);
    }
    EntriesStep(s, Apply(s, step));
  }

  lemma EntriesOfClient(s: Sys, step: Step)
    requires Enabled(s, step) && OfClient(step)
    ensures var s' := Apply(s, step);
            forall k :: k in s'.pending ==>
              || (k in s.pending && s'.pending[k] == s.pending[k])
              || (!s'.pending[k].done && s'.pending[k].since <= |s.results|)
  {
    match step
    case Handle(c, helloOk) => HandleFrame(s, c, helloOk);
    case _ =>
  }

  lemma EntriesOfWorker(s: Sys, step: Step)
    requires Enabled(s, step) && !OfClient(step) && !OfCallback(step)
    ensures var s' := Apply(s, step);
            forall k :: k in s'.pending ==>
              || (k in s.pending && s'.pending[k] == s.pending[k])
              || (!s'.pending[k].done && s'.pending[k].since <= |s.results|)
  {
  }

  lemma EntriesOfCallback(s: Sys, step: Step)
    requires Enabled(s, step) && OfCallback(step)
    ensures var s' := Apply(s, step);
            && (s'.results == s.results || (|s'.results| == |s.results| + 1 && s.results == s'.results[..|s.results|]))
            && forall k :: k in s'.pending ==>
                 || (k in s.pending && s'.pending[k] == s.pending[k])
                 || (&& k in s.pending && s'.pending[k].since == s.pending[k].since && |s'.results| > |s.results|
                     && s'.results[|s.results|] == s'.pending[k].r && s'.pending[k].r.seqNo == k)
  {
  }

  lemma AnswersFrame(s: Sys, s': Sys)
    requires AnswersInv(s) && s.results <= s'.results && s'.settled == s.settled
    requires s'.worker == s.worker || !s'.worker.Answered? || !s'.worker.ack.FromRobot?
    ensures AnswersInv(s')
  {
    if s'.worker.Answered? && s'.worker.ack.FromRobot? {
      DeliveredLater(s.results, s'.results, s.worker.since, s.worker.job.frame.seqNo, s.worker.ack.r);
    }
    forall o | o in s'.settled && o.Settled? ensures AnswerFromRobot(s'.results, o.job, o.ack, o.since) {
      if o.ack.FromRobot? {
        DeliveredLater(s.results, s'.results, o.since, o.job.frame.seqNo, o.ack.r);
      }
    }
  }

  lemma AnswersPoll(s: Sys)
    requires Enabled(s, Poll) && AnswersInv(s) && KeysInv(s) && EntriesInv(s)
    ensures AnswersInv(DoPoll(s))
  {
    var k := s.worker.job.frame.seqNo;
    if s.pending[k].done {
      var i :| s.pending[k].since <= i < |s.results| && s.results[i] == s.pending[k].r;
      assert s.worker.since <= i;
    }
  }

  lemma AnswersWorker(s: Sys, step: Step)
    requires Enabled(s, step) && !OfClient(step) && !OfCallback(step) && !step.Poll?
    requires AnswersInv(s)
    ensures AnswersInv(Apply(s, step))
  {
    if step.Dequeue? {
      AnswersDropped(s);
    } else if step.SendAck? {
      AnswersSettled(s, step.ok);
    } else {
      AnswersFrame(s, Apply(s, step));
    }
  }

  lemma AnswersDropped(s: Sys)
    requires Enabled(s, Dequeue) && AnswersInv(s)
    ensures AnswersInv(DoDequeue(s))
  {
  }

  lemma AnswersSettled(s: Sys, ok: bool)
    requires Enabled(s, SendAck(ok)) && AnswersInv(s)
    ensures AnswersInv(DoSendAck(s, ok))
  {
  }

  lemma ResultsGrow(s: Sys, step: Step)
    requires Enabled(s, step) && OfCallback(step)
    ensures s.results <= Apply(s, step).results
  {
  }

  lemma AnswersKeeps(s: Sys, step: Step)
    requires Enabled(s, step) && AnswersInv(s) && KeysInv(s) && EntriesInv(s)
    ensures AnswersInv(Apply(s, step))
  {
    if OfClient(step) {
      ClientFrame(s, step);
      AnswersFrame(s, Apply(s, step));
    } else if OfCallback(step) {
      CallbackFrame(s, step);
      ResultsGrow(s, step);
      AnswersFrame(s, Apply(s, step));
    } else if step.Poll? {
      AnswersPoll(s);
    } else {
      AnswersWorker(s, step);
    }
  }

  // ----- ESTOP first -----

  function EstopPubs(ps: seq<Pub>, c: nat, b: nat): seq<Frame> {
    if ps == [] then []
    else
      var p := ps[|ps| - 1];
      EstopPubs(ps[..|ps| - 1], c, b) + if p.client == c && p.batch == b && IsEstop(p.frame) then [p.frame] else []
  }

  lemma EstopPubsSnoc(ps: seq<Pub>, p: Pub, c: nat, b: nat)
    ensures EstopPubs(ps + [p], c, b) ==
            EstopPubs(ps, c, b) + if p.client == c && p.batch == b && IsEstop(p.frame) then [p.frame] else []
  {
    assert (ps + [p])[..|ps|] == ps;
  }

  /** Every ESTOP of batch (c, b) has been published, in order and once. */
  ghost predicate EstopsOut(s: Sys, c: nat, b: nat, ps: seq<Pub>) {
    (c, b) in s.batches && EstopPubs(ps, c, b) == Estops(s.batches[(c, b)])
  }

  /** What remains of the current batch of client c, together with what it published, is its ESTOPs. */
  ghost predicate ClientInv(s: Sys, c: nat)
    requires c in s.clients
  {
    var k := s.clients[c];
    && Partitioned(k.todo)
    && (k.todo != [] ==> (c, k.batch) in s.batches
                         && EstopPubs(s.published, c, k.batch) + Estops(k.todo) == Estops(s.batches[(c, k.batch)]))
  }

  /** No batch of client c is numbered beyond its current one. */
  ghost predicate NumbersInv(s: Sys) {
    && (forall t :: t in s.batches ==> t.0 in s.clients && t.1 <= s.clients[t.0].batch)
    && (forall p :: p in s.published ==> p.client in s.clients && p.batch <= s.clients[p.client].batch)
  }

  ghost predicate PriorityInv(s: Sys) {
    && (forall c :: c in s.clients ==> ClientInv(s, c))
    && NumbersInv(s)
    && (forall j :: j in s.enqueued ==> EstopsOut(s, j.client, j.batch, s.published))
    && (forall i :: 0 <= i < |s.published| && !IsEstop(s.published[i].frame) ==>
          EstopsOut(s, s.published[i].client, s.published[i].batch, s.published[..i]))
  }

  lemma {:induction false} NoPubs(ps: seq<Pub>, c: nat, b: nat)
    requires forall p :: p in ps ==> !(p.client == c && p.batch == b)
    ensures EstopPubs(ps, c, b) == []
  {
    if ps == [] {
    } else {
      NoPubs(ps[..|ps| - 1], c, b);
      assert ps[|ps| - 1] in ps;
    }
  }

  lemma PartitionedTail(fs: seq<Frame>)
    requires fs != [] && Partitioned(fs)
    ensures Partitioned(fs[1..])
    ensures Estops(fs) == (if IsEstop(fs[0]) then [fs[0]] else []) + Estops(fs[1..])
    ensures !IsEstop(fs[0]) ==> Estops(fs) == []
  {
    if !IsEstop(fs[0]) {
      NoLateEstop(fs[1..], fs);
    }
  }

  /** Steps that touch no client's batch, no log of publications and no enqueued job. */
  lemma PriorityFrame(s: Sys, s': Sys)
    requires PriorityInv(s)
    requires s'.batches == s.batches && s'.published == s.published && s'.enqueued == s.enqueued
    requires s'.clients.Keys == s.clients.Keys
    requires forall c :: c in s.clients ==>
               s'.clients[c].batch == s.clients[c].batch && s'.clients[c].todo == s.clients[c].todo
    ensures PriorityInv(s')
  {
    forall c | c in s'.clients ensures ClientInv(s', c) {
      assert ClientInv(s, c);
    }
    PriorityLogs(s, s');
  }

  lemma PriorityAccept(s: Sys, c: nat)
    requires Enabled(s, Accept(c)) && PriorityInv(s)
    ensures PriorityInv(Apply(s, Accept(c)))
  {
    var s' := Apply(s, Accept(c));
    PriorityLogs(s, s');
    forall d | d in s'.clients ensures ClientInv(s', d) {
      if d != c {
        assert ClientInv(s, d);
      }
    }
  }

  /** The logs of publications keep their meaning when only new batches are added. */
  lemma PriorityLogs(s: Sys, s': Sys)
    requires PriorityInv(s) && s'.published == s.published && s'.enqueued == s.enqueued
    requires forall t :: t in s.batches ==> t in s'.batches && s'.batches[t] == s.batches[t]
    ensures forall j :: j in s'.enqueued ==> EstopsOut(s', j.client, j.batch, s'.published)
    ensures forall i :: 0 <= i < |s'.published| && !IsEstop(s'.published[i].frame) ==>
              EstopsOut(s', s'.published[i].client, s'.published[i].batch, s'.published[..i])
  {
    forall j | j in s'.enqueued ensures EstopsOut(s', j.client, j.batch, s'.published) {
      assert EstopsOut(s, j.client, j.batch, s.published);
    }
    forall i | 0 <= i < |s'.published| && !IsEstop(s'.published[i].frame)
      ensures EstopsOut(s', s'.published[i].client, s'.published[i].batch, s'.published[..i])
    {
      assert EstopsOut(s, s.published[i].client, s.published[i].batch, s.published[..i]);
    }
  }

  lemma PriorityReceive(s: Sys, c: nat, frames: seq<Frame>)
    requires Enabled(s, Receive(c, frames)) && PriorityInv(s)
    ensures PriorityInv(DoReceive(s, c, frames))
  {
    var s' := DoReceive(s, c, frames);
    var b := s.clients[c].batch + 1;
    NewBatch(s, s', c, b, frames);
    assert (c, b) !in s.batches;
    PriorityLogs(s, s');
    forall d | d in s'.clients ensures ClientInv(s', d) {
      if d != c {
        assert ClientInv(s, d);
      }
    }
  }

  lemma NewBatch(s: Sys, s': Sys, c: nat, b: nat, frames: seq<Frame>)
    requires c in s.clients && NumbersInv(s) && b == s.clients[c].batch + 1
    requires c in s'.clients && s'.clients[c].batch == b && s'.clients[c].todo == UrgentFirst(frames)
    requires s'.batches == s.batches[(c, b) := frames] && s'.published == s.published
    ensures ClientInv(s', c)
  {
    HandledOrder(frames);
    NoPubs(s.published, c, b);
    NothingYet(Estops(frames));
  }

  lemma NothingYet(es: seq<Frame>)
    ensures [] + es == es
  {
  }

  /** The head of client c's batch is not an ESTOP: all of the batch's ESTOPs are out. */
  lemma HeadOther(s: Sys, c: nat)
    requires PriorityInv(s) && c in s.clients && s.clients[c].todo != [] && !IsEstop(s.clients[c].todo[0])
    ensures EstopsOut(s, c, s.clients[c].batch, s.published)
    ensures Partitioned(s.clients[c].todo[1..]) && Estops(s.clients[c].todo[1..]) == []
  {
    assert ClientInv(s, c);
    PartitionedTail(s.clients[c].todo);
  }

  lemma PriorityPop(s: Sys, s': Sys, c: nat)
    requires PriorityInv(s) && c in s.clients && s.clients[c].todo != [] && !IsEstop(s.clients[c].todo[0])
    requires s'.batches == s.batches && s'.published == s.published
    requires c in s'.clients && s'.clients == s.clients[c := s'.clients[c]]
    requires s'.clients[c].batch == s.clients[c].batch
    requires s'.clients[c].todo == s.clients[c].todo[1..] || s'.clients[c].todo == []
    requires forall j :: j in s'.enqueued ==> j in s.enqueued || (j.client == c && j.batch == s.clients[c].batch)
    ensures PriorityInv(s')
  {
    HeadOther(s, c);
    PriorityLogs(s, s.(clients := s'.clients));
    forall d | d in s'.clients ensures ClientInv(s', d) {
      assert ClientInv(s, d);
    }
    forall j | j in s'.enqueued ensures EstopsOut(s', j.client, j.batch, s'.published) {
      if j in s.enqueued {
        assert EstopsOut(s, j.client, j.batch, s.published);
      }
    }
    forall i | 0 <= i < |s'.published| && !IsEstop(s'.published[i].frame)
      ensures EstopsOut(s', s'.published[i].client, s'.published[i].batch, s'.published[..i])
    {
      assert EstopsOut(s, s.published[i].client, s.published[i].batch, s.published[..i]);
    }
  }

  lemma HandleEstopFields(s: Sys, c: nat, helloOk: bool)
    requires Enabled(s, Handle(c, helloOk)) && IsEstop(s.clients[c].todo[0])
    ensures var s' := DoHandle(s, c, helloOk);
            && s'.batches == s.batches && s'.published == s.published && s'.enqueued == s.enqueued
            && s'.clients == s.clients[c := s.clients[c].(stage := FlagRaised)]
  {
  }

  lemma HandleOtherFields(s: Sys, c: nat, helloOk: bool)
    requires Enabled(s, Handle(c, helloOk)) && !IsEstop(s.clients[c].todo[0])
    ensures var s' := DoHandle(s, c, helloOk);
            && s'.batches == s.batches && s'.published == s.published
            && c in s'.clients && s'.clients == s.clients[c := s'.clients[c]]
            && s'.clients[c].batch == s.clients[c].batch
            && (s'.clients[c].todo == s.clients[c].todo[1..] || s'.clients[c].todo == [])
            && forall j :: j in s'.enqueued ==> j in s.enqueued || (j.client == c && j.batch == s.clients[c].batch)
  {
  }

  lemma PriorityHandle(s: Sys, c: nat, helloOk: bool)
    requires Enabled(s, Handle(c, helloOk)) && PriorityInv(s)
    ensures PriorityInv(DoHandle(s, c, helloOk))
  {
    if IsEstop(s.clients[c].todo[0]) {
      HandleEstopFields(s, c, helloOk);
      PriorityFrame(s, DoHandle(s, c, helloOk));
    } else {
      HandleOtherFields(s, c, helloOk);
      PriorityPop(s, DoHandle(s, c, helloOk), c);
    }
  }

  /** Publishing the ESTOP at the head of client c's batch, seen from client d. */
  lemma EstopPublished(s: Sys, s': Sys, c: nat, p: Pub, d: nat)
    requires c in s.clients && d in s.clients && ClientInv(s, d)
    requires s.clients[c].todo != [] && IsEstop(s.clients[c].todo[0])
    requires p == Pub(c, s.clients[c].batch, s.clients[c].todo[0])
    requires s'.batches == s.batches && s'.published == s.published + [p]
    requires c in s'.clients && s'.clients == s.clients[c := s'.clients[c]]
    requires s'.clients[c].batch == s.clients[c].batch
    requires s'.clients[c].todo == s.clients[c].todo[1..] || s'.clients[c].todo == []
    ensures ClientInv(s', d)
  {
    EstopPubsSnoc(s.published, p, d, s.clients[d].batch);
    if d == c {
      PartitionedTail(s.clients[c].todo);
    }
  }

  /** A batch whose ESTOPs are all out is not the one that just published another. */
  lemma EstopsStayOut(s: Sys, s': Sys, c: nat, p: Pub, j: Job)
    requires c in s.clients && ClientInv(s, c) && EstopsOut(s, j.client, j.batch, s.published)
    requires s.clients[c].todo != [] && IsEstop(s.clients[c].todo[0])
    requires p == Pub(c, s.clients[c].batch, s.clients[c].todo[0])
    requires s'.batches == s.batches && s'.published == s.published + [p]
    ensures EstopsOut(s', j.client, j.batch, s'.published)
  {
    EstopPubsSnoc(s.published, p, j.client, j.batch);
    PartitionedTailLength(s.clients[c].todo);
  }

  lemma PartitionedTailLength(fs: seq<Frame>)
    requires fs != [] && IsEstop(fs[0])
    ensures |Estops(fs)| > 0
  {
  }

  lemma PriorityPublishEstop(s: Sys, c: nat)
    requires Enabled(s, PublishEstop(c)) && PriorityInv(s) && HeadIsEstop(s)
    ensures PriorityInv(DoPublishEstop(s, c))
  {
    PriorityEstop(s, DoPublishEstop(s, c), c, Pub(c, s.clients[c].batch, s.clients[c].todo[0]));
  }

  lemma PriorityEstop(s: Sys, s': Sys, c: nat, p: Pub)
    requires PriorityInv(s) && c in s.clients && s.clients[c].todo != [] && IsEstop(s.clients[c].todo[0])
    requires p == Pub(c, s.clients[c].batch, s.clients[c].todo[0])
    requires s'.batches == s.batches && s'.published == s.published + [p] && s'.enqueued == s.enqueued
    requires c in s'.clients && s'.clients == s.clients[c := s'.clients[c]]
    requires s'.clients[c].batch == s.clients[c].batch
    requires s'.clients[c].todo == s.clients[c].todo[1..] || s'.clients[c].todo == []
    ensures PriorityInv(s')
  {
    forall d | d in s'.clients ensures ClientInv(s', d) {
      EstopPublished(s, s', c, p, d);
    }
    forall j | j in s'.enqueued ensures EstopsOut(s', j.client, j.batch, s'.published) {
      EstopsStayOut(s, s', c, p, j);
    }
    PubPrefixes(s, s', p);
  }

  /** One more ESTOP in the log leaves what preceded each earlier publication alone. */
  lemma PubPrefixes(s: Sys, s': Sys, p: Pub)
    requires PriorityInv(s) && s'.batches == s.batches && s'.published == s.published + [p]
    requires !IsEstop(p.frame) ==> EstopsOut(s, p.client, p.batch, s.published)
    ensures forall i :: 0 <= i < |s'.published| && !IsEstop(s'.published[i].frame) ==>
              EstopsOut(s', s'.published[i].client, s'.published[i].batch, s'.published[..i])
  {
    forall i | 0 <= i < |s'.published| && !IsEstop(s'.published[i].frame)
      ensures EstopsOut(s', s'.published[i].client, s'.published[i].batch, s'.published[..i])
    {
      if i < |s.published| {
        assert s'.published[..i] == s.published[..i];
        assert EstopsOut(s, s.published[i].client, s.published[i].batch, s.published[..i]);
      } else {
        assert s'.published[..i] == s.published;
      }
    }
  }

  lemma PriorityPublish(s: Sys)
    requires Enabled(s, Publish) && PriorityInv(s) && QueueInv(s)
    ensures PriorityInv(DoPublish(s))
  {
    WorkerJobQueued(s);
    PriorityWorker(s, DoPublish(s), PubOf(s.worker.job));
  }

  lemma OtherPubs(ps: seq<Pub>, p: Pub, c: nat, b: nat)
    requires !IsEstop(p.frame)
    ensures EstopPubs(ps + [p], c, b) == EstopPubs(ps, c, b)
  {
    EstopPubsSnoc(ps, p, c, b);
  }

  lemma PriorityWorker(s: Sys, s': Sys, p: Pub)
    requires PriorityInv(s) && !IsEstop(p.frame) && EstopsOut(s, p.client, p.batch, s.published)
    requires s'.batches == s.batches && s'.published == s.published + [p] && s'.enqueued == s.enqueued
    requires s'.clients == s.clients
    ensures PriorityInv(s')
  {
    forall c | c in s'.clients ensures ClientInv(s', c) {
      assert ClientInv(s, c);
      OtherPubs(s.published, p, c, s.clients[c].batch);
    }
    forall j | j in s'.enqueued ensures EstopsOut(s', j.client, j.batch, s'.published) {
      assert EstopsOut(s, j.client, j.batch, s.published);
      OtherPubs(s.published, p, j.client, j.batch);
    }
    PubPrefixes(s, s', p);
  }

  /** The worker's steps, but for publishing, and those of the callback leave every batch alone. */
  lemma PriorityOtherStep(s: Sys, step: Step)
    requires Enabled(s, step) && PriorityInv(s) && !OfClient(step) && !step.Publish?
    ensures PriorityInv(Apply(s, step))
  {
    if OfCallback(step) {
      CallbackFrame(s, step);
    } else {
      WorkerFrame(s, step);
      OnlyPublishPublishes(s, step);
    }
    PriorityFrame(s, Apply(s, step));
  }

  lemma OnlyPublishPublishes(s: Sys, step: Step)
    requires Enabled(s, step) && !OfClient(step) && !step.Publish?
    ensures Apply(s, step).published == s.published
  {
    if OfCallback(step) {
      CallbackFrame(s, step);
    } else if Answers(step) {
      AnsweringFrame(s, step);
    }
  }

  /** Steps of a client's receive thread. */
  lemma PriorityClientStep(s: Sys, step: Step)
    requires Enabled(s, step) && PriorityInv(s) && HeadIsEstop(s) && OfClient(step)
    ensures PriorityInv(Apply(s, step))
  {
    if step.Accept? {
      PriorityAccept(s, step.c);
    } else if step.Receive? {
      PriorityReceive(s, step.c, step.frames);
    } else if step.Handle? {
      PriorityHandle(s, step.c, step.helloOk);
    } else if step.PublishEstop? {
      PriorityPublishEstop(s, step.c);
    } else {
      SameBatches(s, step);
      PriorityFrame(s, Apply(s, step));
    }
  }

  lemma SameBatches(s: Sys, step: Step)
    requires Enabled(s, step)
    requires step.StoreSeq? || step.ArmSlot? || step.RecordEstop? || step.Close?
    ensures var s' := Apply(s, step);
            && s'.batches == s.batches && s'.published == s.published && s'.enqueued == s.enqueued
            && s'.clients.Keys == s.clients.Keys
            && forall c :: c in s.clients ==>
                 s'.clients[c].batch == s.clients[c].batch && s'.clients[c].todo == s.clients[c].todo
  {
  }

  lemma PriorityKeeps(s: Sys, step: Step)
    requires Enabled(s, step) && PriorityInv(s) && QueueInv(s) && HeadIsEstop(s)
    ensures PriorityInv(Apply(s, step))
  {
    if step.Publish? {
      PriorityPublish(s);
    } else if OfClient(step) {
      PriorityClientStep(s, step);
    } else {
      PriorityOtherStep(s, step);
    }
  }

  // ----- every run -----

  ghost predicate Inv(s: Sys) {
    QueueInv(s) && HeadIsEstop(s) && KeysInv(s) && EntriesInv(s) && AnswersInv(s) && PriorityInv(s)
  }

  lemma StepKeeps(s: Sys, step: Step)
    requires Enabled(s, step) && Inv(s)
    ensures Inv(Apply(s, step))
  {
    QueueKeeps(s, step);
    HeadKeeps(s, step);
    KeysKeeps(s, step);
    EntriesKeeps(s, step);
    AnswersKeeps(s, step);
    PriorityKeeps(s, step);
  }

  lemma {:induction false} RunKeeps(ss: seq<Sys>, steps: seq<Step>, k: nat)
    requires IsRun(ss, steps) && k <= |steps|
    ensures Inv(ss[k])
  {
    if k == 0 {
    } else {
      RunKeeps(ss, steps, k - 1);
      StepKeeps(ss[k - 1], steps[k - 1]);
    }
  }

  // ----- what the runs promise -----

  /** Exactly-once FIFO: the jobs settled so far are a prefix of the jobs enqueued; the worker's attempts to
      send an ACK are one per settled job in that order, with the job's own sequence number, except for
      jobs dropped because their client was closed; and the worker publishes in the same order. */
  lemma ExactlyOnceFifo(ss: seq<Sys>, steps: seq<Step>, k: nat)
    requires IsRun(ss, steps) && k <= |steps|
    ensures JobsOf(ss[k].settled) <= ss[k].enqueued
    ensures ss[k].sent == AcksOf(ss[k].settled)
    ensures PubsOf(ss[k].settled) <= WorkerPubs(ss[k].published)
    ensures ss[k].worker.Idle? && ss[k].queue == [] ==> JobsOf(ss[k].settled) == ss[k].enqueued
  {
    RunKeeps(ss, steps, k);
  }

  /** Pending keys: only the waiting job's number or that of some ESTOP; and the waiting job's number is there. */
  lemma PendingKeys(ss: seq<Sys>, steps: seq<Step>, k: nat)
    requires IsRun(ss, steps) && k <= |steps|
    ensures forall n :: n in ss[k].pending ==>
              n in ss[k].stored || (Waits(ss[k].worker) && ss[k].worker.job.frame.seqNo == n)
    ensures Waits(ss[k].worker) ==> ss[k].worker.job.frame.seqNo in ss[k].pending
  {
    RunKeeps(ss, steps, k);
  }

  predicate Answers(step: Step) {
    step.Poll? || step.Abort? || step.TimeOut?
  }

  lemma EntryStays(s: Sys, step: Step, n: nat)
    requires Enabled(s, step) && n in s.pending && !Answers(step)
    ensures n in Apply(s, step).pending
  {
    if step.Handle? {
      HandleFrame(s, step.c, step.helloOk);
    }
  }

  lemma AnswerRemovesOne(s: Sys, step: Step, n: nat)
    requires Enabled(s, step) && n in s.pending && Answers(step) && n != s.worker.job.frame.seqNo
    ensures n in Apply(s, step).pending
  {
    if !step.Poll? {
      OthersStay(s, Rejected(if step.Abort? then EstopActive else TimedOut), n);
    }
  }

  lemma OthersStay(s: Sys, ack: Ack, n: nat)
    requires HasPublished(s.worker) && n in s.pending && n != s.worker.job.frame.seqNo
    ensures n in Answer(s, ack).pending
  {
  }

  /** A pending entry goes away only when the worker answers a job of that number: an ESTOP's own entry stays. */
  lemma EntryLeavesOnlyByAnswer(ss: seq<Sys>, steps: seq<Step>, k: nat, n: nat)
    requires IsRun(ss, steps) && k < |steps| && n in ss[k].pending && n !in ss[k + 1].pending
    ensures Answers(steps[k]) && HasPublished(ss[k].worker) && ss[k].worker.job.frame.seqNo == n
  {
    if !Answers(steps[k]) {
      EntryStays(ss[k], steps[k], n);
    } else if ss[k].worker.job.frame.seqNo != n {
      AnswerRemovesOne(ss[k], steps[k], n);
    }
  }

  /** ESTOP first: before a non-ESTOP command is published, every ESTOP of its batch has been, in order. */
  lemma EstopBeforeCommands(ss: seq<Sys>, steps: seq<Step>, k: nat, i: nat)
    requires IsRun(ss, steps) && k <= |steps|
    requires i < |ss[k].published| && !IsEstop(ss[k].published[i].frame)
    ensures var p := ss[k].published[i];
            && (p.client, p.batch) in ss[k].batches
            && EstopPubs(ss[k].published[..i], p.client, p.batch) == Estops(ss[k].batches[(p.client, p.batch)])
  {
    RunKeeps(ss, steps, k);
    assert EstopsOut(ss[k], ss[k].published[i].client, ss[k].published[i].batch, ss[k].published[..i]);
  }

  /** The worker's fallback for CMD_ESTOP inside `handle_command` is never reached. */
  lemma WorkerNeverSeesEstop(ss: seq<Sys>, steps: seq<Step>, k: nat)
    requires IsRun(ss, steps) && k <= |steps| && !ss[k].worker.Idle?
    ensures !IsEstop(ss[k].worker.job.frame)
  {
    RunKeeps(ss, steps, k);
    WorkerJobQueued(ss[k]);
  }
}
