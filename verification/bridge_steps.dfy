/**
 The bridge's command path as interleaved atomic steps: one receive thread per client, one command
 worker, and the ROS result callback, over the command queue, the pending map and the single
 asynchronous ESTOP slot. Every load and store of a shared atomic, and every section under a lock, is a step
 of its own. The state also carries histories of what was enqueued, published, answered and delivered.
 */
module BridgeSteps {
  import opened BatchOrder

  // ----- state -----

  /** How far `urgent_estop` has got with the frame at the head of a batch. */
  datatype EstopStage = NotStarted | FlagRaised | SeqStored | SlotArmed | EntryRecorded

  datatype Client = Client(open: bool, hello: bool, batch: nat, todo: seq<Frame>, stage: EstopStage)

  datatype Job = Job(client: nat, batch: nat, frame: Frame)

  datatype Reason = ProtoError | TimedOut | EstopActive
  datatype Ack = Rejected(why: Reason) | FromRobot(r: RobotResult)

  /** `since` is the number of robot results handled when the job's pending entry was made. */
  datatype Worker =
    | Idle
    | Taken(job: Job)
    | Cleared(job: Job)              // the checks let it through
    | Recorded(job: Job, since: nat)
    | Waiting(job: Job, since: nat)  // published; before the flag is looked at
    | Looking(job: Job, since: nat)  // saw the flag down
    | Aborting(job: Job, since: nat) // saw the flag up
    | Answered(job: Job, ack: Ack, since: nat, published: bool)

  datatype Entry = Entry(done: bool, r: RobotResult, since: nat)

  /** `origin` says which publication the robot answers; it is history, and nothing in the bridge reads it. */
  datatype RobotResult = RobotResult(seqNo: nat, body: string, origin: nat)

  const NOTHING := RobotResult(0, "", 0)

  /** How far the result callback has got; it is never entered twice at a time. */
  datatype Callback =
    | Quiet
    | SawSlot(r: RobotResult)        // saw the slot valid
    | Matched(r: RobotResult)        // and holding this number
    | FlagLowered(r: RobotResult)
    | SlotFreed(r: RobotResult)
    | Unmatched(r: RobotResult)

  datatype Outcome = Dropped(job: Job) | Settled(job: Job, ack: Ack, since: nat, published: bool, delivered: bool)
  datatype Sent = Sent(client: nat, seqNo: nat, ack: Ack, delivered: bool)
  datatype Pub = Pub(client: nat, batch: nat, frame: Frame)
  datatype Broadcast = Broadcast(result: RobotResult, to: set<nat>)

  datatype Sys = Sys(
    clients: map<nat, Client>,
    queue: seq<Job>,
    worker: Worker,
    pending: map<nat, Entry>,
    callback: Callback,
    estopRaised: bool,
    asyncValid: bool,
    asyncSeq: nat,
    // histories
    batches: map<(nat, nat), seq<Frame>>,
    enqueued: seq<Job>,
    settled: seq<Outcome>,
    sent: seq<Sent>,
    published: seq<Pub>,
    results: seq<RobotResult>, // handled to the end
    stored: seq<nat>,          // numbers put in the slot
    armed: seq<nat>,           // numbers of the ESTOPs that made it valid
    broadcasts: seq<Broadcast>)

  const START := Sys(map[], [], Idle, map[], Quiet, false, false, 0, map[], [], [], [], [], [], [], [], [])

  // ----- steps -----

  datatype Step =
    // receive thread of client c
    | Accept(c: nat)
    | Receive(c: nat, frames: seq<Frame>)
    | Handle(c: nat, helloOk: bool)
    | StoreSeq(c: nat)
    | ArmSlot(c: nat)
    | RecordEstop(c: nat)
    | PublishEstop(c: nat)
    | Close(c: nat)
    // command worker
    | Dequeue
    | Check(recent: bool, snapEstop: bool)
    | RecordJob
    | Publish
    | LoadFlag
    | Poll
    | Abort
    | TimeOut
    | SendAck(ok: bool)
    // result callback
    | ResultArrives(r: RobotResult)
    | CompareSeq
    | LowerFlag
    | FreeSlot
    | SendAsync
    | DeliverResult

  predicate OfClient(step: Step) {
    || step.Accept? || step.Receive? || step.Handle? || step.StoreSeq? || step.ArmSlot? || step.RecordEstop?
    || step.PublishEstop? || step.Close?
  }

  predicate OfCallback(step: Step) {
    || step.ResultArrives? || step.CompareSeq? || step.LowerFlag? || step.FreeSlot? || step.SendAsync?
    || step.DeliverResult?
  }

  predicate IsCommand(f: Frame) {
    f.kind in {CmdMode, CmdTask, CmdEstop, CmdReset, ParamGet, ParamSet}
  }

  predicate AtStage(s: Sys, c: nat, stage: EstopStage) {
    c in s.clients && s.clients[c].todo != [] && s.clients[c].stage == stage
  }

  predicate Enabled(s: Sys, step: Step) {
    match step
    case Accept(c) => c !in s.clients
    case Receive(c, _) => c in s.clients && s.clients[c].open && s.clients[c].todo == []
    case Handle(c, _) => AtStage(s, c, NotStarted)
    case StoreSeq(c) => AtStage(s, c, FlagRaised)
    case ArmSlot(c) => AtStage(s, c, SeqStored)
    case RecordEstop(c) => AtStage(s, c, SlotArmed)
    case PublishEstop(c) => AtStage(s, c, EntryRecorded)
    case Close(c) => c in s.clients
    case Dequeue => s.worker == Idle && s.queue != [] && s.queue[0].client in s.clients
    case Check(_, _) => s.worker.Taken? && s.worker.job.client in s.clients
    case RecordJob => s.worker.Cleared?
    case Publish => s.worker.Recorded?
    case LoadFlag => s.worker.Waiting?
    case Poll => s.worker.Looking?
    case Abort => s.worker.Aborting?
    case TimeOut => s.worker.Waiting?
    case SendAck(_) => s.worker.Answered? && s.worker.job.client in s.clients
    case ResultArrives(_) => s.callback.Quiet?
    case CompareSeq => s.callback.SawSlot?
    case LowerFlag => s.callback.Matched?
    case FreeSlot => s.callback.FlagLowered?
    case SendAsync => s.callback.SlotFreed?
    case DeliverResult => s.callback.Unmatched?
  }

  // ----- receive threads -----

  /** The head frame is dealt with; a client found closed drops the rest of its batch. */
  function Pop(k: Client): Client
    requires k.todo != []
  {
    k.(todo := if k.open then k.todo[1..] else [], stage := NotStarted)
  }

  function DoReceive(s: Sys, c: nat, frames: seq<Frame>): Sys
    requires c in s.clients
  {
    var k := s.clients[c];
    s.(clients := s.clients[c := k.(batch := k.batch + 1, todo := UrgentFirst(frames), stage := NotStarted)],
       batches := s.batches[(c, k.batch + 1) := frames])
  }

  function DoHandle(s: Sys, c: nat, helloOk: bool): Sys
    requires AtStage(s, c, NotStarted)
  {
    var k := s.clients[c];
    var f := k.todo[0];
    if IsEstop(f) then
      s.(clients := s.clients[c := k.(stage := FlagRaised)], estopRaised := true)
    else if IsCommand(f) then
      var job := Job(c, k.batch, f);
      s.(clients := s.clients[c := Pop(k)], queue := s.queue + [job], enqueued := s.enqueued + [job])
    else
      s.(clients := s.clients[c := Pop(k).(hello := k.hello || (f.kind == Hello && helloOk))])
  }

  function DoStoreSeq(s: Sys, c: nat): Sys
    requires AtStage(s, c, FlagRaised)
  {
    var n := s.clients[c].todo[0].seqNo;
    s.(clients := s.clients[c := s.clients[c].(stage := SeqStored)], asyncSeq := n, stored := s.stored + [n])
  }

  function DoArmSlot(s: Sys, c: nat): Sys
    requires AtStage(s, c, SeqStored)
  {
    s.(clients := s.clients[c := s.clients[c].(stage := SlotArmed)], asyncValid := true,
       armed := s.armed + [s.clients[c].todo[0].seqNo])
  }

  function DoRecordEstop(s: Sys, c: nat): Sys
    requires AtStage(s, c, SlotArmed)
  {
    s.(clients := s.clients[c := s.clients[c].(stage := EntryRecorded)],
       pending := s.pending[s.clients[c].todo[0].seqNo := Entry(false, NOTHING, |s.results|)])
  }

  function DoPublishEstop(s: Sys, c: nat): Sys
    requires AtStage(s, c, EntryRecorded)
  {
    var k := s.clients[c];
    s.(clients := s.clients[c := Pop(k)], published := s.published + [Pub(c, k.batch, k.todo[0])])
  }

  // ----- the command worker -----

  function DoDequeue(s: Sys): Sys
    requires s.queue != [] && s.queue[0].client in s.clients
  {
    var job := s.queue[0];
    var open := s.clients[job.client].open;
    s.(queue := s.queue[1..], worker := if open then Taken(job) else Idle,
       settled := if open then s.settled else s.settled + [Dropped(job)])
  }

  predicate OccursAt(s: string, part: string, k: nat) {
    k + |part| <= |s| && s[k..k + |part|] == part
  }

  predicate Contains(s: string, part: string) {
    exists k :: 0 <= k <= |s| && OccursAt(s, part, k)
  }

  /** Commands that the last known ESTOP flag holds back. */
  predicate Guarded(f: Frame) {
    f.kind == CmdTask || (f.kind == CmdMode && Contains(f.payload, "\"AUTO\""))
  }

  /** Which answer needs no round trip to the robot, if any. */
  datatype Verdict = Admit | Refuse(why: Reason)

  function Judge(hello: bool, f: Frame, recent: bool, snapEstop: bool): Verdict {
    if !hello then Refuse(ProtoError)
    else if !recent then Refuse(TimedOut)
    else if Guarded(f) && snapEstop then Refuse(EstopActive)
    else Admit
  }

  function DoCheck(s: Sys, recent: bool, snapEstop: bool): Sys
    requires s.worker.Taken? && s.worker.job.client in s.clients
  {
    var job := s.worker.job;
    var v := Judge(s.clients[job.client].hello, job.frame, recent, snapEstop);
    s.(worker := if v.Admit? then Cleared(job) else Answered(job, Rejected(v.why), 0, false))
  }

  function DoRecordJob(s: Sys): Sys
    requires s.worker.Cleared?
  {
    s.(worker := Recorded(s.worker.job, |s.results|),
       pending := s.pending[s.worker.job.frame.seqNo := Entry(false, NOTHING, |s.results|)])
  }

  function DoPublish(s: Sys): Sys
    requires s.worker.Recorded?
  {
    var job := s.worker.job;
    s.(worker := Waiting(job, s.worker.since), published := s.published + [Pub(job.client, job.batch, job.frame)])
  }

  function DoLoadFlag(s: Sys): Sys
    requires s.worker.Waiting?
  {
    var w := s.worker;
    s.(worker := if s.estopRaised then Aborting(w.job, w.since) else Looking(w.job, w.since))
  }

  predicate HasPublished(w: Worker) {
    w.Waiting? || w.Looking? || w.Aborting?
  }

  function Answer(s: Sys, ack: Ack): Sys
    requires HasPublished(s.worker)
  {
    s.(worker := Answered(s.worker.job, ack, s.worker.since, true), pending := s.pending - {s.worker.job.frame.seqNo})
  }

  function DoPoll(s: Sys): Sys
    requires s.worker.Looking?
  {
    var n := s.worker.job.frame.seqNo;
    if n in s.pending && s.pending[n].done then Answer(s, FromRobot(s.pending[n].r))
    else s.(worker := Waiting(s.worker.job, s.worker.since))
  }

  /** One attempt to send; a closed client or a failing socket swallows it. */
  function DoSendAck(s: Sys, ok: bool): Sys
    requires s.worker.Answered? && s.worker.job.client in s.clients
  {
    var w := s.worker;
    var delivered := ok && s.clients[w.job.client].open;
    s.(worker := Idle, settled := s.settled + [Settled(w.job, w.ack, w.since, w.published, delivered)],
       sent := s.sent + [Sent(w.job.client, w.job.frame.seqNo, w.ack, delivered)])
  }

  // ----- the result callback -----

  function DoResultArrives(s: Sys, r: RobotResult): Sys {
    s.(callback := if s.asyncValid then SawSlot(r) else Unmatched(r))
  }

  function DoCompareSeq(s: Sys): Sys
    requires s.callback.SawSlot?
  {
    var r := s.callback.r;
    s.(callback := if s.asyncSeq == r.seqNo then Matched(r) else Unmatched(r))
  }

  function Listeners(s: Sys): set<nat> {
    set c | c in s.clients && s.clients[c].open && s.clients[c].hello
  }

  function DoSendAsync(s: Sys): Sys
    requires s.callback.SlotFreed?
  {
    s.(callback := Quiet, results := s.results + [s.callback.r],
       broadcasts := s.broadcasts + [Broadcast(s.callback.r, Listeners(s))])
  }

  function DoDeliverResult(s: Sys): Sys
    requires s.callback.Unmatched?
  {
    var r := s.callback.r;
    s.(callback := Quiet, results := s.results + [r],
       pending := if r.seqNo in s.pending then s.pending[r.seqNo := s.pending[r.seqNo].(done := true, r := r)]
                  else s.pending)
  }

  function Apply(s: Sys, step: Step): Sys
    requires Enabled(s, step)
  {
    match step
    case Accept(c) => s.(clients := s.clients[c := Client(true, false, 0, [], NotStarted)])
    case Receive(c, frames) => DoReceive(s, c, frames)
    case Handle(c, helloOk) => DoHandle(s, c, helloOk)
    case StoreSeq(c) => DoStoreSeq(s, c)
    case ArmSlot(c) => DoArmSlot(s, c)
    case RecordEstop(c) => DoRecordEstop(s, c)
    case PublishEstop(c) => DoPublishEstop(s, c)
    case Close(c) => s.(clients := s.clients[c := s.clients[c].(open := false)])
    case Dequeue => DoDequeue(s)
    case Check(recent, snapEstop) => DoCheck(s, recent, snapEstop)
    case RecordJob => DoRecordJob(s)
    case Publish => DoPublish(s)
    case LoadFlag => DoLoadFlag(s)
    case Poll => DoPoll(s)
    case Abort => Answer(s, Rejected(EstopActive))
    case TimeOut => Answer(s, Rejected(TimedOut))
    case SendAck(ok) => DoSendAck(s, ok)
    case ResultArrives(r) => DoResultArrives(s, r)
    case CompareSeq => DoCompareSeq(s)
    case LowerFlag => s.(callback := FlagLowered(s.callback.r), estopRaised := false)
    case FreeSlot => s.(callback := SlotFreed(s.callback.r), asyncValid := false)
    case SendAsync => DoSendAsync(s)
    case DeliverResult => DoDeliverResult(s)
  }

  /** States and steps of the bridge from its start, in any interleaving. */
  ghost predicate IsRun(ss: seq<Sys>, steps: seq<Step>) {
    && |ss| == |steps| + 1 && ss[0] == START
    && forall i :: 0 <= i < |steps| ==> Enabled(ss[i], steps[i]) && ss[i + 1] == Apply(ss[i], steps[i])
  }

  // ----- what each kind of step leaves alone -----

  /** Receive threads touch neither the worker nor the callback, nor what has been answered. */
  lemma ClientFrame(s: Sys, step: Step)
    requires Enabled(s, step) && OfClient(step)
    ensures var s' := Apply(s, step);
            && s.clients.Keys <= s'.clients.Keys
            && s' == s.(clients := s'.clients, queue := s'.queue, enqueued := s'.enqueued, batches := s'.batches,
                        pending := s'.pending, published := s'.published, estopRaised := s'.estopRaised,
                        asyncValid := s'.asyncValid, asyncSeq := s'.asyncSeq, stored := s'.stored, armed := s'.armed)
  {
    if step.Handle? {
      HandleFrame(s, step.c, step.helloOk);
    }
  }

  lemma HandleFrame(s: Sys, c: nat, helloOk: bool)
    requires Enabled(s, Handle(c, helloOk))
    ensures var s' := DoHandle(s, c, helloOk);
            && s'.clients.Keys == s.clients.Keys
            && s' == s.(clients := s'.clients, queue := s'.queue, enqueued := s'.enqueued,
                        estopRaised := s'.estopRaised)
  {
  }

  /** The worker touches no client, no batch, neither flag nor slot. */
  lemma WorkerFrame(s: Sys, step: Step)
    requires Enabled(s, step) && !OfClient(step) && !OfCallback(step)
    ensures var s' := Apply(s, step);
            s' == s.(worker := s'.worker, pending := s'.pending, queue := s'.queue, settled := s'.settled,
                     sent := s'.sent, published := s'.published)
  {
    if step.Poll? || step.Abort? || step.TimeOut? {
      AnsweringFrame(s, step);
    } else {
      OtherWorkerFrame(s, step);
    }
  }

  lemma AnsweringFrame(s: Sys, step: Step)
    requires Enabled(s, step) && (step.Poll? || step.Abort? || step.TimeOut?)
    ensures var s' := Apply(s, step); s' == s.(worker := s'.worker, pending := s'.pending)
  {
  }

  lemma OtherWorkerFrame(s: Sys, step: Step)
    requires Enabled(s, step) && !OfClient(step) && !OfCallback(step)
    requires !step.Poll? && !step.Abort? && !step.TimeOut?
    ensures var s' := Apply(s, step);
            s' == s.(worker := s'.worker, pending := s'.pending, queue := s'.queue, settled := s'.settled,
                     sent := s'.sent, published := s'.published)
  {
  }

  /** The callback touches no client, no queue, and nothing of the worker's. */
  lemma CallbackFrame(s: Sys, step: Step)
    requires Enabled(s, step) && OfCallback(step)
    ensures var s' := Apply(s, step);
            s' == s.(callback := s'.callback, estopRaised := s'.estopRaised, asyncValid := s'.asyncValid,
                     pending := s'.pending, results := s'.results, broadcasts := s'.broadcasts)
  {
  }
}
