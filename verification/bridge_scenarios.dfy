/**
 Concrete runs of the bridge, step by step, that show what its promises do not cover. In all of them the robot
 answers each publication at most once, and only after it was made.
 */
module BridgeScenarios {
  import opened BatchOrder
  import opened BridgeSteps
  import opened BridgeEstop
  import opened BridgeAnswers

  ghost predicate Reaches(s: Sys) {
    exists ss, steps :: IsRun(ss, steps) && Honest(ss, steps) && ss[|steps|] == s
  }

  lemma StartReached()
    ensures Reaches(START)
  {
    assert IsRun([START], []) && Honest([START], []);
  }

  /** The robot may give this result: it answers a publication not yet answered. */
  ghost predicate MayAnswer(s: Sys, r: RobotResult) {
    Echoes(s.published, r) && !Arrived(s, r.origin)
  }

  lemma Next(s: Sys, step: Step)
    requires Reaches(s) && Enabled(s, step) && (step.ResultArrives? ==> MayAnswer(s, step.r))
    ensures Reaches(Apply(s, step))
  {
    var ss, steps :| IsRun(ss, steps) && Honest(ss, steps) && ss[|steps|] == s;
    var ss', steps' := Extend(ss, steps, step);
  }

  const HELLO := Frame(Hello, 1, "")
  const TASK := Frame(CmdTask, 2, "")

  function StopFrame(n: nat): Frame {
    Frame(CmdEstop, n, "")
  }

  /** Client 0 alone, with HELLO said and this left of its batch. */
  function Solo(batch: nat, todo: seq<Frame>, stage: EstopStage): map<nat, Client> {
    map[0 := Client(true, true, batch, todo, stage)]
  }

  /** Client 0 has sent HELLO as its first batch. */
  lemma HelloReceived() returns (s: Sys)
    ensures Reaches(s)
    ensures s == START.(clients := map[0 := Client(true, false, 1, [HELLO], NotStarted)], batches := s.batches)
  {
    StartReached();
    var s1 := Apply(START, Accept(0));
    Next(START, Accept(0));
    s := Apply(s1, Receive(0, [HELLO]));
    Next(s1, Receive(0, [HELLO]));
    OneOther(HELLO);
    assert s.clients == map[0 := Client(true, false, 1, [HELLO], NotStarted)];
  }

  /** A state in which client 0 has said HELLO and nothing else has happened. */
  lemma Greeted() returns (s: Sys)
    ensures Reaches(s)
    ensures s == START.(clients := Solo(1, [], NotStarted), batches := s.batches)
  {
    var s1 := HelloReceived();
    s := Apply(s1, Handle(0, true));
    Next(s1, Handle(0, true));
    assert [HELLO][1..] == [];
    assert s.clients == Solo(1, [], NotStarted);
  }

  /** One read brings ESTOPs, in any number. */
  lemma ReceivesStops(s: Sys, b: nat, stops: seq<Frame>) returns (s': Sys)
    requires Reaches(s) && s.clients == Solo(b, [], NotStarted) && forall f :: f in stops ==> IsEstop(f)
    ensures Reaches(s') && s' == s.(clients := Solo(b + 1, stops, NotStarted), batches := s'.batches)
  {
    s' := Apply(s, Receive(0, stops));
    Next(s, Receive(0, stops));
    AllStops(stops);
    assert s'.clients == Solo(b + 1, stops, NotStarted);
  }

  lemma {:induction false} AllStops(fs: seq<Frame>)
    requires forall f :: f in fs ==> IsEstop(f)
    ensures Estops(fs) == fs && Others(fs) == [] && UrgentFirst(fs) == fs
  {
    if fs == [] {
    } else {
      AllStops(fs[1..]);
      assert Estops(fs) == [fs[0]] + fs[1..];
    }
  }

  lemma OneOther(f: Frame)
    requires !IsEstop(f)
    ensures UrgentFirst([f]) == [f] && [f][1..] == []
  {
    assert [f][1..] == [];
    assert Estops([f]) == [] && Others([f]) == [f] + [];
  }

  /** The ESTOP at the head raises the flag. */
  lemma RaisesStop(s: Sys, b: nat, f: Frame, rest: seq<Frame>) returns (s': Sys)
    requires Reaches(s) && s.clients == Solo(b, [f] + rest, NotStarted) && IsEstop(f)
    ensures Reaches(s') && s' == s.(clients := Solo(b, [f] + rest, FlagRaised), estopRaised := true)
  {
    s' := Apply(s, Handle(0, true));
    Next(s, Handle(0, true));
    assert s'.clients == Solo(b, [f] + rest, FlagRaised);
  }

  /** Then it takes and arms the slot. */
  lemma TakesSlot(s: Sys, b: nat, f: Frame, rest: seq<Frame>) returns (s': Sys)
    requires Reaches(s) && s.clients == Solo(b, [f] + rest, FlagRaised)
    ensures Reaches(s')
    ensures s' == s.(clients := Solo(b, [f] + rest, SlotArmed), asyncValid := true, asyncSeq := f.seqNo,
                     stored := s.stored + [f.seqNo], armed := s.armed + [f.seqNo])
  {
    var s1 := Apply(s, StoreSeq(0));
    Next(s, StoreSeq(0));
    s' := Apply(s1, ArmSlot(0));
    Next(s1, ArmSlot(0));
    assert s'.clients == Solo(b, [f] + rest, SlotArmed);
  }

  /** All three stores of `urgent_estop`. */
  lemma StoresSlot(s: Sys, b: nat, f: Frame, rest: seq<Frame>) returns (s': Sys)
    requires Reaches(s) && s.clients == Solo(b, [f] + rest, NotStarted) && IsEstop(f)
    ensures Reaches(s')
    ensures s' == s.(clients := Solo(b, [f] + rest, SlotArmed), estopRaised := true, asyncValid := true,
                     asyncSeq := f.seqNo, stored := s.stored + [f.seqNo], armed := s.armed + [f.seqNo])
  {
    var s1 := RaisesStop(s, b, f, rest);
    s' := TakesSlot(s1, b, f, rest);
  }

  /** Its entry and its publication. */
  lemma PublishesStop(s: Sys, b: nat, f: Frame, rest: seq<Frame>) returns (s': Sys)
    requires Reaches(s) && s.clients == Solo(b, [f] + rest, SlotArmed)
    ensures Reaches(s')
    ensures s' == s.(clients := Solo(b, rest, NotStarted),
                     pending := s.pending[f.seqNo := Entry(false, NOTHING, |s.results|)],
                     published := s.published + [Pub(0, b, f)])
  {
    var s1 := Apply(s, RecordEstop(0));
    Next(s, RecordEstop(0));
    s' := Apply(s1, PublishEstop(0));
    Next(s1, PublishEstop(0));
    assert ([f] + rest)[1..] == rest;
    assert s'.clients == Solo(b, rest, NotStarted);
  }

  /** A result that finds the slot armed for its number: the comparison. */
  lemma MatchesSlot(s: Sys, r: RobotResult) returns (s': Sys)
    requires Reaches(s) && s.callback.Quiet? && s.asyncValid && s.asyncSeq == r.seqNo && MayAnswer(s, r)
    ensures Reaches(s') && s' == s.(callback := Matched(r))
  {
    var s1 := Apply(s, ResultArrives(r));
    Next(s, ResultArrives(r));
    s' := Apply(s1, CompareSeq);
    Next(s1, CompareSeq);
  }

  /** The rest of its completion. */
  lemma Completes(s: Sys, r: RobotResult) returns (s': Sys)
    requires Reaches(s) && s.callback == Matched(r)
    ensures Reaches(s')
    ensures s' == s.(callback := Quiet, estopRaised := false, asyncValid := false, results := s.results + [r],
                     broadcasts := s.broadcasts + [Broadcast(r, Listeners(s))])
  {
    var s1 := Apply(s, LowerFlag);
    Next(s, LowerFlag);
    assert Listeners(s1) == Listeners(s);
    s' := FreesSlot(s1, r);
  }

  /** A result that finds the slot free, or armed for another number. */
  lemma GoesToPending(s: Sys, r: RobotResult) returns (s': Sys)
    requires Reaches(s) && s.callback.Quiet? && !(s.asyncValid && s.asyncSeq == r.seqNo) && r.seqNo in s.pending
    requires MayAnswer(s, r)
    ensures Reaches(s')
    ensures s' == s.(results := s.results + [r],
                     pending := s.pending[r.seqNo := s.pending[r.seqNo].(done := true, r := r)])
  {
    var s1 := MissesSlot(s, r);
    s' := Apply(s1, DeliverResult);
    Next(s1, DeliverResult);
  }

  lemma MissesSlot(s: Sys, r: RobotResult) returns (s': Sys)
    requires Reaches(s) && s.callback.Quiet? && !(s.asyncValid && s.asyncSeq == r.seqNo) && MayAnswer(s, r)
    ensures Reaches(s') && s' == s.(callback := Unmatched(r))
  {
    s' := Apply(s, ResultArrives(r));
    Next(s, ResultArrives(r));
    if s.asyncValid {
      var s1 := s';
      s' := Apply(s1, CompareSeq);
      Next(s1, CompareSeq);
    }
  }

  // ----- a motion command forwarded during ESTOP -----

  /** Client 0 sends a task; the worker takes it and its check lets it through. */
  lemma TaskAdmitted() returns (s: Sys)
    ensures Reaches(s) && s.clients == Solo(2, [], NotStarted) && s.worker == Recorded(Job(0, 2, TASK), 0)
    ensures s.published == [] && s.callback.Quiet? && s.queue == [] && s.settled == [] && s.results == []
    ensures !s.estopRaised && !s.asyncValid
  {
    var s0 := Greeted();
    var s1 := Apply(s0, Receive(0, [TASK]));
    Next(s0, Receive(0, [TASK]));
    OneOther(TASK);
    var s2 := Apply(s1, Handle(0, true));
    Next(s1, Handle(0, true));
    assert s2.clients == Solo(2, [], NotStarted);
    s := WorkerAdmits(s2);
  }

  lemma WorkerAdmits(s: Sys) returns (s': Sys)
    requires Reaches(s) && s.clients == Solo(2, [], NotStarted) && s.worker.Idle? && s.queue == [Job(0, 2, TASK)]
    requires s.results == []
    ensures Reaches(s')
    ensures s' == s.(worker := Recorded(Job(0, 2, TASK), 0), queue := [],
                     pending := s.pending[2 := Entry(false, NOTHING, 0)])
  {
    var s1 := Apply(s, Dequeue);
    Next(s, Dequeue);
    assert s1.worker == Taken(Job(0, 2, TASK));
    s' := CheckAdmits(s1, Job(0, 2, TASK));
  }

  lemma CheckAdmits(s: Sys, job: Job) returns (s': Sys)
    requires Reaches(s) && s.worker == Taken(job) && job.client in s.clients && s.clients[job.client].hello
    ensures Reaches(s')
    ensures s' == s.(worker := Recorded(job, |s.results|),
                     pending := s.pending[job.frame.seqNo := Entry(false, NOTHING, |s.results|)])
  {
    var s1 := Apply(s, Check(true, false));
    Next(s, Check(true, false));
    s' := Apply(s1, RecordJob);
    Next(s1, RecordJob);
  }

  /**
   Section 7, rule 4 of docs/PROTOCOL.md, fails: a CMD_TASK goes out to the robot while the ESTOP flag is
   up and after the ESTOP itself was published, and its sender is then told that it was rejected as
   `estop_active`.
   */
  lemma TaskForwardedDuringEstop() returns (during: Sys, after: Sys)
    ensures Reaches(during) && during.estopRaised && Enabled(during, Publish)
    ensures during.published == [Pub(0, 3, StopFrame(3))]
    ensures Reaches(after) && after.published == during.published + [Pub(0, 2, TASK)]
    ensures after.worker == Answered(Job(0, 2, TASK), Rejected(EstopActive), 0, true)
  {
    var s := TaskAdmitted();
    var s1 := ReceivesStops(s, 2, [StopFrame(3)]);
    assert [StopFrame(3)] == [StopFrame(3)] + [];
    var s2 := StoresSlot(s1, 3, StopFrame(3), []);
    during := PublishesStop(s2, 3, StopFrame(3), []);
    after := PublishedThenAborted(during, Job(0, 2, TASK), 0);
  }

  lemma PublishedThenAborted(s: Sys, job: Job, since: nat) returns (s': Sys)
    requires Reaches(s) && s.worker == Recorded(job, since) && s.estopRaised
    ensures Reaches(s') && s'.worker == Answered(job, Rejected(EstopActive), since, true)
    ensures s'.published == s.published + [Pub(job.client, job.batch, job.frame)]
  {
    var s1 := Apply(s, Publish);
    Next(s, Publish);
    var s2 := Apply(s1, LoadFlag);
    Next(s1, LoadFlag);
    s' := Apply(s2, Abort);
    Next(s2, Abort);
  }

  // ----- an ESTOP that is never ACKed -----

  /** Both ESTOPs of one batch have been published. */
  lemma TwoStopsOut() returns (s: Sys)
    ensures Reaches(s) && s.clients == Solo(2, [], NotStarted) && s.callback.Quiet?
    ensures s.published == [Pub(0, 2, StopFrame(1)), Pub(0, 2, StopFrame(2))] && s.results == [] && s.broadcasts == []
    ensures s.asyncValid && s.asyncSeq == 2 && s.enqueued == [] && s.worker.Idle? && 1 in s.pending
  {
    var g := Greeted();
    var s1 := ReceivesStops(g, 1, [StopFrame(1)] + [StopFrame(2)]);
    var s2 := StoresSlot(s1, 2, StopFrame(1), [StopFrame(2)]);
    var s3 := PublishesStop(s2, 2, StopFrame(1), [StopFrame(2)]);
    assert s3.published == [Pub(0, 2, StopFrame(1))];
    assert [StopFrame(2)] == [StopFrame(2)] + [];
    var s4 := StoresSlot(s3, 2, StopFrame(2), []);
    s := PublishesStop(s4, 2, StopFrame(2), []);
  }

  /** The robot answers both, but only the second answer becomes an ACK; the first ESTOP's entry stays,
      completed and unread. */
  lemma EstopNeverAcked(r1: RobotResult, r2: RobotResult) returns (s: Sys)
    requires r1.seqNo == 1 && r1.origin == 0 && r2.seqNo == 2 && r2.origin == 1
    ensures Reaches(s) && s.callback.Quiet? && !Raising(s)
    ensures s.published == [Pub(0, 2, StopFrame(1)), Pub(0, 2, StopFrame(2))] && s.results == [r1, r2]
    ensures |s.broadcasts| == 1 && s.broadcasts[0].result == r2
    ensures s.enqueued == [] && s.worker.Idle? && 1 in s.pending && s.pending[1].done
  {
    var s0 := TwoStopsOut();
    var s1 := GoesToPending(s0, r1);
    var s2 := MatchesSlot(s1, r2);
    s := Completes(s2, r2);
  }

  // ----- completions that collide with another ESTOP -----

  /** A first ESTOP was published; the robot's answer to it has been matched, and a second one has arrived. */
  lemma SecondStopArrives(r: RobotResult) returns (s: Sys)
    requires r.seqNo == 1 && r.origin == 0
    ensures Reaches(s) && s.clients == Solo(3, [StopFrame(2)], NotStarted) && s.callback == Matched(r)
    ensures s.estopRaised && s.asyncValid && s.worker.Idle?
  {
    var g := Greeted();
    var s1 := ReceivesStops(g, 1, [StopFrame(1)]);
    assert [StopFrame(1)] == [StopFrame(1)] + [];
    var s2 := StoresSlot(s1, 2, StopFrame(1), []);
    var s3 := PublishesStop(s2, 2, StopFrame(1), []);
    var s4 := MatchesSlot(s3, r);
    s := ReceivesStops(s4, 2, [StopFrame(2)]);
  }

  /** The second ESTOP arms the slot between the two stores of the first one's completion: its flag stays
      up without a slot, so every later command is refused until a third ESTOP. */
  lemma FlagOrphaned(r: RobotResult) returns (s: Sys)
    requires r.seqNo == 1 && r.origin == 0
    ensures Reaches(s) && Orphaned(s) && s.callback.Quiet? && s.worker.Idle?
    ensures RefusesAllFrom(s)
  {
    var s0 := SecondStopArrives(r);
    var s1 := Apply(s0, LowerFlag);
    Next(s0, LowerFlag);
    assert [StopFrame(2)] == [StopFrame(2)] + [];
    var s2 := StoresSlot(s1, 3, StopFrame(2), []);
    s := FreesSlot(s2, r);
    OrphanedIdleRefusesAll(s);
  }

  lemma FreesSlot(s: Sys, r: RobotResult) returns (s': Sys)
    requires Reaches(s) && s.callback == FlagLowered(r)
    ensures Reaches(s')
    ensures s' == s.(callback := Quiet, asyncValid := false, results := s.results + [r], broadcasts := s'.broadcasts)
    ensures s'.broadcasts == s.broadcasts + [Broadcast(r, Listeners(s))]
  {
    var s1 := Apply(s, FreeSlot);
    Next(s, FreeSlot);
    s' := Apply(s1, SendAsync);
    Next(s1, SendAsync);
    assert Listeners(s1) == Listeners(s);
  }

  /** The first one's completion lowers the flag that the second has just raised: the slot is armed for
      the second ESTOP, yet the commands in flight are no longer aborted. */
  lemma FlagLost(r: RobotResult) returns (s: Sys)
    requires r.seqNo == 1 && r.origin == 0
    ensures Reaches(s) && s.callback.Quiet? && !Raising(s) && s.asyncValid && s.asyncSeq == 2 && !s.estopRaised
  {
    var s0 := SecondStopArrives(r);
    assert [StopFrame(2)] == [StopFrame(2)] + [];
    var s1 := RaisesStop(s0, 3, StopFrame(2), []);
    var s2 := Completes(s1, r);
    s := TakesSlot(s2, 3, StopFrame(2), []);
  }

  // ----- an ACK that answers another client's command -----

  /** Client 0's command was published and timed out; its answer is still to come. */
  lemma FirstTimedOut() returns (s: Sys)
    ensures Reaches(s) && s.clients == Solo(2, [], NotStarted) && s.worker.Idle? && s.queue == []
    ensures s.settled == [Settled(Job(0, 2, TASK), Rejected(TimedOut), 0, true, true)]
    ensures s.published == [Pub(0, 2, TASK)] && s.results == [] && s.callback.Quiet? && !s.estopRaised && !s.asyncValid
  {
    var s0 := TaskAdmitted();
    var s1 := PublishesJob(s0, Job(0, 2, TASK), 0);
    s := GivesUp(s1, Job(0, 2, TASK), 0);
  }

  lemma PublishesJob(s: Sys, job: Job, since: nat) returns (s': Sys)
    requires Reaches(s) && s.worker == Recorded(job, since)
    ensures Reaches(s')
    ensures s' == s.(worker := Waiting(job, since), published := s.published + [Pub(job.client, job.batch, job.frame)])
  {
    s' := Apply(s, Publish);
    Next(s, Publish);
  }

  lemma GivesUp(s: Sys, job: Job, since: nat) returns (s': Sys)
    requires Reaches(s) && s.worker == Waiting(job, since) && job.client in s.clients && s.clients[job.client].open
    ensures Reaches(s')
    ensures s' == s.(worker := Idle, pending := s'.pending, sent := s'.sent,
                     settled := s.settled + [Settled(job, Rejected(TimedOut), since, true, true)])
  {
    var s1 := Apply(s, TimeOut);
    Next(s, TimeOut);
    s' := Apply(s1, SendAck(true));
    Next(s1, SendAck(true));
  }

  /** Client 1 connects, says HELLO and sends a command of the same number. */
  lemma SecondClient(s: Sys) returns (s': Sys)
    requires Reaches(s) && s.clients == Solo(2, [], NotStarted)
    ensures Reaches(s') && 1 in s'.clients && s'.clients[1] == Client(true, true, 1, [TASK], NotStarted)
    ensures s' == s.(clients := s'.clients, batches := s'.batches)
  {
    var s1 := SecondConnects(s);
    HelloThenTask();
    s' := Apply(s1, Handle(1, true));
    Next(s1, Handle(1, true));
  }

  lemma SecondConnects(s: Sys) returns (s': Sys)
    requires Reaches(s) && s.clients == Solo(2, [], NotStarted)
    ensures Reaches(s') && 1 in s'.clients && s'.clients[1] == Client(true, false, 1, [HELLO, TASK], NotStarted)
    ensures s' == s.(clients := s'.clients, batches := s'.batches)
  {
    var s1 := Apply(s, Accept(1));
    Next(s, Accept(1));
    HelloThenTask();
    s' := Apply(s1, Receive(1, [HELLO, TASK]));
    Next(s1, Receive(1, [HELLO, TASK]));
  }

  lemma HelloThenTask()
    ensures UrgentFirst([HELLO, TASK]) == [HELLO, TASK] && [HELLO, TASK][1..] == [TASK]
  {
    assert [HELLO, TASK][1..] == [TASK] && [TASK][1..] == [];
    assert Estops([TASK]) == [] && Estops([HELLO, TASK]) == [];
    assert Others([TASK]) == [TASK] && Others([HELLO, TASK]) == [HELLO] + [TASK];
    assert [] + [HELLO, TASK] == [HELLO, TASK];
  }

  /** The worker takes it up, and its check lets it through. */
  lemma SecondCleared(s: Sys) returns (s': Sys)
    requires Reaches(s) && 1 in s.clients && s.clients[1] == Client(true, true, 1, [TASK], NotStarted)
    requires s.worker.Idle? && s.queue == []
    ensures Reaches(s') && s'.worker == Cleared(Job(1, 1, TASK)) && s'.settled == s.settled
    ensures s' == s.(clients := s'.clients, enqueued := s'.enqueued, worker := s'.worker)
  {
    var s1 := Apply(s, Handle(1, true));
    Next(s, Handle(1, true));
    var s2 := Apply(s1, Dequeue);
    Next(s1, Dequeue);
    s' := Apply(s2, Check(true, false));
    Next(s2, Check(true, false));
  }

  /** The robot's late answer to client 0's command, which client 0 was told had timed out, becomes the ACK
      of client 1's command of the same number. */
  lemma ForeignAck(body: string) returns (s: Sys)
    ensures Reaches(s) && s.settled == [Settled(Job(0, 2, TASK), Rejected(TimedOut), 0, true, true)]
    ensures s.published == [Pub(0, 2, TASK), Pub(1, 1, TASK)]
    ensures s.worker == Answered(Job(1, 1, TASK), FromRobot(RobotResult(2, body, 0)), 0, true)
  {
    var s0 := FirstTimedOut();
    var s1 := SecondClient(s0);
    var s2 := SecondCleared(s1);
    var ss, steps :| IsRun(ss, steps) && Honest(ss, steps) && ss[|steps|] == s2;
    var ss', steps' := ForeignRun(ss, steps, 0, body);
    s := ss'[|steps'|];
  }
}
