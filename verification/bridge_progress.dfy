/** How far the command worker gets by itself, with a robot that stays silent and threads that do nothing. */
module BridgeProgress {
  import opened BatchOrder
  import opened BridgeSteps
  import opened Bridge

  predicate OfWorker(step: Step) {
    !OfClient(step) && !OfCallback(step)
  }

  /** One way for the worker to go on: a wait ends with its deadline. */
  function WorkerMove(s: Sys): Step {
    match s.worker
    case Idle => Dequeue
    case Taken(_) => Check(true, false)
    case Cleared(_) => RecordJob
    case Recorded(_, _) => Publish
    case Waiting(_, _) => TimeOut
    case Looking(_, _) => Poll
    case Aborting(_, _) => Abort
    case Answered(_, _, _, _) => SendAck(true)
  }

  /** Steps of its own that the job in hand still needs. */
  function Rank(w: Worker): nat {
    match w
    case Idle => 0
    case Taken(_) => 5
    case Cleared(_) => 4
    case Recorded(_, _) => 3
    case Waiting(_, _) => 2
    case Looking(_, _) => 3
    case Aborting(_, _) => 2
    case Answered(_, _, _, _) => 1
  }

  function Work(s: Sys): nat {
    Rank(s.worker) + 6 * |s.queue|
  }

  predicate Rests(s: Sys) {
    s.worker.Idle? && s.queue == []
  }

  lemma ClientsKnown(s: Sys)
    requires QueueInv(s)
    ensures !s.worker.Idle? ==> s.worker.job.client in s.clients
    ensures s.queue != [] ==> s.queue[0].client in s.clients
  {
    if !s.worker.Idle? {
      WorkerJobQueued(s);
    }
    if s.queue != [] {
      assert s.queue[0] in s.enqueued;
    }
  }

  lemma MoveWorks(s: Sys)
    requires !s.worker.Idle? ==> s.worker.job.client in s.clients
    requires s.queue != [] ==> s.queue[0].client in s.clients
    requires !Rests(s)
    ensures Enabled(s, WorkerMove(s)) && OfWorker(WorkerMove(s)) && Work(Apply(s, WorkerMove(s))) < Work(s)
  {
    if s.worker.Idle? {
      assert Work(DoDequeue(s)) < Work(s);
    } else {
      InHandWorks(s);
    }
  }

  lemma InHandWorks(s: Sys)
    requires !s.worker.Idle? && s.worker.job.client in s.clients
    ensures Enabled(s, WorkerMove(s)) && OfWorker(WorkerMove(s))
    ensures Apply(s, WorkerMove(s)).queue == s.queue && Rank(Apply(s, WorkerMove(s)).worker) < Rank(s.worker)
  {
  }

  lemma OneMore(ss: seq<Sys>, steps: seq<Step>)
    requires IsRun(ss, steps) && !Rests(ss[|steps|])
    ensures var s := ss[|steps|];
            && Enabled(s, WorkerMove(s)) && OfWorker(WorkerMove(s)) && Work(Apply(s, WorkerMove(s))) < Work(s)
            && Apply(s, WorkerMove(s)).enqueued == s.enqueued
            && IsRun(ss + [Apply(s, WorkerMove(s))], steps + [WorkerMove(s)])
  {
    var s := ss[|steps|];
    RunKeeps(ss, steps, |steps|);
    ClientsKnown(s);
    MoveWorks(s);
    WorkerFrame(s, WorkerMove(s));
    Appended(ss, steps, WorkerMove(s), Apply(s, WorkerMove(s)));
  }

  lemma Appended(ss: seq<Sys>, steps: seq<Step>, step: Step, s': Sys)
    requires IsRun(ss, steps) && Enabled(ss[|steps|], step) && s' == Apply(ss[|steps|], step)
    ensures IsRun(ss + [s'], steps + [step])
  {
  }

  /** A run continued by the worker alone until it rests. */
  ghost predicate Drains(ss: seq<Sys>, steps: seq<Step>, ss': seq<Sys>, steps': seq<Step>) {
    && IsRun(ss, steps) && IsRun(ss', steps') && ss <= ss' && steps <= steps'
    && (forall i :: |steps| <= i < |steps'| ==> OfWorker(steps'[i]))
    && |steps'| <= |steps| + Work(ss[|steps|])
    && Rests(ss'[|steps'|]) && ss'[|steps'|].enqueued == ss[|steps|].enqueued
  }

  lemma {:induction false} Drain(ss: seq<Sys>, steps: seq<Step>) returns (ss': seq<Sys>, steps': seq<Step>)
    requires IsRun(ss, steps)
    ensures Drains(ss, steps, ss', steps')
    decreases Work(ss[|steps|])
  {
    var s := ss[|steps|];
    if Rests(s) {
      ss', steps' := ss, steps;
    } else {
      OneMore(ss, steps);
      var ss1, steps1 := ss + [Apply(s, WorkerMove(s))], steps + [WorkerMove(s)];
      ss', steps' := Drain(ss1, steps1);
      DrainsFurther(ss, steps, ss1, steps1, ss', steps');
    }
  }

  lemma DrainsFurther(ss: seq<Sys>, steps: seq<Step>, ss1: seq<Sys>, steps1: seq<Step>,
                      ss': seq<Sys>, steps': seq<Step>)
    requires IsRun(ss, steps) && IsRun(ss1, steps1) && ss <= ss1 && steps <= steps1 && |steps1| == |steps| + 1
    requires OfWorker(steps1[|steps|]) && Work(ss1[|steps1|]) < Work(ss[|steps|])
    requires ss1[|steps1|].enqueued == ss[|steps|].enqueued && Drains(ss1, steps1, ss', steps')
    ensures Drains(ss, steps, ss', steps')
  {
    assert steps'[|steps|] == steps1[|steps|];
  }

  /**
   From every reachable state the worker alone settles every command enqueued so far, in at most six steps
   each (fewer for the one in hand), though the robot never answers: it is never stuck.
   */
  lemma WorkerDrains(ss: seq<Sys>, steps: seq<Step>) returns (ss': seq<Sys>, steps': seq<Step>)
    requires IsRun(ss, steps)
    ensures Drains(ss, steps, ss', steps')
    ensures JobsOf(ss'[|steps'|].settled) == ss[|steps|].enqueued
  {
    ss', steps' := Drain(ss, steps);
    ExactlyOnceFifo(ss', steps', |steps'|);
  }
}
