/**
 The bridge's state in terms of what happened: who said HELLO, who was closed, why a command was refused, who gets
 an asynchronous ACK, and that every command frame received becomes exactly one job.
 */
module BridgeHistory {
  import opened BatchOrder
  import opened BridgeSteps
  import opened Bridge
  import opened BridgeEstop

  // ----- HELLO and closing -----

  /** Before state k a HELLO frame of client c was handled, and its version accepted. */
  ghost predicate SaidHello(ss: seq<Sys>, steps: seq<Step>, k: nat, c: nat) {
    exists i :: 0 <= i < k && i < |steps| && i < |ss| && steps[i] == Handle(c, true) && c in ss[i].clients
                && ss[i].clients[c].todo != [] && ss[i].clients[c].todo[0].kind == Hello
  }

  ghost predicate WasClosed(steps: seq<Step>, k: nat, c: nat) {
    exists i :: 0 <= i < k && i < |steps| && steps[i] == Close(c)
  }

  /** What one step does to a client's two flags. */
  ghost predicate FlagsMove(s: Sys, step: Step, s': Sys, c: nat) {
    && (c in s.clients ==> c in s'.clients)
    && (step == Close(c) ==> c in s.clients)
    && (c in s'.clients ==>
          && (s'.clients[c].hello <==>
                || (c in s.clients && s.clients[c].hello)
                || (&& step == Handle(c, true) && c in s.clients && s.clients[c].todo != []
                    && s.clients[c].todo[0].kind == Hello))
          && (s'.clients[c].open <==> step != Close(c) && (c in s.clients ==> s.clients[c].open)))
  }

  lemma FlagsStep(s: Sys, step: Step, c: nat)
    requires Enabled(s, step)
    ensures FlagsMove(s, step, Apply(s, step), c)
  {
    if step.Handle? {
      HandleFlags(s, step, c);
    } else if OfClient(step) {
      ClientFlags(s, step, c);
    } else if OfCallback(step) {
      CallbackFrame(s, step);
    } else {
      WorkerFrame(s, step);
    }
  }

  lemma HandleFlags(s: Sys, step: Step, c: nat)
    requires Enabled(s, step) && step.Handle?
    ensures FlagsMove(s, step, Apply(s, step), c)
  {
  }

  lemma ClientFlags(s: Sys, step: Step, c: nat)
    requires Enabled(s, step) && OfClient(step) && !step.Handle?
    ensures FlagsMove(s, step, Apply(s, step), c)
  {
  }

  lemma FlagsNext(ss: seq<Sys>, steps: seq<Step>, k: nat, c: nat)
    requires IsRun(ss, steps) && k < |steps|
    ensures FlagsMove(ss[k], steps[k], ss[k + 1], c)
  {
    FlagsStep(ss[k], steps[k], c);
  }

  lemma HelloLater(ss: seq<Sys>, steps: seq<Step>, k: nat, c: nat)
    requires k < |steps| && k < |ss|
    ensures SaidHello(ss, steps, k + 1, c) <==>
              || SaidHello(ss, steps, k, c)
              || (steps[k] == Handle(c, true) && c in ss[k].clients && ss[k].clients[c].todo != []
                  && ss[k].clients[c].todo[0].kind == Hello)
  {
  }

  lemma ClosedLater(steps: seq<Step>, k: nat, c: nat)
    requires k < |steps|
    ensures WasClosed(steps, k + 1, c) <==> WasClosed(steps, k, c) || steps[k] == Close(c)
  {
  }

  ghost predicate FlagTrace(ss: seq<Sys>, steps: seq<Step>, k: nat, c: nat) {
    && k <= |steps| && |ss| == |steps| + 1 && c !in ss[0].clients
    && forall i :: 0 <= i < k ==> FlagsMove(ss[i], steps[i], ss[i + 1], c)
  }

  lemma {:induction false} FlagsTraced(ss: seq<Sys>, steps: seq<Step>, k: nat, c: nat)
    requires FlagTrace(ss, steps, k, c)
    ensures c !in ss[k].clients ==> !SaidHello(ss, steps, k, c) && !WasClosed(steps, k, c)
    ensures c in ss[k].clients ==>
              && (ss[k].clients[c].hello <==> SaidHello(ss, steps, k, c))
              && (ss[k].clients[c].open <==> !WasClosed(steps, k, c))
  {
    if k == 0 {
    } else {
      assert FlagsMove(ss[k - 1], steps[k - 1], ss[k], c);
      FlagsTraced(ss, steps, k - 1, c);
      HelloLater(ss, steps, k - 1, c);
      ClosedLater(steps, k - 1, c);
    }
  }

  /** A client counts as greeted exactly when a HELLO frame of its own was handled and accepted before; and it counts as
      open exactly when it was not closed before. */
  lemma FlagsIff(ss: seq<Sys>, steps: seq<Step>, k: nat, c: nat)
    requires IsRun(ss, steps) && k <= |steps| && c in ss[k].clients
    ensures ss[k].clients[c].hello <==> SaidHello(ss, steps, k, c)
    ensures ss[k].clients[c].open <==> !WasClosed(steps, k, c)
  {
    forall i | 0 <= i < k ensures FlagsMove(ss[i], steps[i], ss[i + 1], c) {
      FlagsNext(ss, steps, i, c);
    }
    FlagsTraced(ss, steps, k, c);
  }

  // ----- who reaches the robot, and why not -----

  predicate MotionCommand(f: Frame) {
    f.kind == CmdTask || (f.kind == CmdMode && exists i :: 0 <= i <= |f.payload| && OccursAt(f.payload, "\"AUTO\"", i))
  }

  /** The check at step k, told from the history: HELLO said, state recent, and no motion command against the last
      known flag. */
  ghost predicate PassesCheck(ss: seq<Sys>, steps: seq<Step>, k: nat)
    requires k < |steps| && k < |ss| && steps[k].Check? && ss[k].worker.Taken?
  {
    && SaidHello(ss, steps, k, ss[k].worker.job.client) && steps[k].recent
    && !(MotionCommand(ss[k].worker.job.frame) && steps[k].snapEstop)
  }

  lemma PassesIffAdmits(ss: seq<Sys>, steps: seq<Step>, k: nat)
    requires IsRun(ss, steps) && k < |steps| && steps[k].Check?
    ensures Enabled(ss[k], steps[k]) && ss[k].worker.Taken?
    ensures Admits(ss[k], steps[k]) <==> PassesCheck(ss, steps, k)
  {
    CheckEnabled(ss, steps, k);
    FlagsIff(ss, steps, k, ss[k].worker.job.client);
  }

  lemma CheckEnabled(ss: seq<Sys>, steps: seq<Step>, k: nat)
    requires IsRun(ss, steps) && k < |steps| && steps[k].Check?
    ensures Enabled(ss[k], steps[k]) && ss[k].worker.Taken? && ss[k].worker.job.client in ss[k].clients
  {
  }

  /**
   Exactly when a queued command reaches the robot: iff at its check its client had had a HELLO frame accepted, the
   robot's state was recent, and, for CMD_TASK and CMD_MODE AUTO, the last known ESTOP flag was down. Nothing
   that happens to `estop_raised_` or the slot has a say. If not, the answer says which of the three it was, in
   that order.
   */
  lemma ReachesRobotIff(ss: seq<Sys>, steps: seq<Step>, k: nat, m: nat)
    requires IsRun(ss, steps) && k < m <= |steps| && steps[k].Check?
    requires |ss[m].settled| > |ss[k].settled|
    ensures ss[k].worker.Taken?
    ensures var n, job := |ss[k].settled|, ss[k].worker.job;
            var o := ss[m].settled[n];
            && o.Settled? && o.job == job
            && (o.published <==> PassesCheck(ss, steps, k))
            && (!PassesCheck(ss, steps, k) ==>
                  o.ack == Rejected(if !SaidHello(ss, steps, k, job.client) then ProtoError
                                    else if !steps[k].recent then TimedOut else EstopActive))
  {
    PassesIffAdmits(ss, steps, k);
    SettledIffAdmits(ss, steps, k, m);
    FlagsIff(ss, steps, k, ss[k].worker.job.client);
    if !Admits(ss[k], steps[k]) {
      RefusedSo(ss, steps, k, m);
    }
  }

  /** The worker holds, or has settled as outcome n, a job refused with this answer. */
  ghost predicate RefusedWith(s: Sys, n: nat, why: Reason) {
    if |s.settled| > n then s.settled[n].Settled? && s.settled[n].ack == Rejected(why)
    else |s.settled| == n && s.worker.Answered? && s.worker.ack == Rejected(why)
  }

  lemma RefusedStep(s: Sys, step: Step, n: nat, why: Reason)
    requires Enabled(s, step) && RefusedWith(s, n, why)
    ensures RefusedWith(Apply(s, step), n, why)
  {
    if OfClient(step) {
      ClientFrame(s, step);
    } else if OfCallback(step) {
      CallbackFrame(s, step);
    } else if |s.settled| > n {
      SettledGrows(s, step);
    }
  }

  lemma {:induction false} RefusedRuns(ss: seq<Sys>, steps: seq<Step>, k: nat, m: nat, n: nat, why: Reason)
    requires IsRun(ss, steps) && k <= m <= |steps| && RefusedWith(ss[k], n, why)
    ensures RefusedWith(ss[m], n, why)
  {
    if m == k {
    } else {
      RefusedRuns(ss, steps, k, m - 1, n, why);
      RefusedNext(ss, steps, m - 1, n, why);
    }
  }

  lemma RefusedNext(ss: seq<Sys>, steps: seq<Step>, k: nat, n: nat, why: Reason)
    requires IsRun(ss, steps) && k < |steps| && RefusedWith(ss[k], n, why)
    ensures RefusedWith(ss[k + 1], n, why)
  {
    RunStep(ss, steps, k);
    RefusedStep(ss[k], steps[k], n, why);
  }

  lemma RefusedSo(ss: seq<Sys>, steps: seq<Step>, k: nat, m: nat)
    requires IsRun(ss, steps) && k < m <= |steps| && steps[k].Check? && Enabled(ss[k], steps[k])
    requires |ss[m].settled| > |ss[k].settled| && !Admits(ss[k], steps[k])
    ensures var o := ss[m].settled[|ss[k].settled|];
            && o.Settled?
            && o.ack == Rejected(if !ss[k].clients[ss[k].worker.job.client].hello then ProtoError
                                 else if !steps[k].recent then TimedOut else EstopActive)
  {
    var s, step := ss[k], steps[k];
    var why := if !s.clients[s.worker.job.client].hello then ProtoError
               else if !step.recent then TimedOut else EstopActive;
    RunStep(ss, steps, k);
    CheckRefuses(s, step, why);
    RefusedRuns(ss, steps, k + 1, m, |s.settled|, why);
  }

  lemma CheckRefuses(s: Sys, step: Step, why: Reason)
    requires step.Check? && Enabled(s, step) && !Admits(s, step)
    requires why == if !s.clients[s.worker.job.client].hello then ProtoError
                    else if !step.recent then TimedOut else EstopActive
    ensures RefusedWith(Apply(s, step), |s.settled|, why)
  {
  }

  /** Every command the worker ever published had passed that check earlier in the run. */
  lemma PublishedWasChecked(ss: seq<Sys>, steps: seq<Step>, k: nat, i: nat) returns (j: nat)
    requires IsRun(ss, steps) && k <= |steps|
    requires i < |ss[k].published| && !IsEstop(ss[k].published[i].frame)
    ensures j < k && steps[j].Check? && ss[j].worker.Taken? && PubOf(ss[j].worker.job) == ss[k].published[i]
    ensures PassesCheck(ss, steps, j)
  {
    j := PublishedAdmitted(ss, steps, k, i);
    PassesIffAdmits(ss, steps, j);
  }

  // ----- who is served and who is told -----

  /** The head of the queue is taken up exactly when its client was not closed before; else it is dropped. */
  lemma TakenIff(ss: seq<Sys>, steps: seq<Step>, k: nat)
    requires IsRun(ss, steps) && k < |steps| && steps[k].Dequeue?
    ensures ss[k].queue != [] && ss[k + 1].queue == ss[k].queue[1..]
    ensures var job := ss[k].queue[0];
            if WasClosed(steps, k, job.client)
            then ss[k + 1].worker.Idle? && ss[k + 1].settled == ss[k].settled + [Dropped(job)]
            else ss[k + 1].worker == Taken(job) && ss[k + 1].settled == ss[k].settled
  {
    RunStep(ss, steps, k);
    FlagsIff(ss, steps, k, ss[k].queue[0].client);
  }

  /** An ACK is delivered exactly when its client was not closed before and the socket takes it. */
  lemma DeliveredIff(ss: seq<Sys>, steps: seq<Step>, k: nat)
    requires IsRun(ss, steps) && k < |steps| && steps[k].SendAck?
    ensures ss[k].worker.Answered? && |ss[k + 1].sent| == |ss[k].sent| + 1
    ensures var a, w := ss[k + 1].sent[|ss[k].sent|], ss[k].worker;
            && a.client == w.job.client && a.seqNo == w.job.frame.seqNo && a.ack == w.ack
            && (a.delivered <==> steps[k].ok && !WasClosed(steps, k, w.job.client))
  {
    RunStep(ss, steps, k);
    FlagsIff(ss, steps, k, ss[k].worker.job.client);
  }

  /** An asynchronous ACK goes to exactly the clients that said HELLO and were not closed before. */
  lemma AsyncRecipients(ss: seq<Sys>, steps: seq<Step>, k: nat, c: nat)
    requires IsRun(ss, steps) && k < |steps| && steps[k].SendAsync? && c in ss[k].clients
    ensures |ss[k + 1].broadcasts| == |ss[k].broadcasts| + 1
    ensures c in ss[k + 1].broadcasts[|ss[k].broadcasts|].to <==>
              SaidHello(ss, steps, k, c) && !WasClosed(steps, k, c)
  {
    RunStep(ss, steps, k);
    FlagsIff(ss, steps, k, c);
  }

  /** Step i is why the bridge itself refused a published job. */
  ghost predicate Reasoned(ss: seq<Sys>, steps: seq<Step>, i: nat, job: Job, why: Reason) {
    && i < |steps| && i < |ss| && HasPublished(ss[i].worker) && ss[i].worker.job == job
    && ((why == EstopActive && steps[i].LoadFlag? && ss[i].estopRaised) || (why == TimedOut && steps[i].TimeOut?))
  }

  /** The worker is about to give, or has given, the answer of its own that a published job gets. */
  predicate OwnWord(w: Worker, why: Reason) {
    (w.Aborting? && why == EstopActive) || (w.Answered? && w.published && w.ack == Rejected(why))
  }

  lemma OwnWordOfWorker(s: Sys, step: Step, why: Reason)
    requires Enabled(s, step) && !OfClient(step) && !OfCallback(step) && OwnWord(Apply(s, step).worker, why)
    ensures Apply(s, step).worker.job == s.worker.job
    ensures || OwnWord(s.worker, why)
            || (&& HasPublished(s.worker)
                && ((why == EstopActive && step.LoadFlag? && s.estopRaised) || (why == TimedOut && step.TimeOut?)))
  {
  }

  lemma OwnWordStep(s: Sys, step: Step, why: Reason)
    requires Enabled(s, step) && OwnWord(Apply(s, step).worker, why)
    ensures Apply(s, step).worker.job == s.worker.job
    ensures || OwnWord(s.worker, why)
            || (&& HasPublished(s.worker)
                && ((why == EstopActive && step.LoadFlag? && s.estopRaised) || (why == TimedOut && step.TimeOut?)))
  {
    if OfClient(step) {
      ClientFrame(s, step);
    } else if OfCallback(step) {
      CallbackFrame(s, step);
    } else {
      OwnWordOfWorker(s, step, why);
    }
  }

  /** A published job is answered `estop_active` only after the flag was seen up, and `timeout` only at the deadline. */
  lemma {:induction false} RefusalsReasoned(ss: seq<Sys>, steps: seq<Step>, k: nat, why: Reason) returns (i: nat)
    requires IsRun(ss, steps) && k <= |steps| && OwnWord(ss[k].worker, why)
    ensures i < k && Reasoned(ss, steps, i, ss[k].worker.job, why)
  {
    StartsIdle(ss, steps, k, why);
    OwnWordNext(ss, steps, k - 1, why);
    if OwnWord(ss[k - 1].worker, why) {
      i := RefusalsReasoned(ss, steps, k - 1, why);
    } else {
      i := k - 1;
    }
  }

  lemma StartsIdle(ss: seq<Sys>, steps: seq<Step>, k: nat, why: Reason)
    requires IsRun(ss, steps) && k <= |steps| && OwnWord(ss[k].worker, why)
    ensures k > 0
  {
  }

  lemma OwnWordNext(ss: seq<Sys>, steps: seq<Step>, k: nat, why: Reason)
    requires IsRun(ss, steps) && k < |steps| && OwnWord(ss[k + 1].worker, why)
    ensures OwnWord(ss[k].worker, why) || Reasoned(ss, steps, k, ss[k + 1].worker.job, why)
    ensures OwnWord(ss[k].worker, why) ==> ss[k + 1].worker.job == ss[k].worker.job
  {
    RunStep(ss, steps, k);
    OwnWordStep(ss[k], steps[k], why);
  }

  // ----- when the worker finds its answer -----

  /** The step makes a fresh entry for number n. */
  predicate MakesEntry(s: Sys, step: Step, n: nat) {
    || (step.RecordEstop? && AtStage(s, step.c, SlotArmed) && s.clients[step.c].todo[0].seqNo == n)
    || (step.RecordJob? && s.worker.Cleared? && s.worker.job.frame.seqNo == n)
  }

  /** The step hands a result of number n that missed the slot to its entry. */
  predicate HandsOver(s: Sys, step: Step, n: nat) {
    step.DeliverResult? && s.callback.Unmatched? && s.callback.r.seqNo == n
  }

  ghost predicate EntryMoves(s: Sys, step: Step, s': Sys, n: nat) {
    n in s'.pending ==>
      if MakesEntry(s, step, n) then !s'.pending[n].done
      else
        && n in s.pending
        && s'.pending[n].done == (s.pending[n].done || HandsOver(s, step, n))
  }

  lemma EntryStep(s: Sys, step: Step, n: nat)
    requires Enabled(s, step)
    ensures EntryMoves(s, step, Apply(s, step), n)
  {
    if OfClient(step) {
      EntryOfClient(s, step, n);
    } else if OfCallback(step) {
      EntryOfCallback(s, step, n);
    } else {
      EntryOfWorker(s, step, n);
    }
  }

  lemma EntryOfClient(s: Sys, step: Step, n: nat)
    requires Enabled(s, step) && OfClient(step)
    ensures EntryMoves(s, step, Apply(s, step), n)
  {
    if !step.RecordEstop? {
      SamePending(s, step);
    }
  }

  lemma EntryOfCallback(s: Sys, step: Step, n: nat)
    requires Enabled(s, step) && OfCallback(step)
    ensures EntryMoves(s, step, Apply(s, step), n)
  {
  }

  lemma EntryOfWorker(s: Sys, step: Step, n: nat)
    requires Enabled(s, step) && !OfClient(step) && !OfCallback(step)
    ensures EntryMoves(s, step, Apply(s, step), n)
  {
  }

  lemma EntryNext(ss: seq<Sys>, steps: seq<Step>, k: nat, n: nat)
    requires IsRun(ss, steps) && k < |steps|
    ensures EntryMoves(ss[k], steps[k], ss[k + 1], n)
  {
    EntryStep(ss[k], steps[k], n);
  }

  /** A result of number n was handed over before state k, and no fresh entry was made for n since. */
  ghost predicate HandedOver(ss: seq<Sys>, steps: seq<Step>, k: nat, n: nat) {
    exists j :: 0 <= j < k && j < |steps| && j < |ss| && HandsOver(ss[j], steps[j], n)
                && forall i :: j < i < k && i < |steps| && i < |ss| ==> !MakesEntry(ss[i], steps[i], n)
  }

  lemma HandedLater(ss: seq<Sys>, steps: seq<Step>, k: nat, n: nat)
    requires k < |steps| && k < |ss|
    ensures HandedOver(ss, steps, k + 1, n) <==>
              HandsOver(ss[k], steps[k], n) || (HandedOver(ss, steps, k, n) && !MakesEntry(ss[k], steps[k], n))
  {
    if HandedOver(ss, steps, k, n) && !MakesEntry(ss[k], steps[k], n) {
      var j :| 0 <= j < k && HandsOver(ss[j], steps[j], n) && forall i :: j < i < k ==> !MakesEntry(ss[i], steps[i], n);
      assert forall i :: j < i < k + 1 ==> !MakesEntry(ss[i], steps[i], n);
    }
  }

  lemma {:induction false} DoneTraced(ss: seq<Sys>, steps: seq<Step>, k: nat, n: nat)
    requires |ss| == |steps| + 1 && k <= |steps| && n !in ss[0].pending
    requires forall i :: 0 <= i < k ==> EntryMoves(ss[i], steps[i], ss[i + 1], n)
    requires n in ss[k].pending
    ensures ss[k].pending[n].done <==> HandedOver(ss, steps, k, n)
  {
    assert EntryMoves(ss[k - 1], steps[k - 1], ss[k], n);
    HandedLater(ss, steps, k - 1, n);
    if !MakesEntry(ss[k - 1], steps[k - 1], n) {
      DoneTraced(ss, steps, k - 1, n);
    }
  }

  /**
   When the worker looks for its answer it takes it exactly if a result of the job's number, one that missed the slot,
   was handed over since the number's entry was last made; else it goes on waiting.
   */
  lemma PollFindsIff(ss: seq<Sys>, steps: seq<Step>, k: nat)
    requires IsRun(ss, steps) && k < |steps| && steps[k].Poll?
    ensures ss[k].worker.Looking?
    ensures var w, w' := ss[k].worker, ss[k + 1].worker;
            if HandedOver(ss, steps, k, w.job.frame.seqNo)
            then w'.Answered? && w'.job == w.job && w'.ack.FromRobot? && w'.ack.r.seqNo == w.job.frame.seqNo
            else w' == Waiting(w.job, w.since)
  {
    var n := LookingFor(ss, steps, k);
    PendingKeys(ss, steps, k);
    forall i | 0 <= i < k ensures EntryMoves(ss[i], steps[i], ss[i + 1], n) {
      EntryNext(ss, steps, i, n);
    }
    DoneTraced(ss, steps, k, n);
    PolledSo(ss, steps, k, n);
  }

  lemma LookingFor(ss: seq<Sys>, steps: seq<Step>, k: nat) returns (n: nat)
    requires IsRun(ss, steps) && k < |steps| && steps[k].Poll?
    ensures ss[k].worker.Looking? && n == ss[k].worker.job.frame.seqNo && ss[0].pending == map[]
  {
    n := ss[k].worker.job.frame.seqNo;
  }

  lemma PolledSo(ss: seq<Sys>, steps: seq<Step>, k: nat, n: nat)
    requires IsRun(ss, steps) && k < |steps| && steps[k].Poll? && ss[k].worker.Looking?
    requires n == ss[k].worker.job.frame.seqNo && n in ss[k].pending
    ensures var w, w' := ss[k].worker, ss[k + 1].worker;
            if ss[k].pending[n].done
            then w'.Answered? && w'.job == w.job && w'.ack.FromRobot? && w'.ack.r.seqNo == n
            else w' == Waiting(w.job, w.since)
  {
    RunKeeps(ss, steps, k);
    RunStep(ss, steps, k);
    if ss[k].pending[n].done {
      assert Delivered(ss[k].results, ss[k].pending[n].since, n, ss[k].pending[n].r);
    }
  }

  // ----- every command frame becomes one job -----

  /** The frames that the worker has to deal with, in order. */
  function Commands(fs: seq<Frame>): seq<Frame> {
    if fs == [] then [] else IfCommand(fs[0]) + Commands(fs[1..])
  }

  function IfCommand(f: Frame): seq<Frame> {
    if f.kind in {CmdMode, CmdTask, CmdReset, ParamGet, ParamSet} then [f] else []
  }

  /** The frames of the jobs of batch (c, b), in order. */
  function JobFrames(js: seq<Job>, c: nat, b: nat): seq<Frame> {
    if js == [] then []
    else
      var j := js[|js| - 1];
      JobFrames(js[..|js| - 1], c, b) + if j.client == c && j.batch == b then [j.frame] else []
  }

  lemma JobFramesSnoc(js: seq<Job>, j: Job, c: nat, b: nat)
    ensures JobFrames(js + [j], c, b) == JobFrames(js, c, b) + if j.client == c && j.batch == b then [j.frame] else []
  {
    assert (js + [j])[..|js|] == js;
  }

  lemma {:induction false} NoJobFrames(js: seq<Job>, c: nat, b: nat)
    requires forall j :: j in js ==> !(j.client == c && j.batch == b)
    ensures JobFrames(js, c, b) == []
  {
    if js == [] {
    } else {
      NoJobFrames(js[..|js| - 1], c, b);
      assert js[|js| - 1] in js;
    }
  }

  lemma {:induction false} CommandsJoin(a: seq<Frame>, b: seq<Frame>)
    ensures Commands(a + b) == Commands(a) + Commands(b)
  {
    if a == [] {
      assert a + b == b;
    } else {
      assert (a + b)[1..] == a[1..] + b;
      CommandsJoin(a[1..], b);
      var head := IfCommand(a[0]);
      assert head + (Commands(a[1..]) + Commands(b)) == head + Commands(a[1..]) + Commands(b);
    }
  }

  lemma {:induction false} NoCommands(es: seq<Frame>)
    requires forall f :: f in es ==> IsEstop(f)
    ensures Commands(es) == []
  {
    if es == [] {
    } else {
      NoCommands(es[1..]);
      assert es[0] in es && IfCommand(es[0]) == [];
      assert [] + Commands(es[1..]) == Commands(es[1..]);
    }
  }

  lemma {:induction false} CommandsOfOthers(fs: seq<Frame>)
    ensures Commands(Others(fs)) == Commands(fs)
  {
    if fs == [] {
    } else {
      CommandsOfOthers(fs[1..]);
      if IsEstop(fs[0]) {
        assert [] + Others(fs[1..]) == Others(fs[1..]) && IfCommand(fs[0]) == [];
      } else {
        assert ([fs[0]] + Others(fs[1..]))[1..] == Others(fs[1..]);
      }
    }
  }

  /** Handling ESTOPs first does not reorder the commands. */
  lemma CommandsUrgentFirst(fs: seq<Frame>)
    ensures Commands(UrgentFirst(fs)) == Commands(fs)
  {
    ClassesPure(fs);
    NoCommands(Estops(fs));
    CommandsOfOthers(fs);
    CommandsJoin(Estops(fs), Others(fs));
    assert [] + Commands(fs) == Commands(fs);
  }

  /** What batch b of client c has put in the queue so far, and what it still will. */
  ghost predicate BatchKept(s: Sys, c: nat, b: nat)
    requires c in s.clients
  {
    var k := s.clients[c];
    (c, b) in s.batches ==>
      var done, all := JobFrames(s.enqueued, c, b), Commands(s.batches[(c, b)]);
      && (b < k.batch ==> done == all)
      && (b == k.batch && k.open ==> done + Commands(k.todo) == all)
      && (b == k.batch && !k.open ==> done + Commands(k.todo) <= all)
  }

  ghost predicate Numbered(s: Sys) {
    && (forall t :: t in s.batches ==> t.0 in s.clients && t.1 <= s.clients[t.0].batch)
    && (forall j :: j in s.enqueued ==> j.client in s.clients && j.batch <= s.clients[j.client].batch)
    && (forall c :: c in s.clients && s.clients[c].todo != [] ==> (c, s.clients[c].batch) in s.batches)
  }

  ghost predicate KeptInv(s: Sys) {
    Numbered(s) && forall c, b: nat :: c in s.clients ==> BatchKept(s, c, b)
  }

  /** A step that leaves batches and jobs alone, and of each client number and frames to come. */
  lemma KeptFrame(s: Sys, s': Sys)
    requires KeptInv(s) && s'.batches == s.batches && s'.enqueued == s.enqueued && s'.clients.Keys == s.clients.Keys
    requires forall c :: c in s.clients ==>
               && s'.clients[c].batch == s.clients[c].batch && s'.clients[c].todo == s.clients[c].todo
               && (s'.clients[c].open ==> s.clients[c].open)
    ensures KeptInv(s')
  {
    forall c, b: nat | c in s'.clients ensures BatchKept(s', c, b) {
      assert BatchKept(s, c, b);
    }
  }

  lemma KeptAccept(s: Sys, c: nat)
    requires Enabled(s, Accept(c)) && KeptInv(s)
    ensures KeptInv(Apply(s, Accept(c)))
  {
    var s' := Apply(s, Accept(c));
    forall d, b: nat | d in s'.clients ensures BatchKept(s', d, b) {
      if d != c {
        assert BatchKept(s, d, b);
      }
    }
  }

  lemma KeptReceive(s: Sys, c: nat, frames: seq<Frame>)
    requires Enabled(s, Receive(c, frames)) && KeptInv(s)
    ensures KeptInv(DoReceive(s, c, frames))
  {
    var s' := DoReceive(s, c, frames);
    var b' := s.clients[c].batch + 1;
    CommandsUrgentFirst(frames);
    assert (c, b') !in s.batches;
    NoJobFrames(s.enqueued, c, b');
    forall d, b: nat | d in s'.clients ensures BatchKept(s', d, b) {
      ReceivedKeeps(s, s', c, frames, d, b);
    }
  }

  lemma ReceivedKeeps(s: Sys, s': Sys, c: nat, frames: seq<Frame>, d: nat, b: nat)
    requires Enabled(s, Receive(c, frames)) && s' == DoReceive(s, c, frames) && d in s.clients
    requires BatchKept(s, d, b) && Commands(UrgentFirst(frames)) == Commands(frames)
    requires JobFrames(s.enqueued, c, s.clients[c].batch + 1) == []
    ensures BatchKept(s', d, b)
  {
    if d == c && b == s.clients[c].batch + 1 {
      assert [] + Commands(frames) == Commands(frames);
    } else if d == c && b == s.clients[c].batch && (c, b) in s.batches {
      assert JobFrames(s.enqueued, c, b) + [] == JobFrames(s.enqueued, c, b);
    }
  }

  /** The head of client c's frames is gone: as a job if it is a command, and the rest with it if c was closed. */
  ghost predicate Popped(s: Sys, s': Sys, c: nat) {
    && c in s.clients && s.clients[c].todo != []
    && s'.batches == s.batches && c in s'.clients && s'.clients == s.clients[c := s'.clients[c]]
    && (var k, k' := s.clients[c], s'.clients[c];
        k'.batch == k.batch && k'.open == k.open && k'.todo == if k.open then k.todo[1..] else [])
    && (var f := s.clients[c].todo[0];
        s'.enqueued == if f.kind in {CmdMode, CmdTask, CmdReset, ParamGet, ParamSet}
                       then s.enqueued + [Job(c, s.clients[c].batch, f)] else s.enqueued)
  }

  lemma KeptPop(s: Sys, s': Sys, c: nat)
    requires KeptInv(s) && Popped(s, s', c)
    ensures KeptInv(s')
  {
    forall d, b: nat | d in s'.clients ensures BatchKept(s', d, b) {
      assert BatchKept(s, d, b);
      PoppedKeeps(s, s', c, d, b);
    }
  }

  lemma PoppedKeeps(s: Sys, s': Sys, c: nat, d: nat, b: nat)
    requires Popped(s, s', c) && d in s.clients && BatchKept(s, d, b)
    ensures BatchKept(s', d, b)
  {
    var k := s.clients[c];
    PoppedFrames(s, s', c, d, b);
    if d == c && b == k.batch && (c, b) in s.batches {
      PoppedPart(JobFrames(s.enqueued, c, b), IfCommand(k.todo[0]), Commands(k.todo[1..]), Commands(s.batches[(c, b)]),
                 k.open);
    }
  }

  lemma PoppedFrames(s: Sys, s': Sys, c: nat, d: nat, b: nat)
    requires Popped(s, s', c)
    ensures JobFrames(s'.enqueued, d, b) ==
            if d == c && b == s.clients[c].batch then JobFrames(s.enqueued, d, b) + IfCommand(s.clients[c].todo[0])
            else JobFrames(s.enqueued, d, b)
  {
    var f, j := s.clients[c].todo[0], Job(c, s.clients[c].batch, s.clients[c].todo[0]);
    JobFramesSnoc(s.enqueued, j, d, b);
    assert JobFrames(s.enqueued, d, b) + [] == JobFrames(s.enqueued, d, b);
  }

  lemma PoppedPart(done: seq<Frame>, now: seq<Frame>, rest: seq<Frame>, all: seq<Frame>, open: bool)
    requires if open then done + (now + rest) == all else done + (now + rest) <= all
    ensures if open then (done + now) + rest == all else (done + now) + [] <= all
  {
    assert done + (now + rest) == (done + now) + rest;
    assert (done + now) + [] == done + now;
  }

  lemma KeptHandle(s: Sys, c: nat, helloOk: bool)
    requires Enabled(s, Handle(c, helloOk)) && KeptInv(s)
    ensures KeptInv(DoHandle(s, c, helloOk))
  {
    var s' := DoHandle(s, c, helloOk);
    if IsEstop(s.clients[c].todo[0]) {
      HandleEstopFields(s, c, helloOk);
      KeptFrame(s, s');
    } else {
      HandlePops(s, c, helloOk);
      KeptPop(s, s', c);
    }
  }

  lemma HandlePops(s: Sys, c: nat, helloOk: bool)
    requires Enabled(s, Handle(c, helloOk)) && !IsEstop(s.clients[c].todo[0])
    ensures Popped(s, DoHandle(s, c, helloOk), c)
  {
  }

  lemma PublishPops(s: Sys, c: nat)
    requires Enabled(s, PublishEstop(c)) && HeadIsEstop(s)
    ensures Popped(s, DoPublishEstop(s, c), c)
  {
    assert HeadOk(s.clients[c], s.stored);
  }

  lemma KeptClient(s: Sys, step: Step)
    requires Enabled(s, step) && OfClient(step) && KeptInv(s) && HeadIsEstop(s)
    ensures KeptInv(Apply(s, step))
  {
    if step.Accept? {
      KeptAccept(s, step.c);
    } else if step.Receive? {
      KeptReceive(s, step.c, step.frames);
    } else if step.Handle? {
      KeptHandle(s, step.c, step.helloOk);
    } else if step.PublishEstop? {
      PublishPops(s, step.c);
      KeptPop(s, DoPublishEstop(s, step.c), step.c);
    } else {
      SameBatches(s, step);
      OpenShrinks(s, step);
      KeptFrame(s, Apply(s, step));
    }
  }

  lemma OpenShrinks(s: Sys, step: Step)
    requires Enabled(s, step) && (step.StoreSeq? || step.ArmSlot? || step.RecordEstop? || step.Close?)
    ensures forall c :: c in s.clients ==> (Apply(s, step).clients[c].open ==> s.clients[c].open)
  {
  }

  lemma KeptKeeps(s: Sys, step: Step)
    requires Enabled(s, step) && KeptInv(s) && HeadIsEstop(s)
    ensures KeptInv(Apply(s, step))
  {
    if OfClient(step) {
      KeptClient(s, step);
    } else if OfCallback(step) {
      CallbackFrame(s, step);
      KeptFrame(s, Apply(s, step));
    } else {
      WorkerFrame(s, step);
      KeptFrame(s, Apply(s, step));
    }
  }

  lemma KeptNext(ss: seq<Sys>, steps: seq<Step>, k: nat)
    requires IsRun(ss, steps) && k < |steps| && KeptInv(ss[k])
    ensures KeptInv(ss[k + 1])
  {
    RunStep(ss, steps, k);
    KeptKeeps(ss[k], steps[k]);
  }

  lemma {:induction false} KeptRuns(ss: seq<Sys>, steps: seq<Step>, k: nat)
    requires IsRun(ss, steps) && k <= |steps|
    ensures KeptInv(ss[k])
  {
    if k == 0 {
    } else {
      KeptRuns(ss, steps, k - 1);
      KeptNext(ss, steps, k - 1);
    }
  }

  /**
   Every command frame received becomes exactly one job: the jobs of a batch are, in order, its CMD_MODE, CMD_TASK,
   CMD_RESET and PARAM frames; all of them once its client, not closed before, has nothing left to handle,
   and a part from the front if it was closed.
   */
  lemma CommandsBecomeJobs(ss: seq<Sys>, steps: seq<Step>, k: nat, c: nat, b: nat)
    requires IsRun(ss, steps) && k <= |steps| && (c, b) in ss[k].batches
    ensures c in ss[k].clients
    ensures JobFrames(ss[k].enqueued, c, b) <= Commands(ss[k].batches[(c, b)])
    ensures b < ss[k].clients[c].batch || (ss[k].clients[c].todo == [] && !WasClosed(steps, k, c)) ==>
              JobFrames(ss[k].enqueued, c, b) == Commands(ss[k].batches[(c, b)])
  {
    KeptRuns(ss, steps, k);
    FlagsIff(ss, steps, k, c);
    BatchSaid(ss[k], c, b);
  }

  lemma BatchSaid(s: Sys, c: nat, b: nat)
    requires KeptInv(s) && (c, b) in s.batches && c in s.clients
    ensures JobFrames(s.enqueued, c, b) <= Commands(s.batches[(c, b)])
    ensures b < s.clients[c].batch || (s.clients[c].todo == [] && s.clients[c].open) ==>
              JobFrames(s.enqueued, c, b) == Commands(s.batches[(c, b)])
  {
    assert BatchKept(s, c, b);
    assert JobFrames(s.enqueued, c, b) + [] == JobFrames(s.enqueued, c, b);
  }
}
