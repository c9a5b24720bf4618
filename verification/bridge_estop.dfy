/**
 ESTOP across the bridge's runs: which commands still reach the robot, which results become asynchronous
 ACKs, and when the raised flag and the asynchronous slot agree.
 */
module BridgeEstop {
  import opened BatchOrder
  import opened BridgeSteps
  import opened Bridge

  // ----- which commands reach the robot -----

  /** The worker holds `job` as outcome number n: past its check when it was admitted, else answered. */
  ghost predicate InFate(s: Sys, n: nat, job: Job, admitted: bool) {
    && |s.settled| == n && !s.worker.Idle? && !s.worker.Taken? && s.worker.job == job
    && (if s.worker.Answered? then s.worker.published == admitted else admitted)
  }

  ghost predicate MetFate(s: Sys, n: nat, job: Job, admitted: bool) {
    |s.settled| > n && s.settled[n].Settled? && s.settled[n].job == job && s.settled[n].published == admitted
  }

  lemma FateStep(s: Sys, step: Step, n: nat, job: Job, admitted: bool)
    requires Enabled(s, step) && (InFate(s, n, job, admitted) || MetFate(s, n, job, admitted))
    ensures InFate(Apply(s, step), n, job, admitted) || MetFate(Apply(s, step), n, job, admitted)
  {
    if OfClient(step) {
      ClientFrame(s, step);
    } else if OfCallback(step) {
      CallbackFrame(s, step);
    } else if MetFate(s, n, job, admitted) {
      SettledGrows(s, step);
    } else {
      FateOfWorker(s, step, n, job, admitted);
    }
  }

  lemma SettledGrows(s: Sys, step: Step)
    requires Enabled(s, step) && !OfClient(step) && !OfCallback(step)
    ensures s.settled <= Apply(s, step).settled
  {
  }

  lemma FateOfWorker(s: Sys, step: Step, n: nat, job: Job, admitted: bool)
    requires Enabled(s, step) && !OfClient(step) && !OfCallback(step) && InFate(s, n, job, admitted)
    ensures InFate(Apply(s, step), n, job, admitted) || MetFate(Apply(s, step), n, job, admitted)
  {
  }

  lemma {:induction false} FateRuns(ss: seq<Sys>, steps: seq<Step>, k: nat, m: nat, n: nat, job: Job, admitted: bool)
    requires IsRun(ss, steps) && k <= m <= |steps|
    requires InFate(ss[k], n, job, admitted)
    ensures InFate(ss[m], n, job, admitted) || MetFate(ss[m], n, job, admitted)
  {
    if m == k {
    } else {
      FateRuns(ss, steps, k, m - 1, n, job, admitted);
      FateStep(ss[m - 1], steps[m - 1], n, job, admitted);
    }
  }

  /** What the check at step k sees decides whether the job is let through. */
  predicate Admits(s: Sys, step: Step)
    requires step.Check? && Enabled(s, step)
  {
    && s.clients[s.worker.job.client].hello && step.recent
    && !(Guarded(s.worker.job.frame) && step.snapEstop)
  }

  /** A job is published exactly when its check admits it; nothing that happens to `estop_raised_` or the slot before,
      at or after the check has a say. */
  lemma SettledIffAdmits(ss: seq<Sys>, steps: seq<Step>, k: nat, m: nat)
    requires IsRun(ss, steps) && k < m <= |steps| && steps[k].Check?
    requires |ss[m].settled| > |ss[k].settled|
    ensures var n, job := |ss[k].settled|, ss[k].worker.job;
            && ss[m].settled[n].Settled? && ss[m].settled[n].job == job
            && (ss[m].settled[n].published <==> Admits(ss[k], steps[k]))
  {
    var n, job := |ss[k].settled|, ss[k].worker.job;
    assert ss[k + 1] == Apply(ss[k], steps[k]);
    FateRuns(ss, steps, k + 1, m, n, job, Admits(ss[k], steps[k]));
  }

  /** The worker's hand holds a job that its check let through. */
  predicate LetThrough(w: Worker) {
    w.Cleared? || w.Recorded? || HasPublished(w)
  }

  lemma {:induction false} HandWasChecked(ss: seq<Sys>, steps: seq<Step>, k: nat) returns (j: nat)
    requires IsRun(ss, steps) && k <= |steps| && LetThrough(ss[k].worker)
    ensures j < k && steps[j].Check? && ss[j].worker.Taken? && ss[j].worker.job == ss[k].worker.job
    ensures Enabled(ss[j], steps[j]) && Admits(ss[j], steps[j])
  {
    var s, step := ss[k - 1], steps[k - 1];
    if step.Check? {
      j := k - 1;
    } else {
      HandOn(s, step);
      j := HandWasChecked(ss, steps, k - 1);
    }
  }

  lemma HandOn(s: Sys, step: Step)
    requires Enabled(s, step) && !step.Check? && LetThrough(Apply(s, step).worker)
    ensures LetThrough(s.worker) && Apply(s, step).worker.job == s.worker.job
  {
    if OfClient(step) {
      ClientFrame(s, step);
    } else if OfCallback(step) {
      CallbackFrame(s, step);
    }
  }

  /** One publication at most: an ESTOP's, or that of the job recorded in the worker's hand. */
  ghost predicate PublishesOne(s: Sys, s': Sys) {
    var ps, ps' := s.published, s'.published;
    || ps' == ps
    || (&& |ps'| == |ps| + 1 && ps == ps'[..|ps|]
        && (IsEstop(ps'[|ps|].frame) || (s.worker.Recorded? && ps'[|ps|] == PubOf(s.worker.job))))
  }

  lemma PublishedNext(ss: seq<Sys>, steps: seq<Step>, k: nat)
    requires IsRun(ss, steps) && k < |steps|
    ensures PublishesOne(ss[k], ss[k + 1])
  {
    RunStep(ss, steps, k);
    PublishedGrows(ss[k], steps[k]);
  }

  lemma {:induction false} WhenPublished(ss: seq<Sys>, k: nat, i: nat) returns (m: nat)
    requires k < |ss| && ss[0].published == []
    requires forall m :: 0 <= m < k ==> PublishesOne(ss[m], ss[m + 1])
    requires i < |ss[k].published| && !IsEstop(ss[k].published[i].frame)
    ensures m < k && ss[m].worker.Recorded? && PubOf(ss[m].worker.job) == ss[k].published[i]
  {
    assert PublishesOne(ss[k - 1], ss[k]);
    if i < |ss[k - 1].published| {
      m := WhenPublished(ss, k - 1, i);
    } else {
      m := k - 1;
    }
  }

  /** Every command the worker ever published had passed its check earlier in the run. */
  lemma PublishedAdmitted(ss: seq<Sys>, steps: seq<Step>, k: nat, i: nat) returns (j: nat)
    requires IsRun(ss, steps) && k <= |steps|
    requires i < |ss[k].published| && !IsEstop(ss[k].published[i].frame)
    ensures j < k && steps[j].Check? && ss[j].worker.Taken? && PubOf(ss[j].worker.job) == ss[k].published[i]
    ensures Enabled(ss[j], steps[j]) && Admits(ss[j], steps[j])
  {
    forall m | 0 <= m < k ensures PublishesOne(ss[m], ss[m + 1]) {
      PublishedNext(ss, steps, m);
    }
    var m := WhenPublished(ss, k, i);
    j := HandWasChecked(ss, steps, m);
  }

  lemma PublishedGrows(s: Sys, step: Step)
    requires Enabled(s, step) && HeadIsEstop(s)
    ensures var ps, ps' := s.published, Apply(s, step).published;
            || ps' == ps
            || (step.PublishEstop? && |ps'| == |ps| + 1 && ps == ps'[..|ps|] && IsEstop(ps'[|ps|].frame))
            || (step.Publish? && |ps'| == |ps| + 1 && ps == ps'[..|ps|] && ps'[|ps|] == PubOf(s.worker.job))
  {
    if step.Handle? {
      HandleFrame(s, step.c, step.helloOk);
    } else if step.PublishEstop? {
      assert HeadOk(s.clients[step.c], s.stored);
    }
  }

  // ----- what the raised flag does -----

  /** From outcome n0 on the robot answered nothing, nor is it about to. */
  ghost predicate NoneFromRobot(s: Sys, n0: nat) {
    && (forall o :: o in s.settled[if n0 < |s.settled| then n0 else |s.settled|..] && o.Settled? ==> !o.ack.FromRobot?)
    && (|s.settled| >= n0 ==> !s.worker.Looking? && !(s.worker.Answered? && s.worker.ack.FromRobot?))
  }

  lemma NoneFromRobotStep(s: Sys, step: Step, n0: nat)
    requires Enabled(s, step) && s.estopRaised && NoneFromRobot(s, n0)
    ensures NoneFromRobot(Apply(s, step), n0)
  {
    if OfClient(step) {
      ClientFrame(s, step);
    } else if OfCallback(step) {
      CallbackFrame(s, step);
    } else if step.Dequeue? || step.SendAck? {
      SettlesOne(s, step, n0);
    } else {
      SettlesNothing(s, step);
    }
  }

  lemma SettlesNothing(s: Sys, step: Step)
    requires Enabled(s, step) && !OfClient(step) && !OfCallback(step) && !step.Dequeue? && !step.SendAck?
    ensures var s' := Apply(s, step);
            && s'.settled == s.settled
            && (s.estopRaised && !s.worker.Looking? ==>
                  !s'.worker.Looking? && !(s'.worker.Answered? && s'.worker.ack.FromRobot?))
  {
  }

  lemma SettlesOne(s: Sys, step: Step, n0: nat)
    requires Enabled(s, step) && (step.Dequeue? || step.SendAck?) && NoneFromRobot(s, n0)
    ensures NoneFromRobot(Apply(s, step), n0)
  {
    var s' := Apply(s, step);
    var m := if n0 < |s.settled| then n0 else |s.settled|;
    forall o | o in s'.settled[if n0 < |s'.settled| then n0 else |s'.settled|..] && o.Settled?
      ensures !o.ack.FromRobot?
    {
      if o !in s.settled[m..] {
        assert step.SendAck? && o.ack == s.worker.ack;
      }
    }
  }

  lemma {:induction false} NoneFromRobotRuns(ss: seq<Sys>, steps: seq<Step>, i: nat, k: nat, n0: nat)
    requires IsRun(ss, steps) && i <= k <= |steps|
    requires NoneFromRobot(ss[i], n0) && forall m :: i <= m < k ==> ss[m].estopRaised
    ensures NoneFromRobot(ss[k], n0)
  {
    if k == i {
    } else {
      NoneFromRobotRuns(ss, steps, i, k - 1, n0);
      NoneFromRobotNext(ss, steps, k - 1, n0);
    }
  }

  lemma NoneFromRobotNext(ss: seq<Sys>, steps: seq<Step>, k: nat, n0: nat)
    requires IsRun(ss, steps) && k < |steps| && ss[k].estopRaised && NoneFromRobot(ss[k], n0)
    ensures NoneFromRobot(ss[k + 1], n0)
  {
    RunStep(ss, steps, k);
    NoneFromRobotStep(ss[k], steps[k], n0);
  }

  /** While the flag stays up the robot answers no command taken from the queue meanwhile, nor the one in
      the worker's hand unless the worker has already looked past the flag. */
  lemma FlagBarsRobotAnswers(ss: seq<Sys>, steps: seq<Step>, i: nat, k: nat, n: nat)
    requires IsRun(ss, steps) && i <= k <= |steps| && n < |ss[k].settled|
    requires forall m :: i <= m < k ==> ss[m].estopRaised
    requires || n > |ss[i].settled|
             || (n == |ss[i].settled| && !ss[i].worker.Looking? && !ss[i].worker.Answered?)
    ensures ss[k].settled[n].Settled? ==> ss[k].settled[n].ack.Rejected?
  {
    NoneFromRobotRuns(ss, steps, i, k, n);
    assert ss[k].settled[n] in ss[k].settled[n..];
  }

  // ----- the asynchronous slot -----

  predicate Completing(cb: Callback) {
    cb.Matched? || cb.FlagLowered? || cb.SlotFreed?
  }

  /** The slot is armed and not about to be freed by a completion under way. */
  predicate SlotOpen(s: Sys) {
    s.asyncValid && !s.callback.Matched? && !s.callback.FlagLowered?
  }

  ghost predicate SlotInv(s: Sys) {
    && |s.broadcasts| + (if Completing(s.callback) then 1 else 0) + (if SlotOpen(s) then 1 else 0) <= |s.armed|
    && (s.callback.SawSlot? || s.callback.Matched? || s.callback.FlagLowered? ==> s.asyncValid)
    && (s.asyncValid ==> s.stored != [])
    && (s.stored != [] ==> s.asyncSeq == s.stored[|s.stored| - 1])
  }

  lemma SlotKeeps(s: Sys, step: Step)
    requires Enabled(s, step) && SlotInv(s) && HeadIsEstop(s)
    ensures SlotInv(Apply(s, step))
  {
    if OfClient(step) {
      ClientFrame(s, step);
      SlotOfClient(s, step);
    } else if OfCallback(step) {
      SlotOfCallback(s, step);
    } else {
      WorkerFrame(s, step);
    }
  }

  lemma SlotOfClient(s: Sys, step: Step)
    requires Enabled(s, step) && OfClient(step) && SlotInv(s) && HeadIsEstop(s)
    ensures SlotInv(Apply(s, step))
  {
    if step.ArmSlot? {
      assert HeadOk(s.clients[step.c], s.stored);
    } else if step.Handle? {
      HandleFrame(s, step.c, step.helloOk);
    }
  }

  lemma SlotOfCallback(s: Sys, step: Step)
    requires Enabled(s, step) && OfCallback(step) && SlotInv(s)
    ensures SlotInv(Apply(s, step))
  {
  }

  lemma {:induction false} SlotRuns(ss: seq<Sys>, steps: seq<Step>, k: nat)
    requires IsRun(ss, steps) && k <= |steps|
    ensures SlotInv(ss[k])
  {
    if k == 0 {
    } else {
      SlotRuns(ss, steps, k - 1);
      SlotNext(ss, steps, k - 1);
    }
  }

  lemma SlotNext(ss: seq<Sys>, steps: seq<Step>, k: nat)
    requires IsRun(ss, steps) && k < |steps| && SlotInv(ss[k])
    ensures SlotInv(ss[k + 1])
  {
    RunStep(ss, steps, k);
    SlotKeeps(ss[k], steps[k]);
  }

  lemma RunStep(ss: seq<Sys>, steps: seq<Step>, k: nat)
    requires IsRun(ss, steps) && k < |steps|
    ensures Enabled(ss[k], steps[k]) && ss[k + 1] == Apply(ss[k], steps[k]) && HeadIsEstop(ss[k])
  {
    RunKeeps(ss, steps, k);
  }

  /** Asynchronous ACKs never outnumber the ESTOPs that armed the slot, in any interleaving. */
  lemma AsyncAcksBounded(ss: seq<Sys>, steps: seq<Step>, k: nat)
    requires IsRun(ss, steps) && k <= |steps|
    ensures |ss[k].broadcasts| <= |ss[k].armed|
  {
    SlotRuns(ss, steps, k);
  }

  // ----- which results become asynchronous ACKs -----

  /** Between the comparison at state k0 and the end of that callback. */
  ghost predicate CallbackFate(s: Sys, r: RobotResult, matched: bool, before: seq<Broadcast>) {
    && s.broadcasts == before
    && (if matched then Completing(s.callback) else s.callback.Unmatched?) && s.callback.r == r
  }

  ghost predicate CallbackDone(s: Sys, r: RobotResult, matched: bool, before: seq<Broadcast>) {
    && s.callback.Quiet?
    && if matched then |s.broadcasts| == |before| + 1 && before == s.broadcasts[..|before|] &&
                       s.broadcasts[|before|].result == r
       else s.broadcasts == before
  }

  lemma CallbackStep(s: Sys, step: Step, r: RobotResult, matched: bool, before: seq<Broadcast>)
    requires Enabled(s, step) && CallbackFate(s, r, matched, before)
    ensures CallbackFate(Apply(s, step), r, matched, before) || CallbackDone(Apply(s, step), r, matched, before)
  {
    if OfClient(step) {
      ClientFrame(s, step);
    } else if !OfCallback(step) {
      WorkerFrame(s, step);
    }
  }

  lemma {:induction false} CallbackRuns(ss: seq<Sys>, steps: seq<Step>, k: nat, m: nat, r: RobotResult,
                                        matched: bool, before: seq<Broadcast>)
    requires IsRun(ss, steps) && k <= m <= |steps| && CallbackFate(ss[k], r, matched, before)
    requires forall i :: k <= i < m ==> !ss[i].callback.Quiet?
    ensures CallbackFate(ss[m], r, matched, before) || CallbackDone(ss[m], r, matched, before)
  {
    if m == k {
    } else {
      CallbackRuns(ss, steps, k, m - 1, r, matched, before);
      CallbackStep(ss[m - 1], steps[m - 1], r, matched, before);
    }
  }

  /** A result whose number is compared at step k ends, when its callback returns at m, as exactly one
      asynchronous ACK if that number is the one last stored in the slot, and as none otherwise. Only
      numbers are compared: whose command it answers is not asked. */
  lemma AsyncAckExactly(ss: seq<Sys>, steps: seq<Step>, k: nat, m: nat)
    requires IsRun(ss, steps) && k < m <= |steps| && steps[k].CompareSeq?
    requires ss[m].callback.Quiet? && forall i :: k < i < m ==> !ss[i].callback.Quiet?
    ensures ss[k].stored != []
    ensures CallbackDone(ss[m], ss[k].callback.r, ss[k].callback.r.seqNo == ss[k].stored[|ss[k].stored| - 1],
                         ss[k].broadcasts)
  {
    var r := ss[k].callback.r;
    SlotRuns(ss, steps, k);
    assert ss[k + 1] == Apply(ss[k], steps[k]);
    CallbackRuns(ss, steps, k + 1, m, r, ss[k].asyncSeq == r.seqNo, ss[k].broadcasts);
  }

  /** The asynchronous ACKs numbered n. */
  function AcksFor(bs: seq<Broadcast>, n: nat): seq<Broadcast> {
    if bs == [] then []
    else AcksFor(bs[..|bs| - 1], n) + if bs[|bs| - 1].result.seqNo == n then [bs[|bs| - 1]] else []
  }

  lemma AcksSnoc(bs: seq<Broadcast>, b: Broadcast, n: nat)
    ensures AcksFor(bs + [b], n) == AcksFor(bs, n) + if b.result.seqNo == n then [b] else []
  {
    assert (bs + [b])[..|bs|] == bs;
  }

  predicate Stores(s: Sys, step: Step, n: nat) {
    step.StoreSeq? && AtStage(s, step.c, FlagRaised) && s.clients[step.c].todo[0].seqNo == n
  }

  predicate CompletesFor(s: Sys, n: nat) {
    Completing(s.callback) && s.callback.r.seqNo == n
  }

  lemma OvertakenStep(s: Sys, step: Step, n: nat)
    requires Enabled(s, step) && !CompletesFor(s, n) && !Stores(s, step, n)
    requires s.asyncSeq != n || step.StoreSeq?
    ensures var s' := Apply(s, step);
            s'.asyncSeq != n && !CompletesFor(s', n) && AcksFor(s'.broadcasts, n) == AcksFor(s.broadcasts, n)
  {
    if OfClient(step) {
      ClientFrame(s, step);
      SlotNumber(s, step);
    } else if OfCallback(step) {
      OvertakenCallback(s, step, n);
    } else {
      WorkerFrame(s, step);
    }
  }

  lemma OvertakenCallback(s: Sys, step: Step, n: nat)
    requires Enabled(s, step) && OfCallback(step) && !CompletesFor(s, n) && s.asyncSeq != n
    ensures var s' := Apply(s, step);
            s'.asyncSeq != n && !CompletesFor(s', n) && AcksFor(s'.broadcasts, n) == AcksFor(s.broadcasts, n)
  {
    if step.SendAsync? {
      OvertakenSend(s, n);
    } else {
      NoBroadcast(s, step);
      OvertakenMoves(s, step, n);
    }
  }

  lemma OvertakenSend(s: Sys, n: nat)
    requires Enabled(s, SendAsync) && !CompletesFor(s, n)
    ensures var s' := DoSendAsync(s);
            s'.asyncSeq == s.asyncSeq && !CompletesFor(s', n) && AcksFor(s'.broadcasts, n) == AcksFor(s.broadcasts, n)
  {
    AcksSnoc(s.broadcasts, Broadcast(s.callback.r, Listeners(s)), n);
    assert AcksFor(s.broadcasts, n) + [] == AcksFor(s.broadcasts, n);
  }

  lemma OvertakenMoves(s: Sys, step: Step, n: nat)
    requires Enabled(s, step) && OfCallback(step) && !step.SendAsync? && !CompletesFor(s, n) && s.asyncSeq != n
    ensures Apply(s, step).asyncSeq == s.asyncSeq && !CompletesFor(Apply(s, step), n)
  {
  }

  lemma NoBroadcast(s: Sys, step: Step)
    requires Enabled(s, step) && OfCallback(step) && !step.SendAsync?
    ensures Apply(s, step).broadcasts == s.broadcasts
  {
  }

  lemma SlotNumber(s: Sys, step: Step)
    requires Enabled(s, step) && OfClient(step)
    ensures Apply(s, step).asyncSeq == if step.StoreSeq? then s.clients[step.c].todo[0].seqNo else s.asyncSeq
  {
    if step.Handle? {
      HandleFrame(s, step.c, step.helloOk);
    }
  }

  /** An ESTOP overtaken by another, with a different number and before a result has matched it, gets no
      asynchronous ACK until its number is stored again: not from any result that arrives. */
  lemma {:induction false} OvertakenGetsNone(ss: seq<Sys>, steps: seq<Step>, j: nat, k: nat, n: nat)
    requires IsRun(ss, steps) && j < k <= |steps|
    requires steps[j].StoreSeq? && !CompletesFor(ss[j], n)
    requires forall i :: j <= i < k ==> !Stores(ss[i], steps[i], n)
    ensures ss[k].asyncSeq != n && !CompletesFor(ss[k], n)
    ensures AcksFor(ss[k].broadcasts, n) == AcksFor(ss[j].broadcasts, n)
  {
    if k == j + 1 {
    } else {
      OvertakenGetsNone(ss, steps, j, k - 1, n);
    }
    OvertakenStep(ss[k - 1], steps[k - 1], n);
  }

  // ----- when flag and slot agree -----

  predicate RaisingStage(stage: EstopStage) {
    stage == FlagRaised || stage == SeqStored
  }

  /** Some thread has raised the flag for its ESTOP and not armed the slot yet. */
  ghost predicate Raising(s: Sys) {
    exists c :: c in s.clients && RaisingStage(s.clients[c].stage)
  }

  ghost predicate OtherRaising(s: Sys, c: nat) {
    exists d :: d in s.clients && d != c && RaisingStage(s.clients[d].stage)
  }

  /** The flag says that the slot is armed, or is about to be; while a completion has lowered the flag
      and not freed the slot, only the second part counts. */
  ghost predicate Agrees(s: Sys) {
    s.estopRaised <==> (s.asyncValid && !s.callback.FlagLowered?) || Raising(s)
  }

  /** A completion lowers the flag that another ESTOP has just raised, or frees the slot that another
      ESTOP has just armed. */
  ghost predicate Breaks(s: Sys, step: Step) {
    || (step.LowerFlag? && Raising(s))
    || (step.ArmSlot? && s.callback.FlagLowered? && !OtherRaising(s, step.c))
  }

  lemma RaisingOne(s: Sys, s': Sys, c: nat)
    requires c in s'.clients && s'.clients == s.clients[c := s'.clients[c]]
    ensures Raising(s') <==> RaisingStage(s'.clients[c].stage) || OtherRaising(s, c)
    ensures c in s.clients ==> (Raising(s) <==> RaisingStage(s.clients[c].stage) || OtherRaising(s, c))
    ensures c !in s.clients ==> (Raising(s) <==> OtherRaising(s, c))
  {
    if OtherRaising(s, c) {
      var d :| d in s.clients && d != c && RaisingStage(s.clients[d].stage);
      assert s'.clients[d] == s.clients[d];
    }
    if Raising(s') {
      var d :| d in s'.clients && RaisingStage(s'.clients[d].stage);
    }
  }

  /** How one client's stage moves. */
  ghost predicate StageMoves(s: Sys, step: Step, s': Sys)
    requires OfClient(step) && Enabled(s, step)
  {
    var c := step.c;
    && c in s'.clients && s'.clients == s.clients[c := s'.clients[c]]
    && var now := RaisingStage(s'.clients[c].stage);
       if step.Accept? then !now
       else
         var was := RaisingStage(s.clients[c].stage);
         if step.Handle? then !was && (now <==> IsEstop(s.clients[c].todo[0]))
         else if step.ArmSlot? then was && !now
         else was == now
  }

  lemma OneClientMoves(s: Sys, step: Step)
    requires Enabled(s, step) && OfClient(step) && HeadIsEstop(s)
    ensures StageMoves(s, step, Apply(s, step))
  {
    if step.Receive? {
      assert HeadOk(s.clients[step.c], s.stored);
    } else if step.Handle? {
      HandleMoves(s, step);
    }
  }

  lemma HandleMoves(s: Sys, step: Step)
    requires Enabled(s, step) && step.Handle?
    ensures StageMoves(s, step, DoHandle(s, step.c, step.helloOk))
  {
  }

  lemma FlagsOfClient(s: Sys, step: Step)
    requires Enabled(s, step) && OfClient(step)
    ensures var s' := Apply(s, step);
            && s'.callback == s.callback
            && s'.estopRaised == (s.estopRaised || (step.Handle? && IsEstop(s.clients[step.c].todo[0])))
            && s'.asyncValid == (s.asyncValid || step.ArmSlot?)
  {
  }

  lemma AgreesOfClient(s: Sys, step: Step)
    requires Enabled(s, step) && OfClient(step) && Agrees(s) && HeadIsEstop(s)
    ensures Agrees(Apply(s, step)) <==> !Breaks(s, step)
  {
    OneClientMoves(s, step);
    RaisingOne(s, Apply(s, step), step.c);
    FlagsOfClient(s, step);
  }

  lemma AgreesOfCallback(s: Sys, step: Step)
    requires Enabled(s, step) && OfCallback(step) && Agrees(s) && SlotInv(s)
    ensures Agrees(Apply(s, step)) <==> !Breaks(s, step)
  {
    CallbackFrame(s, step);
    assert Raising(Apply(s, step)) == Raising(s);
  }

  lemma AgreesStep(s: Sys, step: Step)
    requires Enabled(s, step) && Agrees(s) && SlotInv(s) && HeadIsEstop(s)
    ensures Agrees(Apply(s, step)) <==> !Breaks(s, step)
  {
    if OfClient(step) {
      AgreesOfClient(s, step);
    } else if OfCallback(step) {
      AgreesOfCallback(s, step);
    } else {
      WorkerFrame(s, step);
      assert Raising(Apply(s, step)) == Raising(s);
    }
  }

  /** The flag agrees with the slot throughout a run exactly when no completion collides with the raising
      of another ESTOP; the condition is read off each state before its step. */
  lemma {:induction false} FlagMatchesSlotIff(ss: seq<Sys>, steps: seq<Step>, k: nat)
    requires IsRun(ss, steps) && k <= |steps|
    ensures (forall i :: 0 <= i <= k ==> Agrees(ss[i])) <==> (forall i :: 0 <= i < k ==> !Breaks(ss[i], steps[i]))
  {
    if k == 0 {
    } else {
      FlagMatchesSlotIff(ss, steps, k - 1);
      if Agrees(ss[k - 1]) {
        AgreesNext(ss, steps, k - 1);
      }
      if forall i :: 0 <= i < k ==> !Breaks(ss[i], steps[i]) {
        assert Agrees(ss[k - 1]);
      }
    }
  }

  lemma AgreesNext(ss: seq<Sys>, steps: seq<Step>, k: nat)
    requires IsRun(ss, steps) && k < |steps| && Agrees(ss[k])
    ensures Agrees(ss[k + 1]) <==> !Breaks(ss[k], steps[k])
  {
    SlotRuns(ss, steps, k);
    RunStep(ss, steps, k);
    AgreesStep(ss[k], steps[k]);
  }

  /** So without such a collision `estop_raised_` is the slot's validity whenever neither an ESTOP nor a
      completion is half done. */
  lemma AsyncSlot(ss: seq<Sys>, steps: seq<Step>, k: nat)
    requires IsRun(ss, steps) && k <= |steps|
    requires forall i :: 0 <= i < k ==> !Breaks(ss[i], steps[i])
    requires !Raising(ss[k]) && !ss[k].callback.FlagLowered?
    ensures ss[k].estopRaised == ss[k].asyncValid
  {
    FlagMatchesSlotIff(ss, steps, k);
  }

  // ----- a flag that stays up -----

  /** The flag is up, no slot is armed, and no thread is about to arm one. */
  ghost predicate Orphaned(s: Sys) {
    s.estopRaised && !s.asyncValid && !Raising(s)
  }

  predicate RaisesFlag(s: Sys, step: Step) {
    step.Handle? && AtStage(s, step.c, NotStarted) && IsEstop(s.clients[step.c].todo[0])
  }

  lemma OrphanedStep(s: Sys, step: Step)
    requires Enabled(s, step) && Orphaned(s) && SlotInv(s) && HeadIsEstop(s) && !RaisesFlag(s, step)
    ensures Orphaned(Apply(s, step))
  {
    if OfClient(step) {
      OneClientMoves(s, step);
      RaisingOne(s, Apply(s, step), step.c);
      FlagsOfClient(s, step);
    } else if OfCallback(step) {
      CallbackFrame(s, step);
      assert Raising(Apply(s, step)) == Raising(s);
    } else {
      WorkerFrame(s, step);
      assert Raising(Apply(s, step)) == Raising(s);
    }
  }

  /** An orphaned flag stays up until another ESTOP arrives, whatever results come in. */
  lemma {:induction false} OrphanedFlagStays(ss: seq<Sys>, steps: seq<Step>, i: nat, k: nat)
    requires IsRun(ss, steps) && i <= k <= |steps| && Orphaned(ss[i])
    requires forall m :: i <= m < k ==> !RaisesFlag(ss[m], steps[m])
    ensures Orphaned(ss[k])
  {
    if k == i {
    } else {
      OrphanedFlagStays(ss, steps, i, k - 1);
      OrphanedNext(ss, steps, k - 1);
    }
  }

  lemma OrphanedNext(ss: seq<Sys>, steps: seq<Step>, k: nat)
    requires IsRun(ss, steps) && k < |steps| && Orphaned(ss[k]) && !RaisesFlag(ss[k], steps[k])
    ensures Orphaned(ss[k + 1])
  {
    SlotRuns(ss, steps, k);
    RunStep(ss, steps, k);
    OrphanedStep(ss[k], steps[k]);
  }

  /** So every command taken from the queue before that ESTOP is refused or timed out by the bridge, as is
      the one in hand unless the worker has already looked past the flag. */
  lemma OrphanedFlagRefusesAll(ss: seq<Sys>, steps: seq<Step>, i: nat, k: nat, n: nat)
    requires IsRun(ss, steps) && i <= k <= |steps| && Orphaned(ss[i])
    requires forall m :: i <= m < k ==> !RaisesFlag(ss[m], steps[m])
    requires |ss[i].settled| <= n < |ss[k].settled|
    requires n == |ss[i].settled| ==> !ss[i].worker.Looking? && !ss[i].worker.Answered?
    ensures ss[k].settled[n].Settled? ==> ss[k].settled[n].ack.Rejected?
  {
    forall m | i <= m < k ensures ss[m].estopRaised {
      OrphanedFlagStays(ss, steps, i, m);
    }
    FlagBarsRobotAnswers(ss, steps, i, k, n);
  }

  /** In every run through s, until the next ESTOP raises the flag, the robot answers no command settled
      after s. */
  ghost predicate RefusesAllFrom(s: Sys) {
    forall ss: seq<Sys>, steps: seq<Step>, i: nat, k: nat, n: nat ::
      && IsRun(ss, steps) && i <= k <= |steps| && ss[i] == s
      && (forall m :: i <= m < k ==> !RaisesFlag(ss[m], steps[m]))
      && |s.settled| <= n < |ss[k].settled| && ss[k].settled[n].Settled?
      ==> ss[k].settled[n].ack.Rejected?
  }

  lemma OrphanedIdleRefusesAll(s: Sys)
    requires Orphaned(s) && s.worker.Idle?
    ensures RefusesAllFrom(s)
  {
    forall ss: seq<Sys>, steps: seq<Step>, i: nat, k: nat, n: nat |
      && IsRun(ss, steps) && i <= k <= |steps| && ss[i] == s
      && (forall m :: i <= m < k ==> !RaisesFlag(ss[m], steps[m]))
      && |s.settled| <= n < |ss[k].settled| && ss[k].settled[n].Settled?
      ensures ss[k].settled[n].ack.Rejected?
    {
      OrphanedFlagRefusesAll(ss, steps, i, k, n);
    }
  }
}
