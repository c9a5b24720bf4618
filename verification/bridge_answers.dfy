/**
 Whose answers the worker's ACKs are: every ACK body is a result with the job's number delivered after its
 entry was made, and, when the robot answers each publication at most once, exactly when it can be
 the answer to somebody else's command. And how far the worker gets by itself.
 */
module BridgeAnswers {
  import opened BatchOrder
  import opened BridgeSteps
  import opened Bridge
  import opened BridgeEstop

  // ----- the entry behind an answer -----

  /** Step j made the entry for this job, when `since` results had been handled. */
  ghost predicate RecordedAt(ss: seq<Sys>, steps: seq<Step>, j: nat, job: Job, since: nat) {
    && j < |steps| && j < |ss| && steps[j].RecordJob?
    && ss[j].worker == Cleared(job) && |ss[j].results| == since
  }

  /** The worker has made an entry for the job in its hand. */
  predicate HasEntry(w: Worker) {
    Waits(w) || (w.Answered? && (w.published || w.ack.FromRobot?))
  }

  lemma EntryOn(s: Sys, step: Step)
    requires Enabled(s, step) && HasEntry(Apply(s, step).worker) && !step.RecordJob?
    ensures HasEntry(s.worker)
    ensures Apply(s, step).worker.job == s.worker.job && Apply(s, step).worker.since == s.worker.since
  {
    if OfClient(step) {
      ClientFrame(s, step);
    } else if OfCallback(step) {
      CallbackFrame(s, step);
    }
  }

  lemma {:induction false} HandRecorded(ss: seq<Sys>, steps: seq<Step>, k: nat) returns (j: nat)
    requires IsRun(ss, steps) && k <= |steps| && HasEntry(ss[k].worker)
    ensures j < k && RecordedAt(ss, steps, j, ss[k].worker.job, ss[k].worker.since)
  {
    if steps[k - 1].RecordJob? {
      j := k - 1;
    } else {
      EntryOn(ss[k - 1], steps[k - 1]);
      j := HandRecorded(ss, steps, k - 1);
    }
  }

  /** The last step settled nothing, or the job in hand. */
  ghost predicate SettlesHand(s: Sys, s': Sys) {
    var os, os' := s.settled, s'.settled;
    || os' == os
    || (&& |os'| == |os| + 1 && os == os'[..|os|]
        && (os'[|os|].Settled? ==>
              && s.worker.Answered? && os'[|os|].job == s.worker.job && os'[|os|].ack == s.worker.ack
              && os'[|os|].since == s.worker.since))
  }

  lemma SettlesNext(ss: seq<Sys>, steps: seq<Step>, k: nat)
    requires IsRun(ss, steps) && k < |steps|
    ensures SettlesHand(ss[k], ss[k + 1])
  {
    if OfClient(steps[k]) {
      ClientFrame(ss[k], steps[k]);
    } else if OfCallback(steps[k]) {
      CallbackFrame(ss[k], steps[k]);
    } else {
      SettlesOfWorker(ss[k], steps[k]);
    }
  }

  lemma SettlesOfWorker(s: Sys, step: Step)
    requires Enabled(s, step) && !OfClient(step) && !OfCallback(step)
    ensures SettlesHand(s, Apply(s, step))
  {
  }

  lemma {:induction false} WhenSettled(ss: seq<Sys>, k: nat, n: nat) returns (m: nat)
    requires k < |ss| && ss[0].settled == []
    requires forall m :: 0 <= m < k ==> SettlesHand(ss[m], ss[m + 1])
    requires n < |ss[k].settled| && ss[k].settled[n].Settled?
    ensures m < k && ss[m].worker.Answered? && ss[m].worker.job == ss[k].settled[n].job
    ensures ss[m].worker.ack == ss[k].settled[n].ack && ss[m].worker.since == ss[k].settled[n].since
  {
    assert SettlesHand(ss[k - 1], ss[k]);
    if n < |ss[k - 1].settled| {
      m := WhenSettled(ss, k - 1, n);
    } else {
      m := k - 1;
    }
  }

  /** An ACK body that came from the robot is that of one of its results, with the job's number, handled
      after the step that made the job's entry. */
  lemma AckProvenance(ss: seq<Sys>, steps: seq<Step>, k: nat, n: nat) returns (j: nat, i: nat)
    requires IsRun(ss, steps) && k <= |steps|
    requires n < |ss[k].settled| && ss[k].settled[n].Settled? && ss[k].settled[n].ack.FromRobot?
    ensures var o := ss[k].settled[n];
            && j < k && RecordedAt(ss, steps, j, o.job, o.since)
            && |ss[j].results| <= i < |ss[k].results|
            && ss[k].results[i] == o.ack.r && o.ack.r.seqNo == o.job.frame.seqNo
  {
    var o := ss[k].settled[n];
    i := ResultBehind(ss, steps, k, n);
    forall m | 0 <= m < k ensures SettlesHand(ss[m], ss[m + 1]) {
      SettlesNext(ss, steps, m);
    }
    var m := WhenSettled(ss, k, n);
    j := HandRecorded(ss, steps, m);
  }

  lemma ResultBehind(ss: seq<Sys>, steps: seq<Step>, k: nat, n: nat) returns (i: nat)
    requires IsRun(ss, steps) && k <= |steps|
    requires n < |ss[k].settled| && ss[k].settled[n].Settled? && ss[k].settled[n].ack.FromRobot?
    ensures ss[k].settled[n].since <= i < |ss[k].results| && ss[k].results[i] == ss[k].settled[n].ack.r
    ensures ss[k].settled[n].ack.r.seqNo == ss[k].settled[n].job.frame.seqNo
  {
    RunKeeps(ss, steps, k);
    var o := ss[k].settled[n];
    assert o in ss[k].settled;
    assert AnswerFromRobot(ss[k].results, o.job, o.ack, o.since);
    i :| o.since <= i < |ss[k].results| && ss[k].results[i] == o.ack.r;
  }

  // ----- a robot that answers each publication at most once -----

  ghost predicate Handled(s: Sys, p: nat) {
    exists i :: 0 <= i < |s.results| && s.results[i].origin == p
  }

  ghost predicate Arrived(s: Sys, p: nat) {
    Handled(s, p) || (!s.callback.Quiet? && s.callback.r.origin == p)
  }

  predicate Echoes(ps: seq<Pub>, r: RobotResult) {
    r.origin < |ps| && ps[r.origin].frame.seqNo == r.seqNo
  }

  /** Each result answers an earlier publication, under its number, and no publication is answered twice. */
  ghost predicate Honest(ss: seq<Sys>, steps: seq<Step>) {
    |steps| <= |ss| &&
    forall k :: 0 <= k < |steps| && steps[k].ResultArrives? ==>
                  Echoes(ss[k].published, steps[k].r) && !Arrived(ss[k], steps[k].r.origin)
  }

  ghost predicate OriginsInv(s: Sys) {
    && (forall i :: 0 <= i < |s.results| ==> Echoes(s.published, s.results[i]))
    && (forall i, j :: 0 <= i < j < |s.results| ==> s.results[i].origin != s.results[j].origin)
    && (!s.callback.Quiet? ==> Echoes(s.published, s.callback.r) && !Handled(s, s.callback.r.origin))
  }

  /** What a step does to results, publications and the callback's result. */
  ghost predicate OriginsMove(s: Sys, s': Sys) {
    && s.published <= s'.published
    && (|| (s'.results == s.results && s'.callback.Quiet? == s.callback.Quiet?
            && (!s.callback.Quiet? ==> s'.callback.r == s.callback.r))
        || (s'.results == s.results && s.callback.Quiet? && !s'.callback.Quiet?
            && Echoes(s.published, s'.callback.r) && !Arrived(s, s'.callback.r.origin))
        || (!s.callback.Quiet? && s'.callback.Quiet? && s'.results == s.results + [s.callback.r]))
  }

  lemma OriginsKeep(s: Sys, s': Sys)
    requires OriginsInv(s) && OriginsMove(s, s')
    ensures OriginsInv(s')
  {
  }

  lemma OriginsOfCallback(s: Sys, step: Step)
    requires Enabled(s, step) && OfCallback(step)
    requires step.ResultArrives? ==> Echoes(s.published, step.r) && !Arrived(s, step.r.origin)
    ensures OriginsMove(s, Apply(s, step))
  {
  }

  lemma OriginsNext(ss: seq<Sys>, steps: seq<Step>, k: nat)
    requires IsRun(ss, steps) && Honest(ss, steps) && k < |steps|
    ensures OriginsMove(ss[k], ss[k + 1])
  {
    PublishedNext(ss, steps, k);
    if OfClient(steps[k]) {
      ClientFrame(ss[k], steps[k]);
    } else if OfCallback(steps[k]) {
      OriginsOfCallback(ss[k], steps[k]);
    } else {
      WorkerFrame(ss[k], steps[k]);
    }
  }

  lemma {:induction false} OriginsRun(ss: seq<Sys>, steps: seq<Step>, k: nat)
    requires IsRun(ss, steps) && Honest(ss, steps) && k <= |steps|
    ensures OriginsInv(ss[k])
  {
    if k == 0 {
    } else {
      OriginsRun(ss, steps, k - 1);
      OriginsNext(ss, steps, k - 1);
      OriginsKeep(ss[k - 1], ss[k]);
    }
  }

  /** From its record step j to state k the worker has held one job. */
  ghost predicate HeldSince(ss: seq<Sys>, steps: seq<Step>, j: nat, k: nat) {
    && j < k < |ss| && j < |steps| && steps[j].RecordJob?
    && forall m :: j < m <= k ==> !ss[m].worker.Idle?
  }

  /** What has come of it by then: results only grew, and the only command published is the job itself. */
  ghost predicate Progress(s: Sys, s': Sys, job: Job) {
    && HasEntry(s'.worker) && s'.worker.job == job && s'.worker.since == |s.results|
    && s.published <= s'.published && s.results <= s'.results
    && (forall p :: |s.published| <= p < |s'.published| && !IsEstop(s'.published[p].frame) ==>
                      s'.published[p] == PubOf(job))
  }

  lemma HoldsOn(s: Sys, step: Step)
    requires Enabled(s, step) && HasEntry(s.worker) && !Apply(s, step).worker.Idle?
    ensures HasEntry(Apply(s, step).worker)
    ensures Apply(s, step).worker.job == s.worker.job && Apply(s, step).worker.since == s.worker.since
  {
    if OfClient(step) {
      ClientFrame(s, step);
    } else if OfCallback(step) {
      CallbackFrame(s, step);
    }
  }

  lemma ResultsNext(ss: seq<Sys>, steps: seq<Step>, k: nat)
    requires IsRun(ss, steps) && k < |steps|
    ensures ss[k].results <= ss[k + 1].results
  {
    if OfClient(steps[k]) {
      ClientFrame(ss[k], steps[k]);
    } else if OfCallback(steps[k]) {
      ResultsGrow(ss[k], steps[k]);
    } else {
      WorkerFrame(ss[k], steps[k]);
    }
  }

  lemma ProgressOn(s: Sys, a: Sys, b: Sys, job: Job)
    requires Progress(s, a, job) && PublishesOne(a, b) && a.results <= b.results
    requires HasEntry(b.worker) && b.worker.job == a.worker.job && b.worker.since == a.worker.since
    ensures Progress(s, b, job)
  {
  }

  lemma {:induction false} HeldProgress(ss: seq<Sys>, steps: seq<Step>, j: nat, k: nat)
    requires IsRun(ss, steps) && HeldSince(ss, steps, j, k)
    ensures ss[j].worker.Cleared? && Progress(ss[j], ss[k], ss[j].worker.job)
  {
    if k == j + 1 {
      RunStep(ss, steps, j);
      JustRecorded(ss[j]);
    } else {
      HeldProgress(ss, steps, j, k - 1);
      ProgressNext(ss, steps, ss[j], ss[j].worker.job, k - 1);
    }
  }

  lemma ProgressNext(ss: seq<Sys>, steps: seq<Step>, s: Sys, job: Job, k: nat)
    requires IsRun(ss, steps) && k < |steps| && Progress(s, ss[k], job) && !ss[k + 1].worker.Idle?
    ensures Progress(s, ss[k + 1], job)
  {
    HoldsNext(ss, steps, k);
    PublishedNext(ss, steps, k);
    ResultsNext(ss, steps, k);
    ProgressOn(s, ss[k], ss[k + 1], job);
  }

  lemma HoldsNext(ss: seq<Sys>, steps: seq<Step>, k: nat)
    requires IsRun(ss, steps) && k < |steps| && HasEntry(ss[k].worker) && !ss[k + 1].worker.Idle?
    ensures HasEntry(ss[k + 1].worker)
    ensures ss[k + 1].worker.job == ss[k].worker.job && ss[k + 1].worker.since == ss[k].worker.since
  {
    RunStep(ss, steps, k);
    HoldsOn(ss[k], steps[k]);
  }

  lemma JustRecorded(s: Sys)
    requires Enabled(s, RecordJob)
    ensures Progress(s, DoRecordJob(s), s.worker.job)
  {
  }

  /** The answer in the worker's hand was not handled when the entry was made. */
  lemma AnswerIsNew(ss: seq<Sys>, steps: seq<Step>, j: nat, k: nat)
    requires IsRun(ss, steps) && Honest(ss, steps) && HeldSince(ss, steps, j, k)
    requires ss[k].worker.Answered? && ss[k].worker.ack.FromRobot?
    ensures var r := ss[k].worker.ack.r;
            && Echoes(ss[k].published, r) && r.seqNo == ss[k].worker.job.frame.seqNo && !Handled(ss[j], r.origin)
  {
    HeldProgress(ss, steps, j, k);
    OriginsRun(ss, steps, k);
    RunKeeps(ss, steps, k);
    var w := ss[k].worker;
    assert AnswerFromRobot(ss[k].results, w.job, w.ack, w.since);
    NewerThan(ss[j].results, ss[k], w.since, w.ack.r);
  }

  lemma NewerThan(before: seq<RobotResult>, s: Sys, since: nat, r: RobotResult)
    requires OriginsInv(s) && before <= s.results && since == |before| && Delivered(s.results, since, r.seqNo, r)
    ensures Echoes(s.published, r) && forall i :: 0 <= i < |before| ==> before[i].origin != r.origin
  {
    var i :| since <= i < |s.results| && s.results[i] == r;
    forall h | 0 <= h < |before| ensures before[h].origin != r.origin {
      assert before[h] == s.results[h];
    }
  }

  /**
   When the robot answers each publication at most once, an ACK is the answer to the job's own publication
   provided that every earlier publication of the same number had been answered, and the answer handled, when
   the job's entry was made, and that no ESTOP of that number went out since.
   */
  lemma OwnAnswer(ss: seq<Sys>, steps: seq<Step>, j: nat, k: nat)
    requires IsRun(ss, steps) && Honest(ss, steps) && HeldSince(ss, steps, j, k)
    requires ss[k].worker.Answered? && ss[k].worker.ack.FromRobot?
    requires !Unanswered(ss[j], ss[k].worker.job.frame.seqNo)
    requires forall p :: |ss[j].published| <= p < |ss[k].published| && IsEstop(ss[k].published[p].frame) ==>
               ss[k].published[p].frame.seqNo != ss[k].worker.job.frame.seqNo
    ensures var r := ss[k].worker.ack.r;
            && |ss[j].published| <= r.origin < |ss[k].published|
            && ss[k].published[r.origin] == PubOf(ss[k].worker.job)
  {
    HeldProgress(ss, steps, j, k);
    AnswerIsNew(ss, steps, j, k);
  }

  // ----- exactly when a foreign answer is possible -----

  /** An earlier publication of this number whose answer has not been handled. */
  ghost predicate Unanswered(s: Sys, n: nat) {
    exists p :: 0 <= p < |s.published| && s.published[p].frame.seqNo == n && !Handled(s, p)
  }

  /** The run ends with the job recorded at step j answered by the answer to an earlier publication. */
  ghost predicate Foreign(ss: seq<Sys>, steps: seq<Step>, j: nat) {
    && IsRun(ss, steps) && Honest(ss, steps) && HeldSince(ss, steps, j, |steps|)
    && ss[|steps|].worker.Answered? && ss[|steps|].worker.ack.FromRobot?
    && ss[|steps|].worker.ack.r.origin < |ss[j].published|
  }

  ghost predicate Continues(ss: seq<Sys>, steps: seq<Step>, ss': seq<Sys>, steps': seq<Step>) {
    ss <= ss' && steps <= steps'
  }

  ghost predicate CanBeForeign(ss: seq<Sys>, steps: seq<Step>) {
    exists ss', steps' :: Continues(ss, steps, ss', steps') && Foreign(ss', steps', |steps|)
  }

  /** About to make its entry, with no ESTOP and no result under way. */
  predicate Calm(s: Sys) {
    s.worker.Cleared? && s.callback.Quiet? && !s.estopRaised && !s.asyncValid
  }

  /** One more step of an honest run. */
  lemma Extend(ss: seq<Sys>, steps: seq<Step>, step: Step) returns (ss': seq<Sys>, steps': seq<Step>)
    requires IsRun(ss, steps) && Honest(ss, steps) && Enabled(ss[|steps|], step)
    requires step.ResultArrives? ==>
               Echoes(ss[|steps|].published, step.r) && !Arrived(ss[|steps|], step.r.origin)
    ensures IsRun(ss', steps') && Honest(ss', steps') && Continues(ss, steps, ss', steps')
    ensures steps' == steps + [step] && ss' == ss + [Apply(ss[|steps|], step)]
  {
    ss', steps' := ss + [Apply(ss[|steps|], step)], steps + [step];
  }

  /** The entry is made, and a late answer completes it. */
  lemma TakesLateAnswer(ss: seq<Sys>, steps: seq<Step>, r: RobotResult)
    returns (ss': seq<Sys>, steps': seq<Step>)
    requires IsRun(ss, steps) && Honest(ss, steps) && Calm(ss[|steps|])
    requires Echoes(ss[|steps|].published, r) && !Handled(ss[|steps|], r.origin)
    requires r.seqNo == ss[|steps|].worker.job.frame.seqNo
    ensures IsRun(ss', steps') && Honest(ss', steps') && Continues(ss, steps, ss', steps')
    ensures |steps'| == |steps| + 3 && HeldSince(ss', steps', |steps|, |steps'|)
    ensures var s, job := ss[|steps|], ss[|steps|].worker.job;
            ss'[|steps'|] == s.(worker := Recorded(job, |s.results|), results := s.results + [r],
                                pending := s.pending[r.seqNo := Entry(true, r, |s.results|)])
  {
    var ss1, steps1 := Extend(ss, steps, RecordJob);
    var ss2, steps2 := Extend(ss1, steps1, ResultArrives(r));
    ss', steps' := Extend(ss2, steps2, DeliverResult);
  }

  /** The job goes out, and its completed entry is found at the first look. */
  lemma FindsAnswer(ss: seq<Sys>, steps: seq<Step>, j: nat, r: RobotResult)
    returns (ss': seq<Sys>, steps': seq<Step>)
    requires IsRun(ss, steps) && Honest(ss, steps) && HeldSince(ss, steps, j, |steps|)
    requires ss[|steps|].worker.Recorded? && !ss[|steps|].estopRaised
    requires r.seqNo == ss[|steps|].worker.job.frame.seqNo
    requires r.seqNo in ss[|steps|].pending && ss[|steps|].pending[r.seqNo].done && ss[|steps|].pending[r.seqNo].r == r
    ensures IsRun(ss', steps') && Honest(ss', steps') && Continues(ss, steps, ss', steps')
    ensures |steps'| == |steps| + 3 && HeldSince(ss', steps', j, |steps'|)
    ensures var s, job := ss[|steps|], ss[|steps|].worker.job;
            ss'[|steps'|] == s.(worker := Answered(job, FromRobot(r), s.worker.since, true),
                                pending := s.pending - {r.seqNo}, published := s.published + [PubOf(job)])
  {
    var ss1, steps1 := Extend(ss, steps, Publish);
    var ss2, steps2 := Extend(ss1, steps1, LoadFlag);
    ss', steps' := Extend(ss2, steps2, Poll);
  }

  /** From a calm state with an unanswered publication p of the job's number: record, take the late answer,
      publish, look. */
  lemma ForeignRun(ss: seq<Sys>, steps: seq<Step>, p: nat, body: string)
    returns (ss': seq<Sys>, steps': seq<Step>)
    requires IsRun(ss, steps) && Honest(ss, steps) && Calm(ss[|steps|])
    requires p < |ss[|steps|].published| && !Handled(ss[|steps|], p)
    requires ss[|steps|].published[p].frame.seqNo == ss[|steps|].worker.job.frame.seqNo
    ensures Continues(ss, steps, ss', steps') && Foreign(ss', steps', |steps|)
    ensures var s, job := ss[|steps|], ss[|steps|].worker.job;
            var s', r := ss'[|steps'|], RobotResult(job.frame.seqNo, body, p);
            && s'.worker == Answered(job, FromRobot(r), |s.results|, true)
            && s'.published == s.published + [PubOf(job)] && s'.settled == s.settled && s'.clients == s.clients
  {
    var r := RobotResult(ss[|steps|].worker.job.frame.seqNo, body, p);
    var ss1, steps1 := TakesLateAnswer(ss, steps, r);
    ss', steps' := FindsAnswer(ss1, steps1, |steps|, r);
    assert ss'[|steps|] == ss[|steps|];
  }

  /** In a calm state just before a job's entry is made, its ACK can become the answer to an earlier
      publication exactly when one of its number is still unanswered. */
  lemma ForeignAnswerIff(ss: seq<Sys>, steps: seq<Step>)
    requires IsRun(ss, steps) && Honest(ss, steps) && Calm(ss[|steps|])
    ensures CanBeForeign(ss, steps) <==> Unanswered(ss[|steps|], ss[|steps|].worker.job.frame.seqNo)
  {
    var s := ss[|steps|];
    if Unanswered(s, s.worker.job.frame.seqNo) {
      var p :| 0 <= p < |s.published| && s.published[p].frame.seqNo == s.worker.job.frame.seqNo && !Handled(s, p);
      var ss', steps' := ForeignRun(ss, steps, p, "");
    }
    if CanBeForeign(ss, steps) {
      var ss', steps' :| Continues(ss, steps, ss', steps') && Foreign(ss', steps', |steps|);
      assert ss'[|steps|] == s;
      HeldProgress(ss', steps', |steps|, |steps'|);
      AnswerIsNew(ss', steps', |steps|, |steps'|);
    }
  }
}
