/**
 Safety of the robot over whole runs: every finite sequence of callbacks, in any order the
 lifecycle allows.
 */
module RobotRuns {
  import opened GridMaps
  import opened RobotState
  import opened RobotInvariant
  import opened RobotSteps
  import Corridor
  import LineOfSight

  /** States and callbacks of a node from its construction on. */
  ghost predicate IsRun(ss: seq<Robot>, es: seq<Event>) {
    && |ss| == |es| + 1 && ss[0] == Fresh()
    && forall i :: 0 <= i < |es| ==> Enabled(ss[i], es[i]) && ss[i + 1] == Apply(ss[i], es[i])
  }

  ghost predicate IsTrace(ss: seq<Robot>, es: seq<Event>) {
    && |ss| == |es| + 1 && ss[0] == Fresh()
    && forall i :: 0 <= i < |es| ==> Follows(ss[i], es[i], ss[i + 1])
  }

  lemma {:induction false} RunKeeps(ss: seq<Robot>, es: seq<Event>, k: nat)
    requires IsRun(ss, es) && k <= |es|
    ensures Inv(ss[k])
  {
    if k == 0 {
    } else {
      RunKeeps(ss, es, k - 1);
      StepKeeps(ss[k - 1], es[k - 1]);
    }
  }

  /** Every reachable state of a configured node. */
  lemma ReachableStates(ss: seq<Robot>, es: seq<Event>, k: nat)
    requires IsRun(ss, es) && k <= |es| && ss[k].configured
    ensures var r := ss[k];
            && (r.controlEnabled <==> r.phase == Idle && r.consoleOnline)
            && (r.phase == Running ==>
                  && !r.estop && !HasError(r) && r.consoleOnline && r.taskType == Goto && r.taskId != ""
                  && r.navIdx < |r.navPath| && r.navPath[|r.navPath| - 1] == r.goal
                  && r.taskStatus in {Accepted, Executing})
            && (r.phase == Idle ==> !HasError(r) && !HasWarn(r))
            && (r.phase == Fault ==> HasError(r))
            && (r.phase == Degraded ==> HasWarn(r) && !HasError(r))
            && (r.phase == Estop ==> r.estop) && (r.estop ==> r.phase in {Estop, Initializing})
  {
    RunKeeps(ss, es, k);
  }

  /** A goto in any run starts RUNNING exactly under these conditions, all readable before the call. */
  lemma GotoInRuns(ss: seq<Robot>, es: seq<Event>, k: nat)
    requires IsRun(ss, es) && k < |es| && es[k].Cmd? && es[k].c.GotoCmd?
    ensures var r, p := ss[k], GotoPoint(ss[k], es[k].c);
            Starts(r, es[k].c, ss[k + 1]) <==>
              && r.controlEnabled
              && 0.0 <= r.pose.x < 20.0 && -5.0 <= r.pose.y < 5.0
              && 0.0 <= p.x < 20.0 && -5.0 <= p.y < 5.0
              && !RepeatsDone(r, GotoId(r, es[k].c))
  {
    var r, c := ss[k], es[k].c;
    RunKeeps(ss, es, k);
    GotoAdmission(r, c, es[k].plan);
    Corridor.OnMapRange(1, r.pose);
    Corridor.OnMapRange(1, GotoPoint(r, c));
  }

  lemma RunIsTrace(ss: seq<Robot>, es: seq<Event>)
    requires IsRun(ss, es)
    ensures IsTrace(ss, es)
  {
    forall i | 0 <= i < |es| ensures Follows(ss[i], es[i], ss[i + 1]) {
      RunKeeps(ss, es, i);
      StepFollows(ss[i], es[i]);
    }
  }

  // ----- the ESTOP latch -----

  predicate Unlatches(r: Robot, e: Event) {
    e.Configure? || (e.Cmd? && Resets(r, e.c))
  }

  /** Whole runs: the latch set by an ESTOP falls exactly at the first later reconfigure or unblocked
      confirmed RESET (unless a further ESTOP follows). */
  lemma EstopLatch(ss: seq<Robot>, es: seq<Event>, i: nat, j: nat)
    requires IsRun(ss, es) && i < j <= |es|
    requires es[i].Cmd? && es[i].c.EstopCmd?
    requires forall k :: i < k < j ==> !Unlatches(ss[k], es[k])
    ensures ss[j].estop
    ensures j < |es| && Unlatches(ss[j], es[j]) ==> !ss[j + 1].estop
  {
    RunIsTrace(ss, es);
    LatchHolds(ss, es, i, j);
  }

  lemma {:induction false} LatchHolds(ss: seq<Robot>, es: seq<Event>, i: nat, j: nat)
    requires IsTrace(ss, es) && i < j <= |es|
    requires es[i].Cmd? && es[i].c.EstopCmd?
    requires forall k :: i < k < j ==> !Unlatches(ss[k], es[k])
    ensures ss[j].estop
    ensures j < |es| && Unlatches(ss[j], es[j]) ==> !ss[j + 1].estop
  {
    assert Follows(ss[j - 1], es[j - 1], ss[j]);
    if j < |es| {
      assert Follows(ss[j], es[j], ss[j + 1]);
    }
    if j == i + 1 {
    } else {
      LatchHolds(ss, es, i, j - 1);
    }
  }

  // ----- halted robots stay where they are -----

  /** A new goto was accepted, or the node was configured anew. */
  predicate Releases(r: Robot, e: Event, s: Robot) {
    e.Configure? || (e.Cmd? && Starts(r, e.c, s))
  }

  lemma {:induction false} HaltedStays(ss: seq<Robot>, es: seq<Event>, i: nat, j: nat)
    requires IsTrace(ss, es) && i <= j <= |es|
    requires Halted(ss[i])
    requires forall k :: i <= k < j ==> !Releases(ss[k], es[k], ss[k + 1])
    ensures Halted(ss[j]) && ss[j].pose == ss[i].pose
  {
    if j == i {
    } else {
      HaltedStays(ss, es, i, j - 1);
      assert Follows(ss[j - 1], es[j - 1], ss[j]);
    }
  }

  /** Whole runs: from an ESTOP on, through RESET and everything else, the pose is frozen until a
      later goto is accepted (or the node is configured anew). */
  lemma EstopFreezesPose(ss: seq<Robot>, es: seq<Event>, i: nat, j: nat)
    requires IsRun(ss, es) && i < j <= |es|
    requires es[i].Cmd? && es[i].c.EstopCmd?
    requires forall k :: i < k < j ==> !Releases(ss[k], es[k], ss[k + 1])
    ensures ss[j].pose == ss[i].pose && ss[j].phase != Running
  {
    RunIsTrace(ss, es);
    assert Follows(ss[i], es[i], ss[i + 1]);
    HaltedStays(ss, es, i + 1, j);
  }

  /** The link is found lost: an offline message, or a tick that sees the last one too old. */
  predicate LosesLink(r: Robot, e: Event) {
    (e.Console? && !e.online) || (e.Tick? && LinkLost(r, e.t))
  }

  /** Whole runs: a link loss while RUNNING freezes the pose, through any reconnection, until a new
      goto is accepted. */
  lemma LinkLossFreezesPose(ss: seq<Robot>, es: seq<Event>, i: nat, j: nat)
    requires IsRun(ss, es) && i < j <= |es|
    requires ss[i].phase == Running && LosesLink(ss[i], es[i])
    requires forall k :: i < k < j ==> !Releases(ss[k], es[k], ss[k + 1])
    ensures ss[j].pose == ss[i].pose && ss[j].phase != Running
  {
    RunIsTrace(ss, es);
    assert Follows(ss[i], es[i], ss[i + 1]);
    HaltedStays(ss, es, i + 1, j);
  }

  // ----- motion needs a fresh link -----

  /** The last console message before step k was an online one, sent at time `at`. */
  predicate LastConsoleAt(es: seq<Event>, k: nat, j: nat, at: nat)
    requires k <= |es|
  {
    && j < k && es[j] == Console(true, at)
    && forall i :: j < i < k ==> !es[i].Console?
  }

  lemma {:induction false} OnlineHistory(ss: seq<Robot>, es: seq<Event>, k: nat) returns (j: nat)
    requires IsTrace(ss, es) && k <= |es|
    requires ss[k].consoleOnline
    ensures LastConsoleAt(es, k, j, ss[k].lastConsoleMs) && 0 < ss[k].lastConsoleMs < CLOCK_END
  {
    assert Follows(ss[k - 1], es[k - 1], ss[k]);
    j := k - 1;
    if !es[k - 1].Console? {
      j := OnlineHistory(ss, es, k - 1);
    }
  }

  /** Whole runs: a tick that moves the robot runs while the last console message said online and is
      at most 3000 ms old. */
  lemma MotionNeedsFreshLink(ss: seq<Robot>, es: seq<Event>, k: nat) returns (j: nat, at: nat)
    requires IsRun(ss, es) && k < |es|
    requires es[k].Tick? && ss[k + 1].pose != ss[k].pose
    ensures LastConsoleAt(es, k, j, at)
    ensures 0 <= es[k].t.nowMs - at <= STALE_MS
  {
    RunIsTrace(ss, es);
    assert Follows(ss[k], es[k], ss[k + 1]);
    at := ss[k].lastConsoleMs;
    j := OnlineHistory(ss, es, k);
    SmallRemainder(es[k].t.nowMs - at);
  }

  lemma SmallRemainder(d: int)
    requires -CLOCK_END < d < CLOCK_END && d % U64 <= STALE_MS
    ensures 0 <= d <= STALE_MS
  {
    if d < 0 {
      DivideOnce(d);
    }
  }

  lemma DivideOnce(d: int)
    requires -CLOCK_END < d < 0
    ensures d % U64 == d + U64
  {
  }

  // ----- where the robot can be -----

  ghost predicate AcceptedGoal(ss: seq<Robot>, es: seq<Event>, k: nat, g: Point)
    requires |ss| > |es| >= k
  {
    exists j :: 0 <= j < k && es[j].Cmd? && Starts(ss[j], es[j].c, ss[j + 1]) && GotoPoint(ss[j], es[j].c) == g
  }

  ghost predicate NearAcceptedGoal(ss: seq<Robot>, es: seq<Event>, k: nat, p: Point)
    requires |ss| > |es| >= k
  {
    exists g :: AcceptedGoal(ss, es, k, g) && LineOfSight.SqDist(p, g) < 0.55 * 0.55
  }

  lemma AcceptedLater(ss: seq<Robot>, es: seq<Event>, k: nat, g: Point)
    requires |ss| > |es| > k && AcceptedGoal(ss, es, k, g)
    ensures AcceptedGoal(ss, es, k + 1, g)
  {
  }

  lemma {:induction false} GoalWasAccepted(ss: seq<Robot>, es: seq<Event>, k: nat)
    requires IsTrace(ss, es) && k <= |es|
    requires ss[k].navPath != []
    ensures AcceptedGoal(ss, es, k, ss[k].goal)
  {
    var r, e := ss[k - 1], es[k - 1];
    assert Follows(r, e, ss[k]);
    if !(e.Cmd? && Starts(r, e.c, ss[k])) {
      GoalWasAccepted(ss, es, k - 1);
      AcceptedLater(ss, es, k - 1, r.goal);
    }
  }

  ghost predicate SafePlace(ss: seq<Robot>, es: seq<Event>, k: nat)
    requires |ss| > |es| >= k
  {
    LineOfSight.IsFree(Corridor.NavMap(0), ss[k].pose) || NearAcceptedGoal(ss, es, k, ss[k].pose)
  }

  lemma SamePlace(ss: seq<Robot>, es: seq<Event>, k: nat)
    requires |ss| > |es| > k && SafePlace(ss, es, k) && ss[k + 1].pose == ss[k].pose
    ensures SafePlace(ss, es, k + 1)
  {
    if NearAcceptedGoal(ss, es, k, ss[k].pose) {
      var g :| AcceptedGoal(ss, es, k, g) && LineOfSight.SqDist(ss[k].pose, g) < 0.55 * 0.55;
      AcceptedLater(ss, es, k, g);
    }
  }

  lemma {:induction false} SafePlaces(ss: seq<Robot>, es: seq<Event>, k: nat)
    requires IsTrace(ss, es) && k <= |es| && ss[k].configured
    ensures SafePlace(ss, es, k)
  {
    var r, e, s := ss[k - 1], es[k - 1], ss[k];
    assert Follows(r, e, s);
    if e.Configure? {
      StartIsFree();
    } else {
      SafePlaces(ss, es, k - 1);
      if s.pose == r.pose {
        SamePlace(ss, es, k - 1);
      } else if !LineOfSight.IsFree(Corridor.NavMap(0), s.pose) {
        GoalWasAccepted(ss, es, k - 1);
        AcceptedLater(ss, es, k - 1, r.goal);
      }
    }
  }

  /** Whole runs: a configured robot stands on a cell free in the raw corridor, or within 0.55 m of a
      goal it accepted. */
  lemma WhereTheRobotIs(ss: seq<Robot>, es: seq<Event>, k: nat)
    requires IsRun(ss, es) && k <= |es| && ss[k].configured
    ensures SafePlace(ss, es, k)
  {
    RunIsTrace(ss, es);
    SafePlaces(ss, es, k);
  }
}
