/** Concrete runs of the robot node, callback by callback. */
module RobotScenarios {
  import opened GridMaps
  import opened Wrappers
  import opened RobotState
  import opened RobotInvariant
  import opened RobotSteps
  import opened RobotRuns
  import opened RobotSweep
  import Corridor
  import LineOfSight
  import Planner

  ghost predicate Reaches(r: Robot) {
    exists ss, es :: IsRun(ss, es) && ss[|es|] == r
  }

  lemma Next(r: Robot, e: Event)
    requires Reaches(r) && Enabled(r, e)
    ensures Reaches(Apply(r, e))
  {
    var ss, es :| IsRun(ss, es) && ss[|es|] == r;
    RunOn(ss, es, r, e, Apply(r, e));
  }

  lemma RunOn(ss: seq<Robot>, es: seq<Event>, r: Robot, e: Event, r': Robot)
    requires IsRun(ss, es) && ss[|es|] == r && Enabled(r, e) && r' == Apply(r, e)
    ensures IsRun(ss + [r'], es + [e]) && (ss + [r'])[|es + [e]|] == r'
  {
    ChainOn((p, f, q) => Enabled(p, f) && q == Apply(p, f), ss, es, e, r');
  }

  /** A chain of related states extended by one link. */
  lemma ChainOn(ok: (Robot, Event, Robot) -> bool, ss: seq<Robot>, es: seq<Event>, e: Event, r': Robot)
    requires |ss| == |es| + 1 && forall i :: 0 <= i < |es| ==> ok(ss[i], es[i], ss[i + 1])
    requires ok(ss[|es|], e, r')
    ensures var ss', es' := ss + [r'], es + [e];
            forall i :: 0 <= i < |es'| ==> ok(ss'[i], es'[i], ss'[i + 1])
  {
  }

  lemma ReachedKeeps(r: Robot)
    requires Reaches(r)
    ensures Inv(r)
  {
    var ss, es :| IsRun(ss, es) && ss[|es|] == r;
    RunKeeps(ss, es, |es|);
  }

  /** Up, undisturbed, with the console online. */
  predicate Healthy(r: Robot) {
    r.configured && r.active && r.consoleOnline && !r.estop && r.faults == [] && r.robotNode == Ok
  }

  /** Configured, activated and told that the console is online. */
  lemma Started() returns (r: Robot)
    ensures Reaches(r) && Healthy(r) && r.phase == Initializing && r.idleAt == 1.5 && r.lastTick == 1.0
    ensures r.lastConsoleMs == 7
    ensures r.battery == 100.0 && r.pose == Point(1.25, 0.0) && r.taskId == ""
  {
    assert IsRun([Fresh()], []);
    var r1 := Apply(Fresh(), Configure);
    Next(Fresh(), Configure);
    var r2 := Apply(r1, Activate(1.0));
    Next(r1, Activate(1.0));
    r := Apply(r2, Console(true, 7));
    Next(r2, Console(true, 7));
  }

  lemma FirstTick(r: Robot, t: TickInput)
    requires Healthy(r) && r.phase == Initializing && r.idleAt == 1.5 && r.lastTick == 1.0 && r.battery == 100.0
    requires r.lastConsoleMs == 7 && t == TickInput(2.0, 1007, 1.0, 0.0, 0.0, 0.0, 0, [], 0)
    ensures TickInputOk(r, t)
    ensures var s := OnTick(r, t);
            && Healthy(s) && s.phase == Idle && s.controlEnabled && s.pose == r.pose && s.taskId == r.taskId
            && s.lastTick == 2.0
  {
    var k := CheckLink(r.(lastTick := t.now), t.nowMs);
    assert (t.nowMs - r.lastConsoleMs) % U64 == 1000;
    assert k == r.(lastTick := t.now);
    assert Refresh(r, t) == Recompute(k.(phase := Idle));
  }

  /** The first tick has brought the robot to IDLE, with control. */
  lemma Ready() returns (r: Robot)
    ensures Reaches(r) && Inv(r) && Healthy(r) && r.phase == Idle && r.controlEnabled
    ensures r.pose == Point(1.25, 0.0) && r.taskId == "" && r.lastTick == 2.0
  {
    var r1 := Started();
    var t := TickInput(2.0, 1007, 1.0, 0.0, 0.0, 0.0, 0, [], 0);
    FirstTick(r1, t);
    r := Apply(r1, Tick(t));
    Next(r1, Tick(t));
    ReachedKeeps(r);
  }

  // ----- the goto on the edge -----

  /** A run in which a ready robot in IDLE is sent to x = 20 and ends up in FAULT. */
  lemma EdgeGotoRun() returns (ready: Robot)
    ensures Reaches(ready) && ready.phase == Idle && ready.controlEnabled
    ensures var c := GotoCmd("", Some(20.0), None);
            && Enabled(ready, Cmd(c, [])) && Reaches(OnCmd(ready, c, [])) && OnCmd(ready, c, []).phase == Fault
  {
    ready := Ready();
    var c := GotoCmd("", Some(20.0), None);
    Corridor.OnMapRange(1, GotoPoint(ready, c));
    assert PlanOk(ready, c, []);
    EdgeGotoFaults(ready, c, []);
    Next(ready, Cmd(c, []));
  }

  // ----- a task driven twice -----

  function GoTo(id: string, p: Point): Command {
    GotoCmd(id, Some(p.x), Some(p.y))
  }

  /** An accepted goto, with some plan of the planner's. */
  lemma Launches(r: Robot, id: string, goal: Point) returns (plan: seq<Point>)
    requires Reaches(r) && r.configured && r.controlEnabled && id != "" && !RepeatsDone(r, id)
    requires Corridor.NavMap(1).OnMap(r.pose) && Corridor.NavMap(1).OnMap(goal)
    ensures plan != [] && Enabled(r, Cmd(GoTo(id, goal), plan)) && CmdReply(r, GoTo(id, goal), plan) == Accept(id)
    ensures var s := OnCmd(r, GoTo(id, goal), plan); Reaches(s) && s == StartTask(r, id, goal, plan)
  {
    var c := GoTo(id, goal);
    ReachedKeeps(r);
    ControlMeansUnblocked(r);
    Corridor.OnMapRange(1, goal);
    Corridor.CorridorPlannable(1, r.pose, goal);
    plan := Planner.PlanExists(Corridor.NavMap(1), r.pose, goal);
    GotoStarts(r, c, plan);
    Next(r, Cmd(c, plan));
  }

  lemma GotoStarts(r: Robot, c: Command, plan: seq<Point>)
    requires c.GotoCmd? && c.id != "" && AsksPlanner(r, c) && plan != []
    ensures OnCmd(r, c, plan) == StartTask(r, c.id, GotoPoint(r, c), plan)
    ensures CmdReply(r, c, plan) == Accept(c.id)
  {
  }

  lemma Pauses(r: Robot) returns (s: Robot)
    requires Reaches(r) && Healthy(r) && r.phase == Running
    ensures Reaches(s) && Healthy(s) && s.phase == Idle && s.controlEnabled && s.pose == r.pose
    ensures s.taskId == r.taskId && s.taskStatus == Accepted
  {
    s := Apply(r, Cmd(PauseCmd(""), []));
    Next(r, Cmd(PauseCmd(""), []));
  }

  /**
   Section 7, rule 3 of docs/PROTOCOL.md, fails: task T-1 is accepted, paused, and accepted under the same id
   a second time as a new start.
   */
  lemma SameTaskTwice() returns (first: Robot, second: Robot, plan: seq<Point>)
    ensures Reaches(first) && first.phase == Running && first.taskId == "T-1"
    ensures Reaches(second) && second.phase == Idle && second.taskId == "T-1"
    ensures var c := GoTo("T-1", Point(4.25, -4.0));
            && Enabled(second, Cmd(c, plan)) && CmdReply(second, c, plan) == Accept("T-1")
            && OnCmd(second, c, plan).phase == Running && OnCmd(second, c, plan).navIdx == 0
  {
    var r := Ready();
    var goal := Point(4.25, -4.0);
    Corridor.OnMapRange(1, r.pose);
    Corridor.OnMapRange(1, goal);
    var plan1 := Launches(r, "T-1", goal);
    first := OnCmd(r, GoTo("T-1", goal), plan1);
    second := Pauses(first);
    plan := Launches(second, "T-1", goal);
  }

  // ----- a long tick -----

  const LONG_TICK := 125.0 / 7.0

  lemma BehindBlock()
    ensures LineOfSight.IsFree(Corridor.NavMap(1), Point(4.25, -4.0))
    ensures !LineOfSight.IsFree(Corridor.NavMap(0), LineOfSight.Lerp(Point(1.25, 0.0), Point(4.25, -4.0), 0.6875))
  {
    assert WorldToCell(Point(4.25, -4.0)) == Cell(8, 2);
    Corridor.NavMapFree(Cell(8, 2));
    var mid := LineOfSight.Lerp(Point(1.25, 0.0), Point(4.25, -4.0), 0.6875);
    assert mid == Point(3.3125, -2.75);
    assert WorldToCell(mid) == Cell(6, 4);
    Corridor.RawFree(Cell(6, 4));
  }

  /** A run whose last tick, 17.9 s after the one before, takes the robot straight through the wall block on
      the inflated map: nothing bounds the time between two ticks, and the guard sees the far end only. */
  lemma LongTickRun() returns (r: Robot, t: TickInput)
    ensures Reaches(r) && Enabled(r, Tick(t)) && r.navMap == Corridor.NavMap(1) && Dt(r, t) == LONG_TICK
    ensures Reaches(OnTick(r, t)) && OnTick(r, t).pose == MidPose(r, t) == Point(4.25, -4.0)
    ensures !LineOfSight.IsFree(Corridor.NavMap(0), LineOfSight.Lerp(r.pose, MidPose(r, t), 0.6875))
  {
    var ready := Ready();
    var goal := Point(4.25, -4.0);
    Corridor.OnMapRange(1, ready.pose);
    Corridor.OnMapRange(1, goal);
    var plan := Launches(ready, "T-1", goal);
    var running := OnCmd(ready, GoTo("T-1", goal), plan);
    r := StillOnline(running, 18007);
    t := TickInput(2.0 + LONG_TICK, 18864, 0.6, -0.8, 0.28, 0.0, |plan| - 1, [], 0);
    ReachedKeeps(r);
    BehindBlock();
    FreelyDrives(r, t, goal);
    MotionGuard(r, t);
    Next(r, Tick(t));
  }

  /** The console says once more that it is online. */
  lemma StillOnline(r: Robot, nowMs: nat) returns (s: Robot)
    requires Reaches(r) && Healthy(r) && r.phase == Running && 0 < nowMs < CLOCK_END
    ensures Reaches(s) && s == r.(lastConsoleMs := nowMs, bridgeNode := Ok)
  {
    ReachedKeeps(r);
    s := Apply(r, Console(true, nowMs));
    Next(r, Console(true, nowMs));
  }
}
