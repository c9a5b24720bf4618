/**
 What one callback can and cannot change: the facts about single steps on which the whole-run
 theorems rest.
 */
module RobotSteps {
  import opened GridMaps
  import opened RobotState
  import opened RobotInvariant
  import Corridor
  import LineOfSight
  import Pursuit

  // ----- kinds of step -----

  /** A confirmed RESET that no ERROR source blocks. */
  predicate Resets(r: Robot, c: Command) {
    c.ResetCmd? && c.confirmed && !HasBlocking(r.faults)
  }

  /** A goto that was accepted: s is the state after it. */
  predicate Starts(r: Robot, c: Command, s: Robot) {
    c.GotoCmd? && r.phase != Running && s.phase == Running
  }

  /** Not running, and nothing that `resume` could pick up. */
  predicate Halted(r: Robot) {
    r.phase != Running && (r.estop || r.taskType != Goto)
  }

  // ----- frames -----

  lemma RecomputeFrame(r: Robot)
    ensures var s := Recompute(r);
            && s.estop == r.estop && s.pose == r.pose && s.taskType == r.taskType && s.taskId == r.taskId
            && s.goal == r.goal && s.navPath == r.navPath && s.navMap == r.navMap
            && s.consoleOnline == r.consoleOnline && s.lastConsoleMs == r.lastConsoleMs
            && (s.phase == Running ==> r.phase == Running)
  {
  }

  /** A link check changes nothing but these. */
  lemma CheckLinkShape(r: Robot, nowMs: nat)
    ensures var s := CheckLink(r, nowMs);
            s == r.(consoleOnline := r.consoleOnline && !Stale(r, nowMs), bridgeNode := s.bridgeNode, phase := s.phase,
                    controlEnabled := s.controlEnabled, robotNode := s.robotNode, taskStatus := s.taskStatus,
                    taskType := s.taskType)
  {
  }

  lemma EndInitShape(r: Robot, k: Robot, now: real)
    requires k == r.(consoleOnline := k.consoleOnline, bridgeNode := k.bridgeNode, phase := k.phase,
                     controlEnabled := k.controlEnabled, robotNode := k.robotNode, taskStatus := k.taskStatus,
                     taskType := k.taskType)
    ensures var s := Recompute(k.(phase := if k.phase == Initializing && now >= k.idleAt then Idle else k.phase));
            s == r.(consoleOnline := k.consoleOnline, bridgeNode := k.bridgeNode, phase := s.phase,
                    controlEnabled := s.controlEnabled, robotNode := s.robotNode, taskStatus := s.taskStatus,
                    taskType := k.taskType)
  {
  }

  lemma RefreshFrame(r: Robot, t: TickInput)
    ensures var s := Refresh(r, t);
            && s.estop == r.estop && s.pose == r.pose && s.goal == r.goal && s.navPath == r.navPath
            && s.navMap == r.navMap && s.lastConsoleMs == r.lastConsoleMs
            && (s.consoleOnline <==> r.consoleOnline && !Stale(r, t.nowMs))
  {
    var r' := r.(lastTick := t.now);
    CheckLinkShape(r', t.nowMs);
    EndInitShape(r', CheckLink(r', t.nowMs), t.now);
  }

  /** A tick's link check never starts or resumes motion, and halts a running robot whose link is stale. */
  lemma RefreshHalts(r: Robot, t: TickInput)
    ensures var s := Refresh(r, t);
            && (s.phase == Running ==> r.phase == Running && s.taskType == r.taskType)
            && (r.taskType != Goto ==> s.taskType != Goto)
            && (Stale(r, t.nowMs) && r.phase == Running ==> s.phase != Running && s.taskType != Goto)
  {
    var r' := r.(lastTick := t.now);
    var k := CheckLink(r', t.nowMs);
    CheckLinkHalts(r', t.nowMs);
    EndInitShape(r', k, t.now);
    RecomputeStops(k.(phase := if k.phase == Initializing && t.now >= k.idleAt then Idle else k.phase));
  }

  lemma CheckLinkHalts(r: Robot, nowMs: nat)
    ensures var k := CheckLink(r, nowMs);
            && k == r.(consoleOnline := k.consoleOnline, bridgeNode := k.bridgeNode, phase := k.phase,
                       controlEnabled := k.controlEnabled, robotNode := k.robotNode, taskStatus := k.taskStatus,
                       taskType := k.taskType)
            && (k.phase == Running ==> r.phase == Running && k.taskType == r.taskType)
            && (r.taskType != Goto ==> k.taskType != Goto)
            && (Stale(r, nowMs) && r.phase == Running ==> k.phase != Running && k.taskType != Goto)
  {
    CheckLinkShape(r, nowMs);
  }

  lemma RecomputeStops(r: Robot)
    ensures Recompute(r).phase == Running ==> r.phase == Running
  {
  }

  lemma DriveFrame(r: Robot, t: TickInput, dt: real)
    requires r.navPath != []
    ensures var s := Drive(r, t, dt);
            && s.estop == r.estop && s.goal == r.goal && s.taskType == r.taskType
            && s.consoleOnline == r.consoleOnline && s.lastConsoleMs == r.lastConsoleMs
  {
    var m := Replan(Move(r, t, dt), t);
    RecomputeFrame(AddFault(m.(taskStatus := Failed, phase := Idle, navStatus := NavFailed),
                            TaskFailed, ErrorLevel, "tracking error too large"));
    var c := CheckTrack(m);
    RecomputeFrame(c.(pose := c.goal, taskStatus := Done, phase := Idle, navStatus := NavIdle, stuckS := 0.0,
                      stuckCount := 0));
  }

  lemma BatteryFrame(r: Robot, rate: real, dt: real)
    ensures var s := CheckBattery(Drain(r, rate, dt));
            && s.estop == r.estop && s.pose == r.pose && s.taskType == r.taskType && s.goal == r.goal
            && s.consoleOnline == r.consoleOnline && s.lastConsoleMs == r.lastConsoleMs && s.navPath == r.navPath
            && (s.phase == Running ==> r.phase == Running)
  {
  }

  /** The tick in outline: it refreshes, drives only while Drives holds, and drains. */
  lemma TickOutline(r: Robot, t: TickInput)
    requires r.configured && Inv(r) && r.active
    ensures var s, s' := Refresh(r, t), OnTick(r, t);
            && s.navPath == r.navPath && (Drives(s) ==> r.navPath != [])
            && s'.estop == r.estop && s'.goal == r.goal && s'.lastConsoleMs == r.lastConsoleMs
            && s'.consoleOnline == s.consoleOnline
            && s'.pose == (if Drives(s) then Drive(s, t, Dt(r, t)).pose else r.pose)
            && (!Drives(s) ==> s'.taskType == s.taskType && s'.navPath == r.navPath
                               && (s'.phase == Running ==> s.phase == Running))
  {
    var s, dt := Refresh(r, t), Dt(r, t);
    RefreshFrame(r, t);
    RefreshHalts(r, t);
    RefreshKeeps(r, t);
    if Drives(s) {
      DriveFrame(s, t, dt);
      BatteryFrame(Drive(s, t, dt), 0.05, dt);
    } else {
      BatteryFrame(s, 0.02, dt);
      BatteryFrame(s, 0.0, dt);
      assert Drain(s, 0.0, dt) == s;
    }
  }

  // ----- commands -----

  predicate SameLink(r: Robot, s: Robot) {
    s.consoleOnline == r.consoleOnline && s.lastConsoleMs == r.lastConsoleMs
  }

  /** A path is only ever kept with its goal, dropped, or set by an accepted goto. */
  predicate PathFact(r: Robot, c: Command, s: Robot) {
    s.navPath != [] ==> if Starts(r, c, s) then s.goal == GotoPoint(r, c) else r.navPath != [] && s.goal == r.goal
  }

  /** What any command guarantees, s being the state after it. */
  predicate CmdFacts(r: Robot, c: Command, s: Robot) {
    && s.pose == r.pose && SameLink(r, s)
    && (s.estop <==> c.EstopCmd? || (r.estop && !Resets(r, c)))
    && (Halted(r) && !Starts(r, c, s) ==> Halted(s))
    && (c.EstopCmd? ==> Halted(s))
    && PathFact(r, c, s)
  }

  lemma UnchangedFacts(r: Robot, c: Command)
    requires Inv(r) && !c.EstopCmd? && !Resets(r, c)
    ensures CmdFacts(r, c, r)
  {
  }

  lemma EstopFacts(r: Robot, c: Command)
    requires c.EstopCmd?
    ensures CmdFacts(r, c, DoEstop(r))
  {
  }

  lemma ResetFacts(r: Robot, c: Command)
    requires r.configured && Inv(r) && Resets(r, c)
    ensures CmdFacts(r, c, DoReset(r))
  {
    ResetKeeps(r);
    var s := ClearFaults(r.(estop := false));
    RecomputeFrame(s.(bridgeNode := BridgeHealth(s), phase := Idle, mode := Teleop, taskStatus := NoStatus,
                      taskId := "", taskType := NoTask));
  }

  lemma ModeFacts(r: Robot, c: Command)
    requires Inv(r) && c.ModeCmd?
    ensures CmdFacts(r, c, OnCmd(r, c, []))
  {
  }

  lemma PauseFacts(r: Robot, c: Command)
    requires r.phase == Running && Inv(r) && c.PauseCmd?
    ensures CmdFacts(r, c, Recompute(r.(taskStatus := Accepted, phase := Idle, navStatus := NavIdle)))
  {
    RecomputeFrame(r.(taskStatus := Accepted, phase := Idle, navStatus := NavIdle));
  }

  lemma CancelFacts(r: Robot, c: Command)
    requires Inv(r) && c.CancelCmd?
    ensures CmdFacts(r, c, DoCancel(r))
  {
    RecomputeFrame(r.(taskStatus := NoStatus, taskId := "", taskType := NoTask, navPath := [], navStatus := NavIdle,
                      stuckS := 0.0, stuckCount := 0, phase := if r.phase == Running then Idle else r.phase));
  }

  lemma InjectFacts(r: Robot, c: Command)
    requires Inv(r) && c.InjectCmd?
    ensures CmdFacts(r, c, DoInject(r, c.detail))
  {
    var s := AddFault(r, NodeTimeout, ErrorLevel, c.detail);
    RecomputeFrame(s.(robotNode := Error, taskStatus := StopTask(r.taskStatus)));
  }

  lemma ClearFacts(r: Robot, c: Command)
    requires r.configured && Inv(r) && c.ClearCmd?
    ensures CmdFacts(r, c, DoClear(r))
  {
    var s := ClearFaults(r);
    RecomputeFrame(s.(bridgeNode := BridgeHealth(s)));
    var u := Recompute(s.(bridgeNode := BridgeHealth(s)));
    assert u.phase == Fault ==> HasError(u);
  }

  lemma GotoFacts(r: Robot, c: Command, plan: seq<Point>)
    requires Inv(r) && c.GotoCmd?
    ensures CmdFacts(r, c, DoGoto(r, c, plan))
  {
    var a := Admit(r, c, plan);
    if a == NoPath {
      NoPathFacts(r, c);
    } else if a == Start {
      LaunchFacts(r, c, plan);
    } else {
      UnchangedFacts(r, c);
      CountedFacts(r, c);
      assert DoGoto(r, c, plan) == r || DoGoto(r, c, plan) == CountId(r, c);
    }
  }

  lemma NoPathFacts(r: Robot, c: Command)
    requires c.GotoCmd?
    ensures CmdFacts(r, c, NoRoute(CountId(r, c)))
  {
    NoRouteFacts(CountId(r, c), c);
    NotCounted(r, c, NoRoute(CountId(r, c)));
  }

  lemma LaunchFacts(r: Robot, c: Command, plan: seq<Point>)
    requires c.GotoCmd? && r.phase != Running
    ensures CmdFacts(r, c, StartTask(CountId(r, c), GotoId(r, c), GotoPoint(r, c), plan))
  {
    StartFacts(CountId(r, c), c, GotoId(r, c), GotoPoint(r, c), plan);
    NotCounted(r, c, StartTask(CountId(r, c), GotoId(r, c), GotoPoint(r, c), plan));
  }

  lemma CountedFacts(r: Robot, c: Command)
    requires Inv(r) && c.GotoCmd?
    ensures CmdFacts(r, c, CountId(r, c))
  {
  }

  /** Drawing an automatic id is not noticed by the facts. */
  lemma NotCounted(r: Robot, c: Command, s: Robot)
    requires c.GotoCmd? && CmdFacts(CountId(r, c), c, s)
    ensures CmdFacts(r, c, s)
  {
  }

  lemma StartFacts(r: Robot, c: Command, id: string, p: Point, plan: seq<Point>)
    requires c.GotoCmd? && p == GotoPoint(r, c) && r.phase != Running
    ensures CmdFacts(r, c, StartTask(r, id, p, plan))
  {
  }

  lemma NoRouteFacts(r: Robot, c: Command)
    requires c.GotoCmd?
    ensures CmdFacts(r, c, NoRoute(r))
  {
    RecomputeFrame(AddFault(r.(navMap := Corridor.NavMap(1), navPath := [], navStatus := NavFailed),
                            TaskFailed, ErrorLevel, "A* no path to goal"));
  }

  lemma ResumeFacts(r: Robot, c: Command)
    requires Inv(r) && c.ResumeCmd? && CanResume(r)
    ensures CmdFacts(r, c, r.(phase := Running, taskStatus := Executing, navStatus := Tracking,
                              controlEnabled := false))
  {
  }

  lemma CmdFactsHold(r: Robot, c: Command, plan: seq<Point>)
    requires r.configured && Inv(r)
    ensures CmdFacts(r, c, OnCmd(r, c, plan))
  {
    match c
    case EstopCmd => EstopFacts(r, c);
    case ResetCmd(_) =>
      if Resets(r, c) {
        ResetFacts(r, c);
      } else {
        UnchangedFacts(r, c);
      }
    case ModeCmd(_) => ModeFacts(r, c);
    case PauseCmd(_) =>
      if r.phase == Running {
        PauseFacts(r, c);
      } else {
        UnchangedFacts(r, c);
      }
    case CancelCmd => CancelFacts(r, c);
    case GotoCmd(_, _, _) => GotoFacts(r, c, plan); UnchangedFacts(r, c);
    case ResumeCmd(_) =>
      UnchangedFacts(r, c);
      if CanResume(r) {
        ResumeFacts(r, c);
      }
    case InjectCmd(_) => InjectFacts(r, c);
    case ClearCmd => ClearFacts(r, c);
    case _ => UnchangedFacts(r, c);
  }

  // ----- motion -----

  lemma DrivePose(s: Robot, t: TickInput, dt: real)
    requires s.navPath != []
    ensures var mid := Move(s, t, dt).pose;
            Drive(s, t, dt).pose == mid || SnapsFrom(mid, s.goal, Drive(s, t, dt).pose)
  {
    var m := Replan(Move(s, t, dt), t);
    RecomputeFrame(AddFault(m.(taskStatus := Failed, phase := Idle, navStatus := NavFailed),
                            TaskFailed, ErrorLevel, "tracking error too large"));
  }

  /** The pose a tick steps to before the final snap. */
  function MidPose(r: Robot, t: TickInput): Point {
    var s := Refresh(r, t);
    if r.active && Drives(s) then Move(s, t, Dt(r, t)).pose else r.pose
  }

  /** Where the collision guard lets a robot at `pose` step. */
  ghost predicate GuardedStep(map_: Occupancy, pose: Point, goal: Point, mid: Point) {
    || mid == pose
    || (LineOfSight.IsFree(map_, mid) && LineOfSight.IsFree(Corridor.NavMap(0), mid))
    || (&& LineOfSight.SqDist(pose, goal) < 0.55 * 0.55
        && LineOfSight.SqDist(mid, goal) < LineOfSight.SqDist(pose, goal))
  }

  predicate ShortStep(pose: Point, mid: Point, dt: real) {
    mid == pose || LineOfSight.SqDist(pose, mid) <= (Pursuit.V_MAX * dt) * (Pursuit.V_MAX * dt)
  }

  predicate SnapsFrom(mid: Point, goal: Point, out: Point) {
    out == goal && LineOfSight.SqDist(mid, goal) < 0.22 * 0.22
  }

  /**
   One tick's motion from `pose` to `out`, by way of `mid`: stay put, enter a cell that is free in
   the map in force (and so in the raw corridor), or creep strictly nearer to a goal less than
   0.55 m away; at most 0.28 m/s; then perhaps snap to a goal less than 0.22 m away.
   */
  ghost predicate GuardedMotion(map_: Occupancy, pose: Point, goal: Point, dt: real, mid: Point, out: Point) {
    GuardedStep(map_, pose, goal, mid) && ShortStep(pose, mid, dt) && (out == mid || SnapsFrom(mid, goal, out))
  }

  lemma MovePose(s: Robot, t: TickInput, dt: real)
    ensures var p := Target(s.pose, t.v, t.cosYaw, t.sinYaw, dt);
            Move(s, t, dt).pose == if Collides(s, p) then s.pose else p
  {
  }

  lemma TargetStep(s: Robot, t: TickInput, dt: real)
    requires Pursuit.CommandOk(t.v, t.w) && t.cosYaw * t.cosYaw + t.sinYaw * t.sinYaw == 1.0 && dt >= 0.0
    ensures ShortStep(s.pose, Target(s.pose, t.v, t.cosYaw, t.sinYaw, dt), dt)
  {
    Pursuit.StepLength(s.pose, t.v, t.cosYaw, t.sinYaw, dt);
  }

  lemma GuardAllows(s: Robot, p: Point)
    requires s.navMap == Corridor.NavMap(0) || s.navMap == Corridor.NavMap(1)
    requires !Collides(s, p)
    ensures GuardedStep(s.navMap, s.pose, s.goal, p)
  {
    if LineOfSight.IsFree(s.navMap, p) {
      FreeInRaw(s.navMap, p);
    }
  }

  lemma MoveGuard(s: Robot, t: TickInput, dt: real)
    requires s.navMap == Corridor.NavMap(0) || s.navMap == Corridor.NavMap(1)
    requires Pursuit.CommandOk(t.v, t.w) && t.cosYaw * t.cosYaw + t.sinYaw * t.sinYaw == 1.0 && dt >= 0.0
    ensures GuardedStep(s.navMap, s.pose, s.goal, Move(s, t, dt).pose)
    ensures ShortStep(s.pose, Move(s, t, dt).pose, dt)
  {
    TargetStep(s, t, dt);
    MovePose(s, t, dt);
    if !Collides(s, Target(s.pose, t.v, t.cosYaw, t.sinYaw, dt)) {
      GuardAllows(s, Target(s.pose, t.v, t.cosYaw, t.sinYaw, dt));
    }
  }

  lemma DriveGuard(s: Robot, t: TickInput, dt: real)
    requires s.navPath != [] && (s.navMap == Corridor.NavMap(0) || s.navMap == Corridor.NavMap(1))
    requires Pursuit.CommandOk(t.v, t.w) && t.cosYaw * t.cosYaw + t.sinYaw * t.sinYaw == 1.0 && dt >= 0.0
    ensures GuardedMotion(s.navMap, s.pose, s.goal, dt, Move(s, t, dt).pose, Drive(s, t, dt).pose)
  {
    MoveGuard(s, t, dt);
    DrivePose(s, t, dt);
  }

  lemma DrivingGuard(r: Robot, t: TickInput, s: Robot, dt: real)
    requires r.configured && Inv(r) && TickInputOk(r, t) && r.active
    requires s == Refresh(r, t) && dt == Dt(r, t) && Drives(s)
    ensures GuardedMotion(s.navMap, s.pose, s.goal, dt, Move(s, t, dt).pose, Drive(s, t, dt).pose)
    ensures s.navMap == r.navMap && s.pose == r.pose && s.goal == r.goal && r.phase == Running && r.navPath != []
  {
    RefreshFrame(r, t);
    RefreshHalts(r, t);
    RefreshKeeps(r, t);
    InputsOfDrive(r, t, s, dt);
    DriveGuard(s, t, dt);
  }

  lemma InputsOfDrive(r: Robot, t: TickInput, s: Robot, dt: real)
    requires TickInputOk(r, t) && r.active && s == Refresh(r, t) && dt == Dt(r, t) && Drives(s) && s.navPath != []
    ensures Pursuit.CommandOk(t.v, t.w) && t.cosYaw * t.cosYaw + t.sinYaw * t.sinYaw == 1.0 && dt >= 0.0
  {
  }

  /** Every tick of every reachable state moves as `GuardedMotion` says. */
  lemma MotionGuard(r: Robot, t: TickInput)
    requires r.configured && Inv(r) && TickInputOk(r, t)
    ensures GuardedMotion(r.navMap, r.pose, r.goal, Dt(r, t), MidPose(r, t), OnTick(r, t).pose)
    ensures OnTick(r, t).pose != r.pose ==> r.phase == Running && r.navPath != []
  {
    var s, dt := Refresh(r, t), Dt(r, t);
    if r.active {
      TickOutline(r, t);
    }
    if r.active && Drives(s) {
      DrivingGuard(r, t, s, dt);
    } else {
      StandingStill(r.navMap, r.pose, r.goal, dt);
    }
  }

  lemma StandingStill(map_: Occupancy, pose: Point, goal: Point, dt: real)
    ensures GuardedMotion(map_, pose, goal, dt, pose, pose)
  {
  }

  lemma FreeInRaw(m: Occupancy, p: Point)
    requires m == Corridor.NavMap(0) || m == Corridor.NavMap(1)
    requires LineOfSight.IsFree(m, p)
    ensures LineOfSight.IsFree(Corridor.NavMap(0), p)
  {
    if m == Corridor.NavMap(1) {
      InflationMonotone(Corridor.RawMap(), 0, 1, WorldToCell(p));
    }
  }

  lemma TickStaysSafe(r: Robot, t: TickInput)
    requires r.configured && Inv(r) && TickInputOk(r, t)
    ensures || OnTick(r, t).pose == r.pose
            || LineOfSight.IsFree(Corridor.NavMap(0), OnTick(r, t).pose)
            || (r.navPath != [] && LineOfSight.SqDist(OnTick(r, t).pose, r.goal) < 0.55 * 0.55)
  {
    MotionGuard(r, t);
    MotionStaysSafe(r.navMap, r.pose, r.goal, Dt(r, t), MidPose(r, t), OnTick(r, t).pose);
  }

  lemma MotionStaysSafe(map_: Occupancy, pose: Point, goal: Point, dt: real, mid: Point, out: Point)
    requires GuardedMotion(map_, pose, goal, dt, mid, out)
    ensures || out == pose
            || LineOfSight.IsFree(Corridor.NavMap(0), out)
            || LineOfSight.SqDist(out, goal) < 0.55 * 0.55
  {
    if SnapsFrom(mid, goal, out) {
      NoDistance(goal);
    } else {
      StepStaysSafe(map_, pose, goal, mid);
    }
  }

  lemma NoDistance(p: Point)
    ensures LineOfSight.SqDist(p, p) == 0.0
  {
  }

  lemma StepStaysSafe(map_: Occupancy, pose: Point, goal: Point, mid: Point)
    requires GuardedStep(map_, pose, goal, mid)
    ensures mid == pose || LineOfSight.IsFree(Corridor.NavMap(0), mid) || LineOfSight.SqDist(mid, goal) < 0.55 * 0.55
  {
  }

  // ----- ticks -----

  predicate LinkLost(r: Robot, t: TickInput) {
    r.active && Stale(r, t.nowMs)
  }

  /** What any tick guarantees, s being the state after it. */
  ghost predicate TickFacts(r: Robot, t: TickInput, s: Robot) {
    && s.estop == r.estop && s.lastConsoleMs == r.lastConsoleMs
    && (s.consoleOnline ==> r.consoleOnline)
    && (Halted(r) ==> Halted(s) && s.pose == r.pose)
    && (LinkLost(r, t) && r.phase == Running ==> Halted(s) && s.pose == r.pose)
    && (s.pose != r.pose ==> r.consoleOnline && !Stale(r, t.nowMs))
    && (s.navPath != [] ==> r.navPath != [] && s.goal == r.goal)
    && (|| s.pose == r.pose
        || LineOfSight.IsFree(Corridor.NavMap(0), s.pose)
        || (r.navPath != [] && LineOfSight.SqDist(s.pose, r.goal) < 0.55 * 0.55))
  }

  lemma TickFactsHold(r: Robot, t: TickInput)
    requires r.configured && Inv(r) && TickInputOk(r, t)
    ensures TickFacts(r, t, OnTick(r, t))
  {
    TickStaysSafe(r, t);
    if r.active {
      TickOutline(r, t);
      RefreshFrame(r, t);
      RefreshHalts(r, t);
      RefreshKeeps(r, t);
    }
  }

  // ----- console messages -----

  predicate ConsoleFacts(r: Robot, online: bool, nowMs: nat, s: Robot) {
    && s.pose == r.pose && s.estop == r.estop && s.goal == r.goal && s.navPath == r.navPath
    && s.consoleOnline == online && (online ==> s.lastConsoleMs == nowMs)
    && (Halted(r) ==> Halted(s))
    && (!online && r.phase == Running ==> Halted(s))
  }

  lemma ConsoleFactsHold(r: Robot, online: bool, nowMs: nat)
    ensures ConsoleFacts(r, online, nowMs, OnConsole(r, online, nowMs))
  {
    var told := r.(consoleOnline := online, lastConsoleMs := if online then nowMs else r.lastConsoleMs,
                   bridgeNode := if online then Ok else Warn);
    SafetyStopFrame(told);
    RecomputeFrame(if !online && r.phase == Running then SafetyStop(told) else told);
  }

  lemma SafetyStopFrame(r: Robot)
    ensures var s := SafetyStop(r);
            && s.pose == r.pose && s.estop == r.estop && s.goal == r.goal && s.navPath == r.navPath
            && SameLink(r, s) && s.phase != Running && s.taskType == NoTask
  {
    RecomputeFrame(Stopped(r));
  }

  lemma StartIsFree()
    ensures LineOfSight.IsFree(Corridor.NavMap(0), Point(1.25, 0.0))
  {
    assert WorldToCell(Point(1.25, 0.0)) == Cell(2, 10);
  }

  // ----- any step -----

  /** An invariant-preserving step with everything its kind guarantees. */
  ghost predicate Follows(r: Robot, e: Event, s: Robot) {
    && Inv(r) && Inv(s)
    && match e
       case Configure => !s.estop && !s.consoleOnline && s.navPath == [] && s.pose == Point(1.25, 0.0)
       case Console(online, nowMs) => ConsoleFacts(r, online, nowMs, s) && 0 < nowMs < CLOCK_END && r.configured
       case Tick(t) => TickFacts(r, t, s) && t.nowMs < CLOCK_END && r.configured
       case Cmd(c, _) => CmdFacts(r, c, s) && r.configured
       case _ => && r.configured && s.pose == r.pose && s.estop == r.estop && SameLink(r, s) && s.goal == r.goal
                 && s.navPath == r.navPath && s.taskType == r.taskType && s.phase != Running
  }

  lemma StepFollows(r: Robot, e: Event)
    requires Inv(r) && Enabled(r, e)
    ensures Follows(r, e, Apply(r, e))
  {
    StepKeeps(r, e);
    match e
    case Console(online, nowMs) => ConsoleFactsHold(r, online, nowMs);
    case Tick(t) => TickFactsHold(r, t);
    case Cmd(c, plan) => CmdFactsHold(r, c, plan);
    case _ =>
  }

  // ----- recovery -----

  /** From any latched state CLEAR_FAULT and then a confirmed RESET lead to IDLE with the latch down. */
  lemma ClearThenResetRecovers(r: Robot)
    requires r.configured && Inv(r)
    ensures var s := OnCmd(OnCmd(r, ClearCmd, []), ResetCmd(true), []);
            s.phase == Idle && !s.estop && (s.controlEnabled <==> r.consoleOnline) && s.pose == r.pose
  {
    ClearKeeps(r);
    ResetKeeps(DoClear(r));
  }
}
