/**
 What holds of the robot in every state that any sequence of callbacks can reach.
 */
module RobotInvariant {
  import opened GridMaps
  import opened RobotState
  import opened Wrappers
  import Corridor
  import LineOfSight
  import Planner
  import Routes

  // ----- the invariant -----

  ghost predicate RunningOk(r: Robot) {
    r.phase == Running ==>
      && !r.estop && !HasError(r) && r.consoleOnline
      && r.taskType == Goto && r.taskId != "" && r.navPath != [] && r.navIdx < |r.navPath|
      && (r.taskStatus == Accepted || r.taskStatus == Executing)
  }

  ghost predicate PhaseOk(r: Robot) {
    && (r.phase == Idle ==> !HasError(r) && !HasWarn(r))
    && (r.phase == Fault ==> HasError(r))
    && (r.phase == Degraded ==> HasWarn(r) && !HasError(r))
    && (r.phase == Estop ==> r.estop)
    && (r.estop ==> r.phase == Estop || r.phase == Initializing)
    && r.phase != Boot
  }

  /** Every waypoint but the commanded end lies in a cell free in the raw corridor, and the legs between
      them are in line of sight there. */
  ghost predicate WaypointsFree(path: seq<Point>) {
    && (forall i :: 0 <= i < |path| - 1 ==> LineOfSight.IsFree(Corridor.NavMap(0), path[i]))
    && (forall i :: 0 <= i < |path| - 2 ==> LegClear(path, i))
  }

  ghost predicate LegClear(path: seq<Point>, i: nat)
    requires i + 1 < |path|
  {
    LineOfSight.SegmentClear(Corridor.NavMap(0), path[i], path[i + 1])
  }

  ghost predicate PathOk(r: Robot) {
    r.navPath != [] ==>
      && r.navIdx < |r.navPath|
      && r.navPath[|r.navPath| - 1] == r.goal
      && WaypointsFree(r.navPath)
      && (r.navMap == Corridor.NavMap(0) || r.navMap == Corridor.NavMap(1))
  }

  predicate ControlOk(r: Robot) {
    r.controlEnabled <==> r.phase == Idle && r.consoleOnline
  }

  ghost predicate Inv(r: Robot) {
    if r.configured then RunningOk(r) && PhaseOk(r) && PathOk(r) && ControlOk(r)
    else r.phase == Boot && !r.active
  }

  // ----- recompute re-establishes it -----

  /** What must hold before `recompute_phase_and_control` for everything to hold after it. */
  ghost predicate Recomputable(r: Robot) {
    && r.configured && r.phase != Boot
    && PathOk(r)
    && (r.phase == Running ==>
          !r.estop && r.consoleOnline && r.taskType == Goto && r.taskId != "" && r.navPath != []
          && (HasError(r) || r.taskStatus == Accepted || r.taskStatus == Executing))
  }

  lemma RecomputeKeeps(r: Robot)
    requires Recomputable(r)
    ensures Inv(Recompute(r))
  {
  }

  // ----- console and link loss -----

  lemma SafetyStopKeeps(r: Robot)
    requires r.configured && r.phase != Boot && PathOk(r)
    ensures Inv(SafetyStop(r)) && SafetyStop(r).configured
  {
    RecomputeKeeps(Stopped(r));
  }

  lemma ConsoleKeeps(r: Robot, online: bool, nowMs: nat)
    requires r.configured && Inv(r)
    ensures Inv(OnConsole(r, online, nowMs)) && OnConsole(r, online, nowMs).configured
  {
    var told := r.(consoleOnline := online, lastConsoleMs := if online then nowMs else r.lastConsoleMs,
                   bridgeNode := if online then Ok else Warn);
    if !online && r.phase == Running {
      SafetyStopKeeps(told);
      RecomputeKeeps(SafetyStop(told));
    } else {
      RecomputeKeeps(told);
    }
  }

  // ----- tick -----

  lemma CheckLinkKeeps(r: Robot, nowMs: nat)
    requires r.configured && Inv(r)
    ensures Recomputable(CheckLink(r, nowMs))
    ensures CheckLink(r, nowMs).phase == Running ==> CheckLink(r, nowMs).taskStatus != Failed
  {
    if Stale(r, nowMs) && r.phase == Running {
      SafetyStopKeeps(r.(consoleOnline := false, bridgeNode := Warn));
    }
  }

  lemma RefreshKeeps(r: Robot, t: TickInput)
    requires r.configured && Inv(r)
    ensures Inv(Refresh(r, t)) && Refresh(r, t).configured
  {
    CheckLinkKeeps(r.(lastTick := t.now), t.nowMs);
    EndInitKeeps(CheckLink(r.(lastTick := t.now), t.nowMs), t.now);
  }

  lemma EndInitKeeps(s: Robot, now: real)
    requires Recomputable(s)
    ensures var u := s.(phase := if s.phase == Initializing && now >= s.idleAt then Idle else s.phase);
            Inv(Recompute(u)) && Recompute(u).configured
  {
    RecomputeKeeps(s.(phase := if s.phase == Initializing && now >= s.idleAt then Idle else s.phase));
  }

  lemma WaypointsOfPlan(r: int, start: Point, goal: Point, path: seq<Point>)
    requires 0 <= r && path != [] && Planner.AstarResult(Corridor.NavMap(r), start, goal, path)
    ensures path[|path| - 1] == goal && WaypointsFree(path)
  {
    var cells :| Planner.IsPlan(Corridor.NavMap(r), start, goal, cells) && path == Planner.Waypoints(cells, goal);
    WaypointsOfRoute(r, cells, cells[0], cells[|cells| - 1], goal);
  }

  lemma WaypointsOfRoute(r: int, cells: seq<Cell>, a: Cell, b: Cell, goal: Point)
    requires 0 <= r && cells != [] && Routes.IsRoute(Corridor.NavMap(r), cells, a, b)
    ensures WaypointsFree(Planner.Waypoints(cells, goal))
  {
    var path := Planner.Waypoints(cells, goal);
    forall i | 0 <= i < |path| - 1 ensures LineOfSight.IsFree(Corridor.NavMap(0), path[i]) {
      WaypointFree(r, cells, a, b, i);
    }
    forall i | 0 <= i < |path| - 2 ensures LegClear(path, i) {
      LegOfPlan(r, cells, a, b, i);
    }
  }

  lemma WaypointFree(r: int, cells: seq<Cell>, a: Cell, b: Cell, i: nat)
    requires 0 <= r && Routes.IsRoute(Corridor.NavMap(r), cells, a, b) && i < |cells|
    ensures LineOfSight.IsFree(Corridor.NavMap(0), CellToWorld(cells[i]))
  {
    Routes.RouteSteps(Corridor.NavMap(r), cells, a, b, i);
    InflationMonotone(Corridor.RawMap(), 0, r, cells[i]);
    CellRoundTrip(cells[i]);
  }

  lemma LegOfPlan(r: int, cells: seq<Cell>, a: Cell, b: Cell, i: nat)
    requires 0 <= r && Routes.IsRoute(Corridor.NavMap(r), cells, a, b) && i + 1 < |cells|
    ensures LineOfSight.SegmentClear(Corridor.NavMap(0), CellToWorld(cells[i]), CellToWorld(cells[i + 1]))
  {
    Routes.RouteSteps(Corridor.NavMap(r), cells, a, b, i);
    InflationMonotone(Corridor.RawMap(), 0, r, cells[i]);
    Routes.StepOnRawMap(Corridor.RawMap(), r, cells[i], cells[i + 1]);
    LineOfSight.LegalStepSegmentClear(Corridor.NavMap(0), cells[i], cells[i + 1]);
  }

  /** What the driving stages keep between them; the phase is settled at the end. */
  ghost predicate Driving(r: Robot) {
    && r.configured && !r.estop && r.consoleOnline && r.taskType == Goto && r.taskId != "" && r.navPath != []
    && r.phase == Running && !HasError(r) && r.taskStatus == Executing && PathOk(r) && ControlOk(r)
  }

  lemma MoveKeeps(r: Robot, t: TickInput, dt: real)
    requires r.configured && Inv(r) && Drives(r) && r.navPath != []
    requires r.navIdx < |r.navPath| ==> t.idx < |r.navPath|
    ensures Driving(Move(r, t, dt))
  {
  }

  lemma ReplanKeeps(r: Robot, t: TickInput)
    requires Driving(r)
    requires Stuck(r) ==> ReplanOk(r, t.plan, t.planIdx)
    ensures Driving(Replan(r, t))
  {
    if Stuck(r) && t.plan != [] {
      WaypointsOfPlan(ReplanRadius(r.stuckCount + 1), r.pose, r.goal, t.plan);
    }
  }

  lemma CheckTrackKeeps(r: Robot)
    requires Driving(r)
    ensures Recomputable(CheckTrack(r)) && Inv(CheckTrack(r))
    ensures CheckTrack(r).phase == Running || CheckTrack(r).phase == Fault
  {
    if r.navIdx < |r.navPath| && OffTrack(r) {
      var s := AddFault(r.(taskStatus := Failed, phase := Idle, navStatus := NavFailed),
                        TaskFailed, ErrorLevel, "tracking error too large");
      assert s.faults[|r.faults|].active;
      assert HasError(s);
      RecomputeKeeps(s);
    }
  }

  lemma ArriveKeeps(r: Robot)
    requires Recomputable(r) && Inv(r)
    ensures Inv(Arrive(r)) && Arrive(r).configured
  {
    if Arrived(r) {
      RecomputeKeeps(r.(pose := r.goal, taskStatus := Done, phase := Idle, navStatus := NavIdle, stuckS := 0.0,
                        stuckCount := 0));
    }
  }

  lemma BatteryKeeps(r: Robot)
    requires r.configured && Inv(r)
    ensures Inv(CheckBattery(r)) && CheckBattery(r).configured
    ensures CheckBattery(r).pose == r.pose
  {
    var s := r.(battery := if r.battery < 0.0 then 0.0 else r.battery);
    assert Inv(s);
    if s.battery < 15.0 && !LowBatteryReported(s.faults) {
      var u := AddFault(s, BatteryLow, WarnLevel, "battery below 15%");
      AddWarnErrors(s.faults, u.faults);
      RecomputeKeeps(u);
    }
  }

  lemma AddWarnErrors(faults: seq<FaultItem>, faults': seq<FaultItem>)
    requires |faults'| == |faults| + 1 && faults' == faults + [faults'[|faults|]]
    requires faults'[|faults|].level != ErrorLevel
    ensures ActiveFault(faults', ErrorLevel) <==> ActiveFault(faults, ErrorLevel)
  {
    if ActiveFault(faults, ErrorLevel) {
      var i :| 0 <= i < |faults| && faults[i].active && faults[i].level == ErrorLevel;
      assert faults'[i] == faults[i];
    }
  }

  lemma DriveKeeps(r: Robot, t: TickInput, dt: real)
    requires r.configured && Inv(r) && Drives(r) && r.navPath != []
    requires DriveInputOk(r, t, dt)
    ensures Inv(Drive(r, t, dt)) && Drive(r, t, dt).configured
  {
    MoveKeeps(r, t, dt);
    ReplanKeeps(Move(r, t, dt), t);
    CheckTrackKeeps(Replan(Move(r, t, dt), t));
    ArriveKeeps(CheckTrack(Replan(Move(r, t, dt), t)));
  }

  lemma DrainKeeps(r: Robot, rate: real, dt: real)
    requires r.configured && Inv(r)
    ensures Inv(CheckBattery(Drain(r, rate, dt))) && CheckBattery(Drain(r, rate, dt)).configured
  {
    assert Inv(Drain(r, rate, dt));
    BatteryKeeps(Drain(r, rate, dt));
  }

  lemma DrivingTickKeeps(r: Robot, t: TickInput, s: Robot)
    requires r.configured && r.active && Inv(r) && TickInputOk(r, t) && s == Refresh(r, t) && Drives(s)
    ensures Inv(Drive(s, t, Dt(r, t))) && Drive(s, t, Dt(r, t)).configured
  {
    RefreshKeeps(r, t);
    DriveKeeps(s, t, Dt(r, t));
  }

  lemma TickKeeps(r: Robot, t: TickInput)
    requires r.configured && Inv(r) && TickInputOk(r, t)
    ensures Inv(OnTick(r, t)) && OnTick(r, t).configured
  {
    var dt := Dt(r, t);
    var s := Refresh(r, t);
    RefreshKeeps(r, t);
    if r.active && Drives(s) {
      DrivingTickKeeps(r, t, s);
      DrainKeeps(Drive(s, t, dt), 0.05, dt);
    } else {
      DrainKeeps(s, 0.02, dt);
      BatteryKeeps(s);
    }
  }

  // ----- commands -----

  lemma EstopKeeps(r: Robot)
    requires r.configured && Inv(r)
    ensures Inv(DoEstop(r)) && DoEstop(r).configured && DoEstop(r).estop
  {
  }

  lemma ResetKeeps(r: Robot)
    requires r.configured && Inv(r)
    ensures Inv(DoReset(r)) && DoReset(r).configured && DoReset(r).phase == Idle && !DoReset(r).estop
  {
    var s := ClearFaults(r.(estop := false));
    RecomputeKeeps(s.(bridgeNode := BridgeHealth(s), phase := Idle, mode := Teleop, taskStatus := NoStatus,
                      taskId := "", taskType := NoTask));
  }

  lemma CancelKeeps(r: Robot)
    requires r.configured && Inv(r)
    ensures Inv(DoCancel(r)) && DoCancel(r).configured
  {
    RecomputeKeeps(r.(taskStatus := NoStatus, taskId := "", taskType := NoTask, navPath := [], navStatus := NavIdle,
                      stuckS := 0.0, stuckCount := 0, phase := if r.phase == Running then Idle else r.phase));
  }

  lemma InjectKeeps(r: Robot, detail: string)
    requires r.configured && Inv(r)
    ensures Inv(DoInject(r, detail)) && DoInject(r, detail).configured
  {
    var s := AddFault(r, NodeTimeout, ErrorLevel, detail);
    RecomputeKeeps(s.(robotNode := Error, taskStatus := StopTask(r.taskStatus)));
  }

  lemma ClearKeeps(r: Robot)
    requires r.configured && Inv(r)
    ensures Inv(DoClear(r)) && DoClear(r).configured && (r.estop ==> DoClear(r).estop)
  {
    var s := ClearFaults(r);
    RecomputeKeeps(s.(bridgeNode := BridgeHealth(s)));
  }

  lemma CountIdKeeps(r: Robot, c: Command)
    requires r.configured && Inv(r) && c.GotoCmd?
    ensures Inv(CountId(r, c)) && CountId(r, c).configured
    ensures Blocked(CountId(r, c)) == Blocked(r) && CountId(r, c).phase == r.phase
    ensures GotoId(r, c) != ""
  {
    if c.id == "" {
      assert GotoId(r, c)[0] == 'T';
    }
  }

  lemma GotoKeeps(r: Robot, c: Command, plan: seq<Point>)
    requires r.configured && Inv(r) && c.GotoCmd? && !Blocked(r)
    requires PlanOk(r, c, plan)
    ensures Inv(DoGoto(r, c, plan)) && DoGoto(r, c, plan).configured
  {
    CountIdKeeps(r, c);
    var s, id, p := CountId(r, c), GotoId(r, c), GotoPoint(r, c);
    match Admit(r, c, plan)
    case NoPath => NoRouteKeeps(s);
    case Start =>
      WaypointsOfPlan(1, r.pose, p, plan);
      StartKeeps(s, id, p, plan);
    case _ =>
  }

  lemma NoRouteKeeps(r: Robot)
    requires r.configured && r.phase != Boot && r.phase != Running
    ensures Inv(NoRoute(r)) && NoRoute(r).configured
  {
    RecomputeKeeps(AddFault(r.(navMap := Corridor.NavMap(1), navPath := [], navStatus := NavFailed),
                            TaskFailed, ErrorLevel, "A* no path to goal"));
  }

  lemma StartKeeps(r: Robot, id: string, goal: Point, plan: seq<Point>)
    requires r.configured && Inv(r) && !Blocked(r) && r.phase != Running && id != ""
    requires plan != [] && plan[|plan| - 1] == goal && WaypointsFree(plan)
    ensures Inv(StartTask(r, id, goal, plan)) && StartTask(r, id, goal, plan).configured
  {
  }

  lemma PauseKeeps(r: Robot)
    requires r.configured && Inv(r) && r.phase == Running
    ensures Inv(Recompute(r.(taskStatus := Accepted, phase := Idle, navStatus := NavIdle)))
  {
    RecomputeKeeps(r.(taskStatus := Accepted, phase := Idle, navStatus := NavIdle));
  }

  lemma ResumeKeeps(r: Robot)
    requires r.configured && Inv(r) && CanResume(r)
    ensures Inv(r.(phase := Running, taskStatus := Executing, navStatus := Tracking, controlEnabled := false))
  {
  }

  lemma ModeKeeps(r: Robot, mode: Mode)
    requires Inv(r)
    ensures Inv(r.(mode := mode))
  {
  }

  predicate IsTask(c: Command) {
    c.PauseCmd? || c.CancelCmd? || c.GotoCmd? || c.ResumeCmd? || c.OtherTaskCmd?
  }

  lemma TaskKeeps(r: Robot, c: Command, plan: seq<Point>)
    requires r.configured && Inv(r) && PlanOk(r, c, plan) && IsTask(c)
    ensures Inv(OnCmd(r, c, plan)) && OnCmd(r, c, plan).configured
  {
    if c.PauseCmd? {
      if r.phase == Running {
        PauseKeeps(r);
      }
    } else if c.CancelCmd? {
      CancelKeeps(r);
    } else if c.GotoCmd? {
      if !Blocked(r) {
        GotoKeeps(r, c, plan);
      }
    } else if c.ResumeCmd? && CanResume(r) {
      ResumeKeeps(r);
    }
  }

  lemma OtherCmdKeeps(r: Robot, c: Command, plan: seq<Point>)
    requires r.configured && Inv(r) && !IsTask(c)
    ensures Inv(OnCmd(r, c, plan)) && OnCmd(r, c, plan).configured
  {
    match c
    case EstopCmd => EstopKeeps(r);
    case ResetCmd(_) => ResetKeeps(r);
    case ModeCmd(mode) =>
      if mode.Some? {
        ModeKeeps(r, mode.value);
      }
    case InjectCmd(detail) => InjectKeeps(r, detail);
    case ClearCmd => ClearKeeps(r);
    case _ =>
  }

  lemma CmdKeeps(r: Robot, c: Command, plan: seq<Point>)
    requires r.configured && Inv(r) && PlanOk(r, c, plan)
    ensures Inv(OnCmd(r, c, plan)) && OnCmd(r, c, plan).configured
  {
    if IsTask(c) {
      TaskKeeps(r, c, plan);
    } else {
      OtherCmdKeeps(r, c, plan);
    }
  }

  /** The invariant is inductive over every callback. */
  lemma StepKeeps(r: Robot, e: Event)
    requires Inv(r) && Enabled(r, e)
    ensures Inv(Apply(r, e))
  {
    match e
    case Configure =>
    case Activate(_) =>
    case Deactivate =>
    case Cleanup =>
    case Console(online, nowMs) => ConsoleKeeps(r, online, nowMs);
    case Tick(t) => TickKeeps(r, t);
    case Cmd(c, plan) => CmdKeeps(r, c, plan);
  }

  /** So `tick` never takes the branch for an empty path. */
  lemma EmptyPathBranchDead(r: Robot, t: TickInput)
    requires r.configured && Inv(r) && Drives(Refresh(r, t))
    ensures Refresh(r, t).navPath != []
  {
    RefreshKeeps(r, t);
  }

  // ----- exact admission of a goto -----

  /** A goto starts RUNNING exactly when control was enabled, both the robot and the goal are on the
      map (the range check lets x = 20 and y = 5 through, the map does not), and it does not repeat
      the task just done. No plan condition remains: the corridor always has one. */
  lemma GotoAdmission(r: Robot, c: Command, plan: seq<Point>)
    requires r.configured && Inv(r) && c.GotoCmd? && PlanOk(r, c, plan)
    ensures (r.phase != Running && OnCmd(r, c, plan).phase == Running) <==>
              && r.controlEnabled
              && Corridor.NavMap(1).OnMap(r.pose) && Corridor.NavMap(1).OnMap(GotoPoint(r, c))
              && !RepeatsDone(r, GotoId(r, c))
    ensures CmdReply(r, c, plan) == Accept(GotoId(r, c)) <==> r.phase != Running && OnCmd(r, c, plan).phase == Running
  {
    var p := GotoPoint(r, c);
    Corridor.OnMapRange(1, p);
    ControlMeansUnblocked(r);
    if !Blocked(r) {
      AdmitDecides(r, c, plan);
    }
    if AsksPlanner(r, c) {
      PlanDecides(1, r.pose, p, plan);
    }
  }

  lemma ControlMeansUnblocked(r: Robot)
    requires r.configured && Inv(r)
    ensures r.controlEnabled <==> !Blocked(r) && r.phase != Running
  {
  }

  lemma AdmitDecides(r: Robot, c: Command, plan: seq<Point>)
    requires c.GotoCmd?
    ensures (r.phase != Running && DoGoto(r, c, plan).phase == Running) <==> Admit(r, c, plan) == Start
  {
    if Admit(r, c, plan) == NoPath {
      NoRouteStops(CountId(r, c));
    }
  }

  lemma NoRouteStops(r: Robot)
    requires r.phase != Running
    ensures NoRoute(r).phase != Running
    ensures !r.estop && !Starting(r) ==> NoRoute(r).phase == Fault
  {
    var s := AddFault(r.(navMap := Corridor.NavMap(1), navPath := [], navStatus := NavFailed),
                      TaskFailed, ErrorLevel, "A* no path to goal");
    assert s.faults[|r.faults|].active;
  }

  /** On either map the planner answers exactly when both end points are on it. */
  lemma PlanDecides(r: int, start: Point, goal: Point, path: seq<Point>)
    requires Corridor.PlansOn(r) && Planner.AstarResult(Corridor.NavMap(r), start, goal, path)
    ensures path != [] <==> Corridor.NavMap(r).OnMap(start) && Corridor.NavMap(r).OnMap(goal)
  {
    Corridor.CorridorPlannable(r, start, goal);
  }

  /** A stuck robot's replan, on whichever map its count selects, comes back empty exactly when the robot
      or its goal has left the map. */
  lemma ReplanDecides(r: Robot, plan: seq<Point>, idx: nat)
    requires ReplanOk(r, plan, idx)
    ensures plan == [] <==> !(Corridor.NavMap(0).OnMap(r.pose) && Corridor.NavMap(0).OnMap(r.goal))
  {
    PlanDecides(ReplanRadius(r.stuckCount + 1), r.pose, r.goal, plan);
    Corridor.OnMapRange(ReplanRadius(r.stuckCount + 1), r.pose);
    Corridor.OnMapRange(ReplanRadius(r.stuckCount + 1), r.goal);
    Corridor.OnMapRange(0, r.pose);
    Corridor.OnMapRange(0, r.goal);
  }

  /** A goto throws the robot into FAULT exactly when it gets as far as planning (its goal passed the
      closed range check) while the robot or the goal is off the half-open map. */
  lemma GotoFaultIff(r: Robot, c: Command, plan: seq<Point>)
    requires r.configured && Inv(r) && c.GotoCmd? && PlanOk(r, c, plan)
    ensures (r.phase != Fault && OnCmd(r, c, plan).phase == Fault) <==>
              && AsksPlanner(r, c)
              && !(Corridor.NavMap(1).OnMap(r.pose) && Corridor.NavMap(1).OnMap(GotoPoint(r, c)))
  {
    if AsksPlanner(r, c) {
      PlanDecides(1, r.pose, GotoPoint(r, c), plan);
      GotoAsked(r, c, plan);
    } else {
      GotoNotAsked(r, c, plan);
    }
  }

  lemma GotoAsked(r: Robot, c: Command, plan: seq<Point>)
    requires c.GotoCmd? && AsksPlanner(r, c)
    ensures OnCmd(r, c, plan).phase == if plan == [] then Fault else Running
    ensures CmdReply(r, c, plan) == if plan == [] then Reject(UnknownTask, GotoId(r, c)) else Accept(GotoId(r, c))
    ensures plan == [] ==> OnCmd(r, c, plan) == NoRoute(CountId(r, c))
  {
    NoRouteStops(CountId(r, c));
  }

  lemma GotoNotAsked(r: Robot, c: Command, plan: seq<Point>)
    requires c.GotoCmd? && !AsksPlanner(r, c)
    ensures OnCmd(r, c, plan).phase == r.phase
    ensures !CmdReply(r, c, plan).ok ==> OnCmd(r, c, plan) == r
  {
    assert Blocked(r) || Admit(r, c, plan) in {Busy, OutOfRange, Repeat};
  }

  /** So on the closed edges x = 20 and y = 5 every new goto the robot is ready for is refused and faults it. */
  lemma EdgeGotoFaults(r: Robot, c: Command, plan: seq<Point>)
    requires r.configured && Inv(r) && r.controlEnabled && c.GotoCmd? && PlanOk(r, c, plan)
    requires !RepeatsDone(r, GotoId(r, c))
    requires var p := GotoPoint(r, c); (p.x == 20.0 && -5.0 <= p.y <= 5.0) || (p.y == 5.0 && 0.0 <= p.x <= 20.0)
    ensures OnCmd(r, c, plan).phase == Fault && !OnCmd(r, c, plan).controlEnabled
    ensures CmdReply(r, c, plan) == Reject(UnknownTask, GotoId(r, c))
  {
    ControlMeansUnblocked(r);
    assert AsksPlanner(r, c);
    Corridor.OnMapRange(1, GotoPoint(r, c));
    PlanDecides(1, r.pose, GotoPoint(r, c), plan);
    GotoAsked(r, c, plan);
    CmdKeeps(r, c, plan);
  }

  /** Commands that would start or arm autonomous motion. */
  predicate WantsControl(c: Command) {
    c.GotoCmd? || c.ResumeCmd? || c.OtherTaskCmd? || c == ModeCmd(Some(Auto))
  }

  /** While ESTOP, FAULT, DEGRADED, start-up or an offline console blocks the robot, every such command is
      refused with the right reason and changes nothing. */
  lemma BlockedRefusesControl(r: Robot, c: Command, plan: seq<Point>)
    requires r.configured && Inv(r) && WantsControl(c)
    requires r.estop || r.phase !in {Idle, Running} || !r.consoleOnline
    ensures OnCmd(r, c, plan) == r
    ensures !CmdReply(r, c, plan).ok && CmdReply(r, c, plan).reason == if r.estop then EstopReason else PhaseBusy
  {
  }

  /** A refused command changes nothing, except a goto that got as far as planning: that one drops the path
      and leaves the robot in FAULT. */
  lemma RefusalEffect(r: Robot, c: Command, plan: seq<Point>)
    requires !CmdReply(r, c, plan).ok
    ensures if c.GotoCmd? && AsksPlanner(r, c)
            then OnCmd(r, c, plan) == NoRoute(CountId(r, c)) && OnCmd(r, c, plan).phase == Fault
            else OnCmd(r, c, plan) == r
  {
    if c.GotoCmd? {
      if AsksPlanner(r, c) {
        GotoAsked(r, c, plan);
      } else {
        GotoNotAsked(r, c, plan);
      }
    }
  }

  /** `resume` is accepted exactly when control is enabled and a goto with its path is still in memory;
      whether it was paused, or has even finished, is not looked at. */
  lemma ResumeExactly(r: Robot, id: string)
    requires r.configured && Inv(r)
    ensures CmdReply(r, ResumeCmd(id), []).ok <==>
              r.controlEnabled && r.taskId != "" && r.taskType == Goto && r.navPath != []
    ensures if CmdReply(r, ResumeCmd(id), []).ok
            then OnCmd(r, ResumeCmd(id), []).phase == Running && OnCmd(r, ResumeCmd(id), []).taskStatus == Executing
            else OnCmd(r, ResumeCmd(id), []) == r
  {
    ControlMeansUnblocked(r);
  }

  /** A task that arrived, was never paused and is DONE can be resumed, unless a warning is up. */
  lemma DoneCanBeResumed(r: Robot, id: string)
    requires r.configured && Inv(r) && r.phase == Running && Arrived(r) && !HasWarn(r)
    ensures Arrive(r).taskStatus == Done && CmdReply(Arrive(r), ResumeCmd(id), []).ok
  {
    ArriveKeeps(r);
    ResumeExactly(Arrive(r), id);
  }

  /** What the robot makes of a task id it has seen: a goto it is ready for is answered as done, and changes at most
      the counter, exactly when it repeats the last task and that one is DONE; any other starts afresh. */
  lemma RepeatedIdIff(r: Robot, c: Command, plan: seq<Point>)
    requires r.configured && Inv(r) && r.controlEnabled && c.GotoCmd? && PlanOk(r, c, plan)
    requires Corridor.NavMap(1).OnMap(r.pose) && Corridor.NavMap(1).OnMap(GotoPoint(r, c))
    ensures if r.taskId != "" && r.taskId == GotoId(r, c) && r.taskStatus == Done
            then CmdReply(r, c, plan) == Reply(true, DoneReply, NoReason, GotoId(r, c)) &&
                 OnCmd(r, c, plan) == CountId(r, c)
            else CmdReply(r, c, plan) == Accept(GotoId(r, c)) && OnCmd(r, c, plan).phase == Running
  {
    ControlMeansUnblocked(r);
    Corridor.OnMapRange(1, GotoPoint(r, c));
    if AsksPlanner(r, c) {
      PlanDecides(1, r.pose, GotoPoint(r, c), plan);
      GotoAsked(r, c, plan);
    }
  }

  /** `cancel` is never refused, not even during ESTOP or offline. It forgets task and path, leaves pose and latch
      alone, stops a running robot, and settles the phase as any recompute does. */
  lemma CancelExactly(r: Robot)
    requires r.configured && Inv(r)
    ensures CmdReply(r, CancelCmd, []) == Accept("")
    ensures var s := OnCmd(r, CancelCmd, []);
            && s.taskId == "" && s.taskType == NoTask && s.taskStatus == NoStatus && s.navPath == []
            && s.pose == r.pose && s.estop == r.estop && s.faults == r.faults && s.consoleOnline == r.consoleOnline
            && s.phase == (if r.estop then Estop
                           else if r.phase == Running then (if HasWarn(r) then Degraded else Idle)
                           else r.phase)
  {
  }

  /** `on_cleanup` leaves the control flag as it was: it is wrong in BOOT exactly if control was enabled. */
  lemma CleanupControl(r: Robot)
    requires r.configured && Inv(r)
    ensures OnCleanup(r).phase == Boot
    ensures ControlOk(OnCleanup(r)) <==> !(r.phase == Idle && r.consoleOnline)
  {
  }

  /** RESET succeeds exactly when confirmed and unblocked; then the robot is IDLE with the latch down. */
  lemma ResetExactly(r: Robot, confirmed: bool)
    requires r.configured && Inv(r)
    ensures CmdReply(r, ResetCmd(confirmed), []).ok <==> confirmed && !HasBlocking(r.faults)
    ensures CmdReply(r, ResetCmd(confirmed), []).ok ==>
              var s := OnCmd(r, ResetCmd(confirmed), []);
              && s.phase == Idle && !s.estop && s.faults == [] && s.taskId == "" && s.pose == r.pose
              && (s.controlEnabled <==> r.consoleOnline)
  {
    ResetKeeps(r);
  }
}
