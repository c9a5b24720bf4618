/**
 What each command, console message and lifecycle callback does to a robot in any state it can be in: the new state
 field by field with the phase already worked out, and the one reply.
 */
module RobotCommands {
  import opened GridMaps
  import opened Wrappers
  import opened RobotState
  import opened RobotInvariant
  import opened Decimals
  import Corridor
  import Planner

  /** Why control is refused: ESTOP, an absent console, start-up, a fault or a warning. */
  predicate Barred(r: Robot) {
    r.estop || !r.consoleOnline || r.phase in {Boot, Initializing, Fault, Degraded}
  }

  function BarredReason(r: Robot): Reason {
    if r.estop then EstopReason else PhaseBusy
  }

  function Failing(s: TaskStatus): TaskStatus {
    if s in {Accepted, Executing} then Failed else s
  }

  predicate ActiveAt(faults: seq<FaultItem>, level: Level, i: nat) {
    i < |faults| && faults[i].active && faults[i].level == level
  }

  /** The order of the conditions, for any state at all: ESTOP, start-up, an error, RUNNING, a warning. An error while
      RUNNING fails the task; control needs IDLE and a console. */
  lemma RecomputeMeans(r: Robot)
    ensures var wrong := r.robotNode in {Error, Lost} || exists i :: ActiveAt(r.faults, ErrorLevel, i);
            var odd := r.robotNode == Warn || exists i :: ActiveAt(r.faults, WarnLevel, i);
            var s := Recompute(r);
            if r.estop then s == r.(phase := Estop, controlEnabled := false)
            else if r.phase in {Boot, Initializing} then s == r.(controlEnabled := false)
            else if wrong then
              s == r.(phase := Fault, controlEnabled := false, robotNode := Error,
                      taskStatus := if r.phase == Running then Failed else r.taskStatus)
            else if r.phase == Running then s == r.(controlEnabled := false, robotNode := if odd then Warn else Ok)
            else if odd then s == r.(phase := Degraded, controlEnabled := false, robotNode := Warn)
            else s == r.(phase := Idle, controlEnabled := r.consoleOnline, robotNode := Ok)
  {
    LevelIs(r.faults, ErrorLevel);
    LevelIs(r.faults, WarnLevel);
  }

  lemma LevelIs(faults: seq<FaultItem>, level: Level)
    ensures ActiveFault(faults, level) <==> exists i :: ActiveAt(faults, level, i)
  {
    if ActiveFault(faults, level) {
      var i :| 0 <= i < |faults| && faults[i].active && faults[i].level == level;
      assert ActiveAt(faults, level, i);
    }
  }

  lemma EstopEffect(r: Robot)
    requires r.configured && Inv(r)
    ensures CmdReply(r, EstopCmd, []) == Reply(true, AcceptedReply, NoReason, "")
    ensures var known := exists i :: 0 <= i < |r.faults| && r.faults[i].code == EstopActive;
            OnCmd(r, EstopCmd, []) ==
            r.(estop := true, phase := Estop, controlEnabled := false, taskStatus := Failing(r.taskStatus),
               faults := if known then r.faults
                         else r.faults + [FaultItem(EstopActive, WarnLevel, "software estop engaged", true)])
  {
  }

  lemma ResetEffect(r: Robot, confirmed: bool)
    requires r.configured && Inv(r)
    ensures var held := exists i :: 0 <= i < |r.faults| && r.faults[i].level == ErrorLevel
                                    && r.faults[i].code == NodeTimeout;
            var s, reply := OnCmd(r, ResetCmd(confirmed), []), CmdReply(r, ResetCmd(confirmed), []);
            if !confirmed then s == r && reply == Reply(false, RejectedReply, ConfirmRequired, "")
            else if held then s == r && reply == Reply(false, RejectedReply, PhaseBusy, "")
            else
              && reply == Reply(true, AcceptedReply, NoReason, "")
              && s == r.(estop := false, faults := [], robotNode := Ok,
                         bridgeNode := if r.consoleOnline then Ok else Warn, phase := Idle, mode := Teleop,
                         taskStatus := NoStatus, taskId := "", taskType := NoTask, controlEnabled := r.consoleOnline)
  {
    BlockingIs(r.faults);
    ResetState(r);
  }

  lemma BlockingIs(faults: seq<FaultItem>)
    ensures HasBlocking(faults) <==>
              exists i :: 0 <= i < |faults| && faults[i].level == ErrorLevel && faults[i].code == NodeTimeout
  {
    if HasBlocking(faults) {
      var i :| 0 <= i < |faults| && Blocking(faults[i]);
      assert faults[i].level == ErrorLevel && faults[i].code == NodeTimeout;
    }
  }

  lemma ResetState(r: Robot)
    ensures DoReset(r) == r.(estop := false, faults := [], robotNode := Ok,
                             bridgeNode := if r.consoleOnline then Ok else Warn, phase := Idle, mode := Teleop,
                             taskStatus := NoStatus, taskId := "", taskType := NoTask,
                             controlEnabled := r.consoleOnline)
  {
  }

  lemma ModeEffect(r: Robot, mode: Option<Mode>)
    requires r.configured && Inv(r)
    ensures var s, reply := OnCmd(r, ModeCmd(mode), []), CmdReply(r, ModeCmd(mode), []);
            if mode == None then s == r && reply == Reply(false, RejectedReply, InvalidPayload, "")
            else if mode == Some(Auto) && Barred(r) then
              s == r && reply == Reply(false, RejectedReply, BarredReason(r), "")
            else s == r.(mode := mode.value) && reply == Reply(true, AcceptedReply, NoReason, "")
  {
  }

  lemma PauseEffect(r: Robot, id: string)
    requires r.configured && Inv(r)
    ensures var s, reply := OnCmd(r, PauseCmd(id), []), CmdReply(r, PauseCmd(id), []);
            if r.phase == Running then
              && reply == Reply(true, AcceptedReply, NoReason, r.taskId)
              && s == r.(taskStatus := Accepted, navStatus := NavIdle, phase := if HasWarn(r) then Degraded else Idle,
                         controlEnabled := !HasWarn(r), robotNode := if HasWarn(r) then Warn else Ok)
            else s == r && reply == Reply(false, RejectedReply, UnknownTask, id)
  {
  }

  lemma CancelEffect(r: Robot)
    requires r.configured && Inv(r)
    ensures CmdReply(r, CancelCmd, []) == Reply(true, AcceptedReply, NoReason, "")
    ensures var phase := if r.phase == Running then (if HasWarn(r) then Degraded else Idle)
                         else if r.estop then Estop
                         else r.phase;
            OnCmd(r, CancelCmd, []) ==
            r.(taskStatus := NoStatus, taskId := "", taskType := NoTask, navPath := [], navStatus := NavIdle,
               stuckS := 0.0, stuckCount := 0, phase := phase, controlEnabled := phase == Idle && r.consoleOnline,
               robotNode := if r.estop || r.phase == Initializing then r.robotNode
                            else if r.phase == Fault then Error
                            else if HasWarn(r) then Warn
                            else Ok)
  {
  }

  /** The place a goto names: a coordinate left out is the robot's own. */
  lemma GotoNames(r: Robot, c: Command)
    requires c.GotoCmd?
    ensures GotoPoint(r, c).x == if c.x == None then r.pose.x else c.x.value
    ensures GotoPoint(r, c).y == if c.y == None then r.pose.y else c.y.value
    ensures GotoId(r, c) == if c.id != "" then c.id else "T-" + Decimal(r.taskSeq + 1)
  {
  }

  /** A number is drawn for a goto that brings no id. */
  function Counted(r: Robot, c: Command): nat
    requires c.GotoCmd?
  {
    if c.id == "" then r.taskSeq + 1 else r.taskSeq
  }

  predicate OnCorridor(p: Point) {
    0.0 <= p.x < 20.0 && -5.0 <= p.y < 5.0
  }

  /** All that can become of a goto, in the order in which it is decided. */
  ghost predicate GotoOutcome(r: Robot, c: Command, plan: seq<Point>, s: Robot, reply: Reply)
    requires c.GotoCmd?
  {
    var p, id := GotoPoint(r, c), GotoId(r, c);
    if Barred(r) then s == r && reply == Reply(false, RejectedReply, BarredReason(r), c.id)
    else if r.phase == Running then s == r && reply == Reply(false, RejectedReply, PhaseBusy, c.id)
    else if p.x < 0.0 || p.x > 20.0 || p.y < -5.0 || p.y > 5.0 then
      s == r && reply == Reply(false, RejectedReply, InvalidPayload, c.id)
    else if r.taskId == id && r.taskStatus == Done then
      s == r.(taskSeq := Counted(r, c)) && reply == Reply(true, DoneReply, NoReason, id)
    else if !OnCorridor(r.pose) || !OnCorridor(p) then
      && reply == Reply(false, RejectedReply, UnknownTask, id)
      && s == r.(taskSeq := Counted(r, c), navMap := Corridor.NavMap(1), navPath := [], navStatus := NavFailed,
                 faults := r.faults + [FaultItem(TaskFailed, ErrorLevel, "A* no path to goal", true)],
                 phase := Fault, controlEnabled := false, robotNode := Error)
    else
      && reply == Reply(true, AcceptedReply, NoReason, id)
      && plan != [] && Planner.Describes(Corridor.NavMap(1), r.pose, p, plan)
      && s == r.(taskSeq := Counted(r, c), navMap := Corridor.NavMap(1), navPath := plan, navIdx := 0,
                 navStatus := Tracking, stuckS := 0.0, stuckCount := 0, taskId := id, taskType := Goto,
                 taskStatus := Accepted, goal := p, phase := Running, controlEnabled := false)
  }

  lemma GotoEffect(r: Robot, c: Command, plan: seq<Point>)
    requires r.configured && Inv(r) && c.GotoCmd? && PlanOk(r, c, plan)
    ensures GotoOutcome(r, c, plan, OnCmd(r, c, plan), CmdReply(r, c, plan))
  {
    if AsksPlanner(r, c) {
      var p := GotoPoint(r, c);
      PlanDecides(1, r.pose, p, plan);
      Corridor.OnMapRange(1, r.pose);
      Corridor.OnMapRange(1, p);
      GotoAsked(r, c, plan);
      if plan == [] {
        NoRouteState(CountId(r, c));
      } else {
        Planner.AnswerDescribed(Corridor.NavMap(1), r.pose, p, plan);
      }
      AskedOutcome(r, c, plan);
    } else {
      GotoUnasked(r, c, plan);
    }
  }

  lemma NoRouteState(r: Robot)
    requires !r.estop && !Starting(r)
    ensures NoRoute(r) == r.(navMap := Corridor.NavMap(1), navPath := [], navStatus := NavFailed,
                             faults := r.faults + [FaultItem(TaskFailed, ErrorLevel, "A* no path to goal", true)],
                             phase := Fault, controlEnabled := false, robotNode := Error,
                             taskStatus := NoRoute(r).taskStatus)
    ensures r.phase != Running ==> NoRoute(r).taskStatus == r.taskStatus
  {
    var u := AddFault(r.(navMap := Corridor.NavMap(1), navPath := [], navStatus := NavFailed),
                      TaskFailed, ErrorLevel, "A* no path to goal");
    assert u.faults[|r.faults|].active;
  }

  lemma AskedOutcome(r: Robot, c: Command, plan: seq<Point>)
    requires c.GotoCmd? && AsksPlanner(r, c)
    requires plan == [] <==> !OnCorridor(r.pose) || !OnCorridor(GotoPoint(r, c))
    requires plan != [] ==> Planner.Describes(Corridor.NavMap(1), r.pose, GotoPoint(r, c), plan)
    ensures GotoOutcome(r, c, plan, OnCmd(r, c, plan), CmdReply(r, c, plan))
  {
    if plan == [] {
      RefusedOutcome(r, c);
    } else {
      StartedOutcome(r, c, plan);
    }
  }

  lemma RefusedOutcome(r: Robot, c: Command)
    requires c.GotoCmd? && AsksPlanner(r, c)
    requires !OnCorridor(r.pose) || !OnCorridor(GotoPoint(r, c))
    ensures GotoOutcome(r, c, [], OnCmd(r, c, []), CmdReply(r, c, []))
  {
    NoRouteState(CountId(r, c));
    assert OnCmd(r, c, []) == NoRoute(CountId(r, c));
  }

  lemma StartedOutcome(r: Robot, c: Command, plan: seq<Point>)
    requires c.GotoCmd? && AsksPlanner(r, c) && plan != []
    requires OnCorridor(r.pose) && OnCorridor(GotoPoint(r, c))
    requires Planner.Describes(Corridor.NavMap(1), r.pose, GotoPoint(r, c), plan)
    ensures GotoOutcome(r, c, plan, OnCmd(r, c, plan), CmdReply(r, c, plan))
  {
    assert OnCmd(r, c, plan) == StartTask(CountId(r, c), GotoId(r, c), GotoPoint(r, c), plan);
  }

  lemma GotoUnasked(r: Robot, c: Command, plan: seq<Point>)
    requires r.configured && Inv(r) && c.GotoCmd? && !AsksPlanner(r, c)
    ensures GotoOutcome(r, c, plan, OnCmd(r, c, plan), CmdReply(r, c, plan))
  {
  }

  lemma ResumeEffect(r: Robot, id: string)
    requires r.configured && Inv(r)
    ensures var s, reply := OnCmd(r, ResumeCmd(id), []), CmdReply(r, ResumeCmd(id), []);
            if Barred(r) then s == r && reply == Reply(false, RejectedReply, BarredReason(r), id)
            else if r.phase == Idle && r.taskId != "" && r.taskType == Goto && r.navPath != [] then
              && reply == Reply(true, AcceptedReply, NoReason, r.taskId)
              && s == r.(phase := Running, taskStatus := Executing, navStatus := Tracking, controlEnabled := false)
            else s == r && reply == Reply(false, RejectedReply, UnknownTask, id)
  {
  }

  lemma OtherEffect(r: Robot, id: string)
    requires r.configured && Inv(r)
    ensures OnCmd(r, OtherTaskCmd(id), []) == r && OnCmd(r, UnknownCmd, []) == r
    ensures CmdReply(r, OtherTaskCmd(id), []) ==
            Reply(false, RejectedReply, if Barred(r) then BarredReason(r) else UnknownTask, id)
    ensures CmdReply(r, UnknownCmd, []) == Reply(false, RejectedReply, NotImplemented, "")
  {
  }

  /** An injected fault stands as an ERROR and throws a robot that is up into FAULT, its task FAILED. */
  lemma InjectEffect(r: Robot, detail: string)
    requires r.configured && Inv(r)
    ensures CmdReply(r, InjectCmd(detail), []) == Reply(true, AcceptedReply, NoReason, "")
    ensures OnCmd(r, InjectCmd(detail), []) ==
            r.(faults := r.faults + [FaultItem(NodeTimeout, ErrorLevel, detail, true)], robotNode := Error,
               taskStatus := Failing(r.taskStatus), controlEnabled := false,
               phase := if r.estop then Estop else if r.phase == Initializing then Initializing else Fault)
  {
    var u := AddFault(r, NodeTimeout, ErrorLevel, detail);
    assert u.faults[|r.faults|].active;
  }

  /** CLEAR_FAULT drops every fault; a latched ESTOP stays, a running task goes on. */
  lemma ClearEffect(r: Robot)
    requires r.configured && Inv(r)
    ensures CmdReply(r, ClearCmd, []) == Reply(true, AcceptedReply, NoReason, "")
    ensures var phase := if r.estop then Estop else if r.phase in {Initializing, Running} then r.phase else Idle;
            OnCmd(r, ClearCmd, []) ==
            r.(faults := [], robotNode := Ok, bridgeNode := if r.consoleOnline then Ok else Warn, phase := phase,
               controlEnabled := phase == Idle && r.consoleOnline)
  {
  }

  /** A console message: an offline one stops a running task for good; else it settles link, bridge and control. */
  lemma ConsoleEffect(r: Robot, online: bool, nowMs: nat)
    requires r.configured && Inv(r)
    ensures var s := OnConsole(r, online, nowMs);
            var stops := !online && r.phase == Running;
            && s == r.(consoleOnline := online, lastConsoleMs := if online then nowMs else r.lastConsoleMs,
                       bridgeNode := if online then Ok else Warn, phase := s.phase,
                       robotNode := if r.estop || r.phase in {Boot, Initializing} then r.robotNode
                                    else if r.phase == Fault then Error
                                    else if HasWarn(r) then Warn
                                    else Ok,
                       controlEnabled := s.phase == Idle && online,
                       taskStatus := if stops then Failed else r.taskStatus,
                       taskType := if stops then NoTask else r.taskType)
            && s.phase == (if r.estop then Estop
                           else if stops then (if HasWarn(r) then Degraded else Idle)
                           else r.phase)
  {
    if !online && r.phase == Running {
      OfflineStops(r, nowMs);
    }
  }

  lemma OfflineStops(r: Robot, nowMs: nat)
    requires r.configured && Inv(r) && r.phase == Running
    ensures var s := OnConsole(r, false, nowMs);
            && s == r.(consoleOnline := false, bridgeNode := Warn, phase := s.phase,
                       robotNode := if HasWarn(r) then Warn else Ok, controlEnabled := false, taskStatus := Failed,
                       taskType := NoTask)
            && s.phase == if HasWarn(r) then Degraded else Idle
  {
  }

  /** The lifecycle: where the node starts, when it leaves start-up, and what it forgets. */
  lemma LifecycleEffect(r: Robot, now: real)
    ensures var s := OnConfigure(r);
            && s.configured && s.phase == Initializing && s.pose == Point(1.25, 0.0) && s.battery == 100.0
            && !s.estop && !s.consoleOnline && !s.controlEnabled && s.faults == [] && s.robotNode == Ok
            && s.bridgeNode == Ok && s.taskId == "" && s.taskType == NoTask && s.taskStatus == NoStatus
            && s.navPath == [] && s.navStatus == NavIdle
            && s.mode == r.mode && s.taskSeq == r.taskSeq && s.goal == r.goal && s.active == r.active
            && s.lastConsoleMs == r.lastConsoleMs && s.navMap == r.navMap && s.navIdx == r.navIdx
            && s.stuckS == r.stuckS && s.stuckCount == r.stuckCount && s.lastTick == r.lastTick && s.idleAt == r.idleAt
    ensures OnActivate(r, now) ==
            r.(active := true, phase := Initializing, controlEnabled := false, idleAt := now + 0.5, lastTick := now)
    ensures OnDeactivate(r) == r.(active := false, controlEnabled := false, phase := Initializing)
    ensures OnCleanup(r) == r.(configured := false, phase := Boot, active := false)
  {
  }
}
