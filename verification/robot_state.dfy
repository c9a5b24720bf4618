/**
 The simulated robot's state and what each of its callbacks does to it, as functions. The class
 `FakeRobot` performs the same callbacks in place and is proved against these functions.

 Times of the steady clock are seconds, times of the system clock are milliseconds. The heading
 enters a tick as its cosine and sine; distances are compared as squares.
 */
module RobotState {
  import opened GridMaps
  import opened Wrappers
  import Corridor
  import opened Decimals
  import LineOfSight
  import Planner
  import Pursuit

  datatype Phase = Boot | Initializing | Idle | Running | Degraded | Fault | Estop
  datatype Mode = Teleop | Auto | Remote
  datatype Health = Ok | Warn | Error | Lost
  datatype Level = Info | WarnLevel | ErrorLevel
  datatype Code = EstopActive | BatteryLow | TaskFailed | NodeTimeout
  datatype TaskStatus = NoStatus | Accepted | Executing | Done | Failed
  datatype TaskType = NoTask | Goto
  datatype NavStatus = NavIdle | Planning | Tracking | NavFailed

  datatype FaultItem = FaultItem(code: Code, level: Level, detail: string, active: bool)

  datatype Robot = Robot(
    configured: bool,     // subscriptions and publishers exist
    active: bool,
    phase: Phase,
    mode: Mode,
    estop: bool,
    controlEnabled: bool,
    consoleOnline: bool,
    lastConsoleMs: nat,
    pose: Point,
    battery: real,
    taskId: string,
    taskType: TaskType,
    taskStatus: TaskStatus,
    goal: Point,
    robotNode: Health,
    bridgeNode: Health,
    faults: seq<FaultItem>,
    navMap: Occupancy,
    navPath: seq<Point>,
    navIdx: nat,
    navStatus: NavStatus,
    stuckS: real,
    stuckCount: nat,
    taskSeq: nat,
    idleAt: real,
    lastTick: real)

  /** A freshly constructed node. */
  function Fresh(): Robot {
    Robot(false, false, Boot, Teleop, false, false, false, 0, Point(0.0, 0.0), 100.0, "", NoTask, NoStatus,
          Point(0.0, 0.0), Ok, Ok, [], Occupancy(40, 20, {}), [], 0, NavIdle, 0.0, 0, 0, 0.0, 0.0)
  }

  // ----- conditions -----

  predicate ActiveFault(faults: seq<FaultItem>, level: Level) {
    exists i :: 0 <= i < |faults| && faults[i].active && faults[i].level == level
  }

  predicate HasError(r: Robot) {
    ActiveFault(r.faults, ErrorLevel) || r.robotNode == Error || r.robotNode == Lost
  }

  predicate HasWarn(r: Robot) {
    ActiveFault(r.faults, WarnLevel) || r.robotNode == Warn
  }

  predicate Starting(r: Robot) {
    r.phase == Boot || r.phase == Initializing
  }

  /** ESTOP first, then start-up, then errors, then warnings (which do not interrupt RUNNING). */
  function NextPhase(r: Robot): Phase {
    if r.estop then Estop
    else if Starting(r) then r.phase
    else if HasError(r) then Fault
    else if r.phase == Running then Running
    else if HasWarn(r) then Degraded
    else Idle
  }

  function NextNode(r: Robot): Health {
    if r.estop || Starting(r) then r.robotNode
    else if HasError(r) then Error
    else if HasWarn(r) then Warn
    else Ok
  }

  function NextTaskStatus(r: Robot): TaskStatus {
    if !r.estop && r.phase == Running && HasError(r) then Failed else r.taskStatus
  }

  function Recompute(r: Robot): Robot {
    r.(phase := NextPhase(r), controlEnabled := NextPhase(r) == Idle && r.consoleOnline,
       robotNode := NextNode(r), taskStatus := NextTaskStatus(r))
  }

  function StopTask(s: TaskStatus): TaskStatus {
    if s == Executing || s == Accepted then Failed else s
  }

  function Stopped(r: Robot): Robot {
    r.(taskStatus := StopTask(r.taskStatus), phase := if r.phase == Running then Idle else r.phase, taskType := NoTask)
  }

  function NoControlOffline(r: Robot): Robot {
    r.(controlEnabled := r.controlEnabled && r.consoleOnline)
  }

  /** Halt motion and forget the task type, so that the task cannot be resumed. */
  function SafetyStop(r: Robot): Robot {
    NoControlOffline(Recompute(Stopped(r)))
  }

  function ClearFaults(r: Robot): Robot {
    r.(faults := [], robotNode := Ok)
  }

  function AddFault(r: Robot, code: Code, level: Level, detail: string): Robot {
    r.(faults := r.faults + [FaultItem(code, level, detail, true)])
  }

  // ----- lifecycle -----

  function OnConfigure(r: Robot): Robot {
    r.(configured := true, phase := Initializing, controlEnabled := false, estop := false, consoleOnline := false,
       battery := 100.0, pose := Point(1.25, 0.0), taskStatus := NoStatus, taskId := "", taskType := NoTask,
       navPath := [], navStatus := NavIdle, faults := [], robotNode := Ok, bridgeNode := Ok)
  }

  function OnActivate(r: Robot, now: real): Robot {
    r.(active := true, phase := Initializing, controlEnabled := false, idleAt := now + 0.5, lastTick := now)
  }

  function OnDeactivate(r: Robot): Robot {
    r.(active := false, controlEnabled := false, phase := Initializing)
  }

  function OnCleanup(r: Robot): Robot {
    r.(configured := false, phase := Boot, active := false)
  }

  // ----- console link -----

  function OnConsole(r: Robot, online: bool, nowMs: nat): Robot {
    var told := r.(consoleOnline := online, lastConsoleMs := if online then nowMs else r.lastConsoleMs,
                   bridgeNode := if online then Ok else Warn);
    NoControlOffline(Recompute(if !online && r.phase == Running then SafetyStop(told) else told))
  }

  // ----- tick -----

  /**
   What a tick reads from outside: the clocks, the heading, the pursuit command with the advanced
   index, and (when it replans) the planner's answer with its advanced index.
   */
  datatype TickInput = TickInput(
    now: real, nowMs: nat, cosYaw: real, sinYaw: real, v: real, w: real, idx: nat, plan: seq<Point>, planIdx: nat)

  const STALE_MS := 3000
  const U64 := 0x1_0000_0000_0000_0000
  const CLOCK_END := 0x8000_0000_0000_0000 // the system clock counts in signed 64 bits

  function Dt(r: Robot, t: TickInput): real {
    if r.lastTick > 0.0 then t.now - r.lastTick else 0.2
  }

  /** Unsigned subtraction: a clock that went backwards reads as stale. */
  predicate Stale(r: Robot, nowMs: nat) {
    r.consoleOnline && r.lastConsoleMs > 0 && (nowMs - r.lastConsoleMs) % U64 > STALE_MS
  }

  /** Link freshness, before any motion. */
  function CheckLink(r: Robot, nowMs: nat): Robot {
    var off := r.(consoleOnline := r.consoleOnline && !Stale(r, nowMs),
                  bridgeNode := if Stale(r, nowMs) then Warn else r.bridgeNode);
    if Stale(r, nowMs) && r.phase == Running then SafetyStop(off) else off
  }

  /** Link freshness and the end of initialisation. */
  function Refresh(r: Robot, t: TickInput): Robot {
    var s := CheckLink(r.(lastTick := t.now), t.nowMs);
    Recompute(s.(phase := if s.phase == Initializing && t.now >= s.idleAt then Idle else s.phase))
  }

  predicate Drives(r: Robot) {
    !r.estop && r.phase == Running && r.taskType == Goto
  }

  function Target(at: Point, v: real, cosYaw: real, sinYaw: real, dt: real): Point {
    Point(at.x + v * cosYaw * dt, at.y + v * sinYaw * dt)
  }

  predicate FinalCreep(r: Robot, p: Point) {
    && LineOfSight.SqDist(r.pose, r.goal) < 0.55 * 0.55
    && LineOfSight.SqDist(p, r.goal) < LineOfSight.SqDist(r.pose, r.goal)
  }

  /** The collision guard refuses the step. */
  predicate Collides(r: Robot, p: Point) {
    !FinalCreep(r, p) && !LineOfSight.IsFree(r.navMap, p)
  }

  function Threshold(dt: real): real {
    0.002 * (if dt / 0.2 > 1.0 then dt / 0.2 else 1.0)
  }

  predicate Translates(p: Point, q: Point, dt: real) {
    LineOfSight.SqDist(p, q) > Threshold(dt) * Threshold(dt)
  }

  function Move(r: Robot, t: TickInput, dt: real): Robot {
    var p := Target(r.pose, t.v, t.cosYaw, t.sinYaw, dt);
    var hit := Collides(r, p);
    var pose := if hit then r.pose else p;
    var translating := Translates(r.pose, pose, dt);
    var aligning := !hit && Pursuit.AbsR(t.w) > 0.05 && !translating;
    r.(pose := pose, navIdx := t.idx, taskStatus := Executing, navStatus := Tracking,
       stuckS := if translating || aligning then 0.0 else r.stuckS + dt)
  }

  predicate Stuck(r: Robot) {
    r.stuckS > 1.2
  }

  function ReplanRadius(stuckCount: nat): int {
    if stuckCount >= 3 then 0 else 1
  }

  /** On the rebuilt map, along the new path if there is one. */
  function Following(r: Robot, m: Occupancy, plan: seq<Point>, idx: nat): Robot {
    var keep := plan == [];
    r.(navMap := m, navPath := if keep then r.navPath else plan, navIdx := if keep then r.navIdx else idx,
       navStatus := if keep then r.navStatus else Tracking)
  }

  function CountStuck(r: Robot): Robot {
    r.(stuckS := 0.0, stuckCount := r.stuckCount + 1)
  }

  ghost function Replan(r: Robot, t: TickInput): Robot {
    if !Stuck(r) then r
    else Following(CountStuck(r), Corridor.NavMap(ReplanRadius(r.stuckCount + 1)), t.plan, t.planIdx)
  }

  /** More than 1.5 m away from the line through a and b. */
  predicate FarFromLine(p: Point, a: Point, b: Point) {
    var ab2 := LineOfSight.SqDist(a, b);
    var cross := (b.x - a.x) * (p.y - a.y) - (b.y - a.y) * (p.x - a.x);
    if ab2 > 0.000001 then cross * cross > 1.5 * 1.5 * ab2
    else LineOfSight.SqDist(a, p) > 1.5 * 1.5
  }

  predicate OffTrack(r: Robot)
    requires r.navIdx < |r.navPath|
  {
    var j := if r.navIdx + 1 < |r.navPath| - 1 then r.navIdx + 1 else |r.navPath| - 1;
    FarFromLine(r.pose, r.navPath[r.navIdx], r.navPath[j])
  }

  function CheckTrack(r: Robot): Robot {
    if r.navIdx < |r.navPath| && OffTrack(r) then
      Recompute(AddFault(r.(taskStatus := Failed, phase := Idle, navStatus := NavFailed),
                         TaskFailed, ErrorLevel, "tracking error too large"))
    else r
  }

  predicate Arrived(r: Robot) {
    LineOfSight.SqDist(r.pose, r.goal) < 0.22 * 0.22
  }

  function Arrive(r: Robot): Robot {
    if Arrived(r) then
      Recompute(r.(pose := r.goal, taskStatus := Done, phase := Idle, navStatus := NavIdle, stuckS := 0.0,
                   stuckCount := 0))
    else r
  }

  ghost function Drive(r: Robot, t: TickInput, dt: real): Robot {
    if r.navPath != [] then Arrive(CheckTrack(Replan(Move(r, t, dt), t)))
    else Recompute(r.(taskStatus := Failed, phase := Idle, navStatus := NavFailed))
  }

  function Drain(r: Robot, rate: real, dt: real): Robot {
    r.(battery := r.battery - rate * dt)
  }

  predicate LowBatteryReported(faults: seq<FaultItem>) {
    exists i :: 0 <= i < |faults| && faults[i].code == BatteryLow && faults[i].active
  }

  function CheckBattery(r: Robot): Robot {
    var s := r.(battery := if r.battery < 0.0 then 0.0 else r.battery);
    if s.battery < 15.0 && !LowBatteryReported(s.faults) then
      Recompute(AddFault(s, BatteryLow, WarnLevel, "battery below 15%"))
    else s
  }

  /** Motion, or the slower drain of an idle robot. */
  ghost function Advance(s: Robot, t: TickInput, dt: real): Robot {
    if Drives(s) then Drain(Drive(s, t, dt), 0.05, dt)
    else if !s.estop && s.phase == Idle then Drain(s, 0.02, dt)
    else s
  }

  ghost function OnTick(r: Robot, t: TickInput): Robot {
    if r.active then CheckBattery(Advance(Refresh(r, t), t, Dt(r, t))) else r
  }

  /** A replan's answer: the planner's, on the map a stuck robot plans on. */
  ghost predicate ReplanOk(r: Robot, plan: seq<Point>, idx: nat) {
    && Planner.AstarResult(Corridor.NavMap(ReplanRadius(r.stuckCount + 1)), r.pose, r.goal, plan)
    && (plan != [] ==> idx < |plan|)
  }

  /** The pursuit command, the advanced index and the replan are answers the code can get. */
  ghost predicate DriveInputOk(r: Robot, t: TickInput, dt: real) {
    && Pursuit.CommandOk(t.v, t.w)
    && r.navIdx <= t.idx && (r.navIdx < |r.navPath| ==> t.idx < |r.navPath|)
    && (Stuck(Move(r, t, dt)) ==> ReplanOk(Move(r, t, dt), t.plan, t.planIdx))
  }

  ghost predicate AnswersOk(s: Robot, t: TickInput, dt: real) {
    Drives(s) && s.navPath != [] ==> DriveInputOk(s, t, dt)
  }

  /** The heading is a unit vector and the steady clock runs forward. */
  predicate SensorsOk(r: Robot, t: TickInput) {
    t.cosYaw * t.cosYaw + t.sinYaw * t.sinYaw == 1.0 && t.now >= r.lastTick && t.nowMs < CLOCK_END
  }

  ghost predicate TickInputOk(r: Robot, t: TickInput) {
    SensorsOk(r, t) && (r.active ==> AnswersOk(Refresh(r, t), t, Dt(r, t)))
  }

  // ----- commands -----

  /** A command after its keys were extracted; `mode` is None when missing or not a known mode. */
  datatype Command =
    | EstopCmd
    | ResetCmd(confirmed: bool)
    | ModeCmd(mode: Option<Mode>)
    | PauseCmd(id: string)
    | CancelCmd
    | GotoCmd(id: string, x: Option<real>, y: Option<real>)
    | ResumeCmd(id: string)
    | OtherTaskCmd(id: string)
    | InjectCmd(detail: string)
    | ClearCmd
    | UnknownCmd

  datatype Status = AcceptedReply | RejectedReply | DoneReply
  datatype Reason = NoReason | ConfirmRequired | PhaseBusy | EstopReason | InvalidPayload | UnknownTask | NotImplemented
  datatype Reply = Reply(ok: bool, status: Status, reason: Reason, id: string)

  function Accept(id: string): Reply {
    Reply(true, AcceptedReply, NoReason, id)
  }

  function Reject(why: Reason, id: string): Reply {
    Reply(false, RejectedReply, why, id)
  }

  predicate Blocked(r: Robot) {
    r.estop || r.phase == Fault || r.phase == Degraded || r.phase == Boot || r.phase == Initializing || !r.consoleOnline
  }

  function BusyReason(r: Robot): Reason {
    if r.estop then EstopReason else PhaseBusy
  }

  predicate HasCode(faults: seq<FaultItem>, code: Code) {
    exists i :: 0 <= i < |faults| && faults[i].code == code
  }

  function DoEstop(r: Robot): Robot {
    var s := r.(estop := true, phase := Estop, controlEnabled := false, taskStatus := StopTask(r.taskStatus));
    if HasCode(s.faults, EstopActive) then s
    else AddFault(s, EstopActive, WarnLevel, "software estop engaged")
  }

  /** An ERROR that RESET may not clear; whether it is still active is not looked at. */
  predicate Blocking(f: FaultItem) {
    f.code != EstopActive && f.code != BatteryLow && f.code != TaskFailed && f.level == ErrorLevel
  }

  predicate HasBlocking(faults: seq<FaultItem>) {
    exists i :: 0 <= i < |faults| && Blocking(faults[i])
  }

  function BridgeHealth(r: Robot): Health {
    if r.consoleOnline then Ok else Warn
  }

  function DoReset(r: Robot): Robot {
    var s := ClearFaults(r.(estop := false));
    var u := Recompute(s.(bridgeNode := BridgeHealth(s), phase := Idle, mode := Teleop, taskStatus := NoStatus,
                          taskId := "", taskType := NoTask));
    u.(controlEnabled := u.consoleOnline && u.phase == Idle)
  }

  function DoCancel(r: Robot): Robot {
    Recompute(r.(taskStatus := NoStatus, taskId := "", taskType := NoTask, navPath := [], navStatus := NavIdle,
                 stuckS := 0.0, stuckCount := 0, phase := if r.phase == Running then Idle else r.phase))
  }

  function DoInject(r: Robot, detail: string): Robot {
    Recompute(AddFault(r, NodeTimeout, ErrorLevel, detail).(robotNode := Error, taskStatus := StopTask(r.taskStatus)))
  }

  function DoClear(r: Robot): Robot {
    var s := ClearFaults(r);
    LeaveFault(Recompute(s.(bridgeNode := BridgeHealth(s))))
  }

  function LeaveFault(r: Robot): Robot {
    var w := if r.phase == Fault && !HasError(r) then r.(phase := Idle) else r;
    w.(controlEnabled := w.consoleOnline && w.phase == Idle && !w.estop)
  }

  function GotoPoint(r: Robot, c: Command): Point
    requires c.GotoCmd?
  {
    Point(if c.x.Some? then c.x.value else r.pose.x, if c.y.Some? then c.y.value else r.pose.y)
  }

  /** The closed range check; the map itself is half-open. */
  predicate InRange(p: Point) {
    !(p.x < 0.0 || p.x > 20.0 || p.y < -5.0 || p.y > 5.0)
  }

  function GotoId(r: Robot, c: Command): string
    requires c.GotoCmd?
  {
    if c.id == "" then "T-" + Decimal(r.taskSeq + 1) else c.id
  }

  predicate RepeatsDone(r: Robot, id: string) {
    r.taskId != "" && r.taskId == id && r.taskStatus == Done
  }

  datatype Admission = Busy | OutOfRange | Repeat | NoPath | Start

  /** How far a goto gets; `plan` is what the planner answers. */
  function Admit(r: Robot, c: Command, plan: seq<Point>): Admission
    requires c.GotoCmd?
  {
    if r.phase == Running then Busy
    else if !InRange(GotoPoint(r, c)) then OutOfRange
    else if RepeatsDone(r, GotoId(r, c)) then Repeat
    else if plan == [] then NoPath
    else Start
  }

  function CountId(r: Robot, c: Command): Robot
    requires c.GotoCmd?
  {
    r.(taskSeq := if c.id == "" then r.taskSeq + 1 else r.taskSeq)
  }

  ghost function NoRoute(r: Robot): Robot {
    Recompute(AddFault(r.(navMap := Corridor.NavMap(1), navPath := [], navStatus := NavFailed),
                       TaskFailed, ErrorLevel, "A* no path to goal"))
  }

  ghost function StartTask(r: Robot, id: string, goal: Point, plan: seq<Point>): Robot {
    r.(navMap := Corridor.NavMap(1), navPath := plan, navIdx := 0, navStatus := Tracking, stuckS := 0.0,
       stuckCount := 0, taskId := id, taskType := Goto, taskStatus := Accepted, goal := goal, phase := Running,
       controlEnabled := false)
  }

  ghost function DoGoto(r: Robot, c: Command, plan: seq<Point>): Robot
    requires c.GotoCmd?
  {
    match Admit(r, c, plan)
    case Busy => r
    case OutOfRange => r
    case Repeat => CountId(r, c)
    case NoPath => NoRoute(CountId(r, c))
    case Start => StartTask(CountId(r, c), GotoId(r, c), GotoPoint(r, c), plan)
  }

  function GotoReply(r: Robot, c: Command, plan: seq<Point>): Reply
    requires c.GotoCmd?
  {
    match Admit(r, c, plan)
    case Busy => Reject(PhaseBusy, c.id)
    case OutOfRange => Reject(InvalidPayload, c.id)
    case Repeat => Reply(true, DoneReply, NoReason, GotoId(r, c))
    case NoPath => Reject(UnknownTask, GotoId(r, c))
    case Start => Accept(GotoId(r, c))
  }

  predicate CanResume(r: Robot) {
    && r.taskId != "" && r.taskType == Goto && !r.estop && r.phase == Idle && r.consoleOnline && !HasError(r)
    && r.navPath != []
  }

  ghost function OnCmd(r: Robot, c: Command, plan: seq<Point>): Robot {
    match c
    case EstopCmd => DoEstop(r)
    case ResetCmd(confirmed) => if confirmed && !HasBlocking(r.faults) then DoReset(r) else r
    case ModeCmd(mode) =>
      if mode.None? || (mode.value == Auto && Blocked(r)) then r else r.(mode := mode.value)
    case PauseCmd(_) =>
      if r.phase == Running then Recompute(r.(taskStatus := Accepted, phase := Idle, navStatus := NavIdle)) else r
    case CancelCmd => DoCancel(r)
    case GotoCmd(_, _, _) => if Blocked(r) then r else DoGoto(r, c, plan)
    case ResumeCmd(_) =>
      if !Blocked(r) && CanResume(r) then
        r.(phase := Running, taskStatus := Executing, navStatus := Tracking, controlEnabled := false)
      else r
    case OtherTaskCmd(_) => r
    case InjectCmd(detail) => DoInject(r, detail)
    case ClearCmd => DoClear(r)
    case UnknownCmd => r
  }

  /** The one result message each command produces. */
  function CmdReply(r: Robot, c: Command, plan: seq<Point>): Reply {
    match c
    case EstopCmd => Accept("")
    case ResetCmd(confirmed) =>
      if !confirmed then Reject(ConfirmRequired, "")
      else if HasBlocking(r.faults) then Reject(PhaseBusy, "")
      else Accept("")
    case ModeCmd(mode) =>
      if mode.None? then Reject(InvalidPayload, "")
      else if mode.value == Auto && Blocked(r) then Reject(BusyReason(r), "")
      else Accept("")
    case PauseCmd(id) => if r.phase == Running then Accept(r.taskId) else Reject(UnknownTask, id)
    case CancelCmd => Accept("")
    case GotoCmd(id, _, _) => if Blocked(r) then Reject(BusyReason(r), id) else GotoReply(r, c, plan)
    case ResumeCmd(id) =>
      if Blocked(r) then Reject(BusyReason(r), id)
      else if CanResume(r) then Accept(r.taskId)
      else Reject(UnknownTask, id)
    case OtherTaskCmd(id) => Reject(if Blocked(r) then BusyReason(r) else UnknownTask, id)
    case InjectCmd(_) => Accept("")
    case ClearCmd => Accept("")
    case UnknownCmd => Reject(NotImplemented, "")
  }

  /** The goto gets as far as planning. */
  predicate AsksPlanner(r: Robot, c: Command)
    requires c.GotoCmd?
  {
    !Blocked(r) && r.phase != Running && InRange(GotoPoint(r, c)) && !RepeatsDone(r, GotoId(r, c))
  }

  /** The planner's answer is a true one whenever it is asked. */
  ghost predicate PlanOk(r: Robot, c: Command, plan: seq<Point>) {
    c.GotoCmd? && AsksPlanner(r, c) ==> Planner.AstarResult(Corridor.NavMap(1), r.pose, GotoPoint(r, c), plan)
  }

  // ----- one step of a run -----

  datatype Event =
    | Configure
    | Activate(now: real)
    | Deactivate
    | Cleanup
    | Console(online: bool, nowMs: nat)
    | Tick(t: TickInput)
    | Cmd(c: Command, plan: seq<Point>)

  /** Which callbacks can happen: none before `on_configure` creates the subscriptions. */
  ghost predicate Enabled(r: Robot, e: Event) {
    match e
    case Configure => !r.configured
    case Tick(t) => r.configured && TickInputOk(r, t)
    case Cmd(c, plan) => r.configured && PlanOk(r, c, plan)
    case Console(_, nowMs) => r.configured && 0 < nowMs < CLOCK_END
    case _ => r.configured
  }

  ghost function Apply(r: Robot, e: Event): Robot {
    match e
    case Configure => OnConfigure(r)
    case Activate(now) => OnActivate(r, now)
    case Deactivate => OnDeactivate(r)
    case Cleanup => OnCleanup(r)
    case Console(online, nowMs) => OnConsole(r, online, nowMs)
    case Tick(t) => OnTick(r, t)
    case Cmd(c, plan) => OnCmd(r, c, plan)
  }
}
