/**
 What a tick comes to, in the terms of an observer: when it drives, where it moves, when it gives up, when it
 arrives, and what the battery does. Nothing here mentions the stages a tick is made of.
 */
module RobotTicks {
  import opened GridMaps
  import opened RobotState
  import opened RobotInvariant
  import opened RobotSteps
  import Corridor
  import LineOfSight

  // ----- the link -----

  /** The last console message is more than 3000 ms old, or from the future. */
  predicate LinkTooOld(r: Robot, nowMs: nat) {
    r.consoleOnline && r.lastConsoleMs > 0 && !(0 <= nowMs - r.lastConsoleMs <= 3000)
  }

  lemma StaleIsTooOld(r: Robot, nowMs: nat)
    requires nowMs < CLOCK_END && r.lastConsoleMs < CLOCK_END
    ensures Stale(r, nowMs) <==> LinkTooOld(r, nowMs)
  {
    var d := nowMs - r.lastConsoleMs;
    if d < 0 {
      WrapsOnce(d);
    } else {
      assert d % U64 == d;
    }
  }

  lemma WrapsOnce(d: int)
    requires -CLOCK_END < d < 0
    ensures d % U64 == d + U64
  {
  }

  // ----- the stages, in closed form -----

  lemma CheckLinkOf(r: Robot, nowMs: nat)
    requires r.configured && Inv(r)
    ensures var k := CheckLink(r, nowMs);
            && k.bridgeNode == (if Stale(r, nowMs) then Warn else r.bridgeNode)
            && (Stale(r, nowMs) && r.phase == Running ==>
                  k.taskStatus == Failed && k.taskType == NoTask && k.phase in {Idle, Degraded})
            && (!(Stale(r, nowMs) && r.phase == Running) ==>
                  k.taskStatus == r.taskStatus && k.taskType == r.taskType && k.phase == r.phase)
  {
  }

  /** What a link check and the end of initialisation leave. */
  lemma RefreshOf(r: Robot, t: TickInput)
    requires r.configured && Inv(r)
    ensures var s := Refresh(r, t);
            && s == r.(lastTick := t.now, consoleOnline := r.consoleOnline && !Stale(r, t.nowMs),
                       bridgeNode := s.bridgeNode, phase := s.phase,
                       controlEnabled := s.controlEnabled, robotNode := s.robotNode, taskStatus := s.taskStatus,
                       taskType := s.taskType)
            && s.bridgeNode == if Stale(r, t.nowMs) then Warn else r.bridgeNode
  {
    var r' := r.(lastTick := t.now);
    var k := CheckLink(r', t.nowMs);
    CheckLinkShape(r', t.nowMs);
    CheckLinkOf(r', t.nowMs);
    EndInitShape(r', k, t.now);
  }

  lemma RefreshStatus(r: Robot, t: TickInput)
    requires r.configured && Inv(r)
    ensures var s := Refresh(r, t);
            if Stale(r, t.nowMs) && r.phase == Running
            then s.taskStatus == Failed && s.taskType == NoTask && s.phase in {Idle, Degraded}
            else s.taskType == r.taskType && s.taskStatus == r.taskStatus
  {
    if Stale(r, t.nowMs) && r.phase == Running {
      RefreshStopped(r, t);
    } else {
      RefreshSame(r, t);
    }
  }

  lemma RefreshStopped(r: Robot, t: TickInput)
    requires r.configured && Inv(r) && Stale(r, t.nowMs) && r.phase == Running
    ensures var s := Refresh(r, t); s.taskStatus == Failed && s.taskType == NoTask && s.phase in {Idle, Degraded}
  {
    var off := r.(lastTick := t.now, consoleOnline := false, bridgeNode := Warn);
    var k := SafetyStop(off);
    assert CheckLink(r.(lastTick := t.now), t.nowMs) == k;
    StoppedStatus(off);
    EndInitStatus(k, t.now);
    EndInitType(k, t.now);
  }

  lemma StoppedStatus(r: Robot)
    requires RunningOk(r.(consoleOnline := true)) && r.phase == Running
    ensures var k := SafetyStop(r);
            && k.taskStatus == Failed && k.taskType == NoTask && k.phase in {Idle, Degraded}
            && !HasError(k) && !k.estop && (HasWarn(k) <==> HasWarn(r))
  {
  }

  lemma RefreshSame(r: Robot, t: TickInput)
    requires r.configured && Inv(r) && !(Stale(r, t.nowMs) && r.phase == Running)
    ensures Refresh(r, t).taskType == r.taskType && Refresh(r, t).taskStatus == r.taskStatus
  {
    var k := r.(lastTick := t.now, consoleOnline := r.consoleOnline && !Stale(r, t.nowMs),
                bridgeNode := if Stale(r, t.nowMs) then Warn else r.bridgeNode);
    assert CheckLink(r.(lastTick := t.now), t.nowMs) == k;
    EndInitStatus(k, t.now);
    EndInitType(k, t.now);
  }

  lemma EndInitType(k: Robot, now: real)
    ensures Recompute(k.(phase := if k.phase == Initializing && now >= k.idleAt then Idle else k.phase)).taskType
            == k.taskType
  {
  }

  lemma EndInitStatus(k: Robot, now: real)
    requires k.phase == Running ==> !HasError(k)
    ensures var s := Recompute(k.(phase := if k.phase == Initializing && now >= k.idleAt then Idle else k.phase));
            && s.taskStatus == k.taskStatus
            && (k.phase in {Idle, Degraded} && !HasError(k) && !k.estop ==>
                  s.phase == if HasWarn(k) then Degraded else Idle)
  {
  }

  function LowBattery(): FaultItem {
    FaultItem(BatteryLow, WarnLevel, "battery below 15%", true)
  }

  function LostTrack(): FaultItem {
    FaultItem(TaskFailed, ErrorLevel, "tracking error too large", true)
  }

  /** The charge after dt seconds at some rate, never below zero. */
  function ChargeAfter(r: Robot, rate: real, dt: real): real {
    if r.battery < rate * dt then 0.0 else r.battery - rate * dt
  }

  /** A warning that the battery is below 15 % is due, and none is listed as active. */
  predicate WarnsNow(r: Robot, rate: real, dt: real) {
    && ChargeAfter(r, rate, dt) < 15.0
    && forall i :: 0 <= i < |r.faults| ==> !(r.faults[i].code == BatteryLow && r.faults[i].active)
  }

  lemma WarnIsDue(r: Robot, rate: real, dt: real)
    ensures var d := Drain(r, rate, dt);
            (if d.battery < 0.0 then 0.0 else d.battery) == ChargeAfter(r, rate, dt)
    ensures WarnsNow(r, rate, dt) <==> ChargeAfter(r, rate, dt) < 15.0 && !LowBatteryReported(r.faults)
  {
  }

  /** What the battery check leaves. */
  lemma BatteryOf(r: Robot, rate: real, dt: real)
    requires r.configured && Inv(r)
    ensures var s := CheckBattery(Drain(r, rate, dt));
            && s == r.(battery := ChargeAfter(r, rate, dt),
                       faults := if WarnsNow(r, rate, dt) then r.faults + [LowBattery()] else r.faults,
                       phase := s.phase, controlEnabled := s.controlEnabled, robotNode := s.robotNode)
            && s.phase == (if !WarnsNow(r, rate, dt) then r.phase
                           else if r.estop then Estop else if r.phase == Idle then Degraded else r.phase)
  {
    WarnIsDue(r, rate, dt);
    var d := r.(battery := ChargeAfter(r, rate, dt));
    if WarnsNow(r, rate, dt) {
      WarnedPhase(d);
    }
  }

  /** A warning degrades an idle robot and changes no other phase. */
  lemma WarnedPhase(r: Robot)
    requires r.configured && Inv(r)
    ensures var u := AddFault(r, BatteryLow, WarnLevel, "battery below 15%");
            var s := Recompute(u);
            && s == u.(phase := s.phase, controlEnabled := s.controlEnabled, robotNode := s.robotNode)
            && s.phase == (if r.estop then Estop else if r.phase == Idle then Degraded else r.phase)
  {
    var u := AddFault(r, BatteryLow, WarnLevel, "battery below 15%");
    AddWarnErrors(r.faults, u.faults);
    assert u.faults[|r.faults|].active;
    if ActiveFault(r.faults, WarnLevel) {
      assert HasWarn(u);
    }
  }

  lemma TrackOf(r: Robot)
    requires Driving(r) && r.navIdx < |r.navPath|
    ensures CheckTrack(r) ==
            if OffTrack(r) then
              r.(taskStatus := Failed, navStatus := NavFailed, phase := Fault, controlEnabled := false,
                 robotNode := Error, faults := r.faults + [LostTrack()])
            else r
  {
    var u := AddFault(r.(taskStatus := Failed, phase := Idle, navStatus := NavFailed),
                      TaskFailed, ErrorLevel, "tracking error too large");
    assert u.faults[|r.faults|].active;
  }

  lemma ArriveOf(r: Robot)
    requires r.configured && Inv(r) && !r.estop && (r.phase == Running || r.phase == Fault) && Arrived(r)
    ensures var s := Arrive(r);
            && s == r.(pose := r.goal, taskStatus := Done, navStatus := NavIdle, stuckS := 0.0, stuckCount := 0,
                       phase := s.phase, controlEnabled := s.controlEnabled, robotNode := s.robotNode)
            && s.phase == (if HasError(r) then Fault else if HasWarn(r) then Degraded else Idle)
  {
  }

  // ----- off course -----

  /** Farther than 1.5 m from every point of the line through a and b, or from a where there is no line. */
  ghost predicate OffCourse(p: Point, a: Point, b: Point) {
    if LineOfSight.SqDist(a, b) > 0.000001
    then forall u: real :: LineOfSight.SqDist(p, LineOfSight.Lerp(a, b, u)) > 2.25
    else LineOfSight.SqDist(a, p) > 2.25
  }

  lemma Lagrange(x: real, y: real, v: real, w: real, u: real)
    ensures var k := (x * v + y * w) - u * (x * x + y * y);
            ((u * x - v) * (u * x - v) + (u * y - w) * (u * y - w)) * (x * x + y * y)
            == (x * w - y * v) * (x * w - y * v) + k * k
  {
  }

  /** With e, f the offsets of the line's point u from p, x, y those of b and v, w those of p from a. */
  lemma Offsets(x: real, y: real, v: real, w: real, u: real, e: real, f: real, d: real, n: real)
    requires e == u * x - v && f == u * y - w && d == e * e + f * f && n == x * x + y * y
    ensures var k := (x * v + y * w) - u * n; d * n == (x * w - y * v) * (x * w - y * v) + k * k
  {
    Lagrange(x, y, v, w, u);
  }

  lemma OffsetOnLine(p: real, a: real, b: real, u: real)
    ensures LineOfSight.Mix(a, b, u) - p == u * (b - a) - (p - a)
  {
  }

  lemma QuotientBound(d: real, n: real, c: real, k: real)
    requires n > 0.0 && d * n == c + k * k
    ensures c > 2.25 * n ==> d > 2.25
    ensures k == 0.0 && d > 2.25 ==> c > 2.25 * n
  {
    assert k * k >= 0.0;
    if d <= 2.25 {
      ScaleBoth(d, 2.25, n);
    } else {
      ScaleBoth(2.25, d, n);
    }
  }

  lemma ScaleBoth(a: real, b: real, n: real)
    requires a <= b && n > 0.0
    ensures a * n <= b * n
    ensures a < b ==> a * n < b * n
  {
    if a < b {
      Positive(b - a, n);
    }
  }

  lemma Positive(d: real, n: real)
    requires d > 0.0 && n > 0.0
    ensures d * n > 0.0
  {
  }

  /** The squared distance times the squared length, split into the part across the line and the part along it. */
  lemma Split(p: Point, a: Point, b: Point, u: real) returns (across: real, along: real)
    ensures LineOfSight.SqDist(p, LineOfSight.Lerp(a, b, u)) * LineOfSight.SqDist(a, b) == across + along * along
    ensures LineOfSight.SqDist(a, b) > 0.000001 ==>
              (FarFromLine(p, a, b) <==> across > 2.25 * LineOfSight.SqDist(a, b))
    ensures along == (b.x - a.x) * (p.x - a.x) + (b.y - a.y) * (p.y - a.y) - u * LineOfSight.SqDist(a, b)
  {
    var l, n := LineOfSight.Lerp(a, b, u), LineOfSight.SqDist(a, b);
    OffsetOnLine(p.x, a.x, b.x, u);
    OffsetOnLine(p.y, a.y, b.y, u);
    Offsets(b.x - a.x, b.y - a.y, p.x - a.x, p.y - a.y, u, l.x - p.x, l.y - p.y, LineOfSight.SqDist(p, l), n);
    across, along := AcrossAlong(p, a, b, u, n);
    FarIs(p, a, b, across);
  }

  lemma AcrossAlong(p: Point, a: Point, b: Point, u: real, n: real) returns (across: real, along: real)
    ensures var x := (b.x - a.x) * (p.y - a.y) - (b.y - a.y) * (p.x - a.x); across == x * x
    ensures along == (b.x - a.x) * (p.x - a.x) + (b.y - a.y) * (p.y - a.y) - u * n
  {
    var x := (b.x - a.x) * (p.y - a.y) - (b.y - a.y) * (p.x - a.x);
    across, along := x * x, (b.x - a.x) * (p.x - a.x) + (b.y - a.y) * (p.y - a.y) - u * n;
  }

  lemma FarIs(p: Point, a: Point, b: Point, across: real)
    requires var x := (b.x - a.x) * (p.y - a.y) - (b.y - a.y) * (p.x - a.x); across == x * x
    ensures LineOfSight.SqDist(a, b) > 0.000001 ==>
              (FarFromLine(p, a, b) <==> across > 2.25 * LineOfSight.SqDist(a, b))
  {
  }

  /** For a point u along the line, seen from p. */
  lemma AlongLine(p: Point, a: Point, b: Point, u: real)
    requires LineOfSight.SqDist(a, b) > 0.000001 && FarFromLine(p, a, b)
    ensures LineOfSight.SqDist(p, LineOfSight.Lerp(a, b, u)) > 2.25
  {
    var c, k := Split(p, a, b, u);
    QuotientBound(LineOfSight.SqDist(p, LineOfSight.Lerp(a, b, u)), LineOfSight.SqDist(a, b), c, k);
  }

  /** The foot of the perpendicular. */
  lemma AtFoot(p: Point, a: Point, b: Point, u: real)
    requires LineOfSight.SqDist(a, b) > 0.000001
    requires u * LineOfSight.SqDist(a, b) == (b.x - a.x) * (p.x - a.x) + (b.y - a.y) * (p.y - a.y)
    requires LineOfSight.SqDist(p, LineOfSight.Lerp(a, b, u)) > 2.25
    ensures FarFromLine(p, a, b)
  {
    var c, k := Split(p, a, b, u);
    QuotientBound(LineOfSight.SqDist(p, LineOfSight.Lerp(a, b, u)), LineOfSight.SqDist(a, b), c, k);
  }

  /** The cross-track test of the code is this distance. */
  lemma OffCourseIff(p: Point, a: Point, b: Point)
    ensures FarFromLine(p, a, b) <==> OffCourse(p, a, b)
  {
    var n := LineOfSight.SqDist(a, b);
    if n > 0.000001 {
      if FarFromLine(p, a, b) {
        forall u: real ensures LineOfSight.SqDist(p, LineOfSight.Lerp(a, b, u)) > 2.25 {
          AlongLine(p, a, b, u);
        }
      }
      if OffCourse(p, a, b) {
        var u := ((b.x - a.x) * (p.x - a.x) + (b.y - a.y) * (p.y - a.y)) / n;
        AtFoot(p, a, b, u);
      }
    }
  }

  // ----- a driving tick -----

  /** Where the command would take the robot. */
  function StepTo(r: Robot, t: TickInput): Point {
    Point(r.pose.x + t.v * t.cosYaw * Dt(r, t), r.pose.y + t.v * t.sinYaw * Dt(r, t))
  }

  /** A cell free on the map in force may be entered; so may any place nearer to a goal less than 0.55 m away. */
  predicate MayEnter(r: Robot, p: Point) {
    || (r.navMap.OnMap(p) && r.navMap.Free(WorldToCell(p)))
    || (&& LineOfSight.SqDist(r.pose, r.goal) < 0.3025
        && LineOfSight.SqDist(p, r.goal) < LineOfSight.SqDist(r.pose, r.goal))
  }

  function NextPose(r: Robot, t: TickInput): Point {
    if MayEnter(r, StepTo(r, t)) then StepTo(r, t) else r.pose
  }

  /** It got no farther than 2 mm, or 10 mm a second in a long tick. */
  predicate Stays(r: Robot, t: TickInput) {
    var least := if Dt(r, t) > 0.2 then 0.01 * Dt(r, t) else 0.002;
    LineOfSight.SqDist(r.pose, NextPose(r, t)) <= least * least
  }

  /** Seconds without progress: turning on the spot counts as progress unless the way was barred. */
  function StuckFor(r: Robot, t: TickInput): real {
    if !Stays(r, t) || (MayEnter(r, StepTo(r, t)) && (t.w > 0.05 || t.w < -0.05)) then 0.0 else r.stuckS + Dt(r, t)
  }

  predicate Replans(r: Robot, t: TickInput) {
    StuckFor(r, t) > 1.2
  }

  predicate Reaches(r: Robot, t: TickInput) {
    LineOfSight.SqDist(NextPose(r, t), r.goal) < 0.0484
  }

  function PathAfter(r: Robot, t: TickInput): seq<Point> {
    if Replans(r, t) && t.plan != [] then t.plan else r.navPath
  }

  function IdxAfter(r: Robot, t: TickInput): nat {
    if Replans(r, t) && t.plan != [] then t.planIdx else t.idx
  }

  /** Off course, as seen from the next pose, from the leg at the index. */
  ghost predicate LosesTrack(r: Robot, t: TickInput) {
    var path, i := PathAfter(r, t), IdxAfter(r, t);
    i < |path| && OffCourse(NextPose(r, t), path[i], path[if i + 1 < |path| then i + 1 else i])
  }

  /** Running, and the link is fresh: this tick drives. */
  predicate DrivesNow(r: Robot, t: TickInput) {
    r.active && r.phase == Running && !Stale(r, t.nowMs)
  }

  lemma DrivesNowIff(r: Robot, t: TickInput)
    requires r.configured && Inv(r) && r.active
    ensures Drives(Refresh(r, t)) <==> DrivesNow(r, t)
    ensures DrivesNow(r, t) ==>
              Refresh(r, t) == r.(lastTick := t.now, robotNode := Refresh(r, t).robotNode, controlEnabled := false)
  {
    RefreshHalts(r, t);
    if DrivesNow(r, t) {
      assert CheckLink(r.(lastTick := t.now), t.nowMs) == r.(lastTick := t.now);
    }
  }

  lemma ThresholdIs(dt: real)
    ensures Threshold(dt) == if dt > 0.2 then 0.01 * dt else 0.002
  {
  }

  lemma MoveShape(s: Robot, t: TickInput, dt: real, p: Point, hit: bool, q: Point)
    requires p == Target(s.pose, t.v, t.cosYaw, t.sinYaw, dt) && hit == Collides(s, p) && q == if hit then s.pose else p
    ensures Move(s, t, dt) ==
            s.(pose := q, navIdx := t.idx, taskStatus := Executing, navStatus := Tracking,
               stuckS := if Translates(s.pose, q, dt) || (!hit && (t.w > 0.05 || t.w < -0.05)) then 0.0
                         else s.stuckS + dt)
  {
  }

  lemma StuckShape(r: Robot, t: TickInput, hit: bool, q: Point)
    requires hit == !MayEnter(r, StepTo(r, t)) && q == if hit then r.pose else StepTo(r, t)
    ensures NextPose(r, t) == q
    ensures StuckFor(r, t) == if !Stays(r, t) || (!hit && (t.w > 0.05 || t.w < -0.05)) then 0.0
                              else r.stuckS + Dt(r, t)
  {
  }

  lemma StaysIff(r: Robot, t: TickInput, least: real, d2: real)
    requires least == Threshold(Dt(r, t)) && d2 == LineOfSight.SqDist(r.pose, NextPose(r, t))
    ensures Stays(r, t) <==> d2 <= least * least
  {
    ThresholdIs(Dt(r, t));
  }

  /** The step, with the stuck timer. */
  lemma MoveOf(r: Robot, s: Robot, t: TickInput)
    requires s == r.(lastTick := s.lastTick, robotNode := s.robotNode, controlEnabled := s.controlEnabled)
    ensures Move(s, t, Dt(r, t)) == s.(pose := NextPose(r, t), navIdx := t.idx, taskStatus := Executing,
                                       navStatus := Tracking, stuckS := StuckFor(r, t))
  {
    var dt, p := Dt(r, t), StepTo(r, t);
    var hit := !MayEnter(r, p);
    var q := if hit then r.pose else p;
    StepIs(r, s, t);
    GuardIs(r, s, p);
    MoveShape(s, t, dt, p, hit, q);
    StuckShape(r, t, hit, q);
    StaysIff(r, t, Threshold(dt), LineOfSight.SqDist(r.pose, q));
  }

  lemma StepIs(r: Robot, s: Robot, t: TickInput)
    requires s.pose == r.pose
    ensures Target(s.pose, t.v, t.cosYaw, t.sinYaw, Dt(r, t)) == StepTo(r, t)
  {
  }

  lemma CreepIs(r: Robot, s: Robot, p: Point)
    requires s.pose == r.pose && s.goal == r.goal
    ensures FinalCreep(s, p) <==>
              && LineOfSight.SqDist(r.pose, r.goal) < 0.3025
              && LineOfSight.SqDist(p, r.goal) < LineOfSight.SqDist(r.pose, r.goal)
  {
    assert 0.55 * 0.55 == 0.3025;
  }

  lemma GuardIs(r: Robot, s: Robot, p: Point)
    requires s.pose == r.pose && s.goal == r.goal && s.navMap == r.navMap
    ensures Collides(s, p) <==> !MayEnter(r, p)
  {
    CreepIs(r, s, p);
  }

  lemma ReplanOf(r: Robot, m: Robot, t: TickInput)
    requires m.stuckS == StuckFor(r, t) && m.stuckCount == r.stuckCount && m.navPath == r.navPath && m.navIdx == t.idx
    requires m.navMap == r.navMap && m.navStatus == Tracking
    ensures Replan(m, t) ==
            m.(navMap := if Replans(r, t) then Corridor.NavMap(if r.stuckCount >= 2 then 0 else 1) else r.navMap,
               navPath := PathAfter(r, t), navIdx := IdxAfter(r, t),
               stuckS := if Replans(r, t) then 0.0 else StuckFor(r, t),
               stuckCount := if Replans(r, t) then r.stuckCount + 1 else r.stuckCount)
  {
  }

  /** The end of a driving tick: giving up off course, and arriving, in that order. */
  lemma DriveEnds(q: Robot)
    requires Driving(q) && q.navIdx < |q.navPath|
    ensures var a, off, there := Arrive(CheckTrack(q)), OffTrack(q), Arrived(q);
            && a == q.(pose := if there then q.goal else q.pose,
                       taskStatus := if there then Done else if off then Failed else Executing,
                       navStatus := if there then NavIdle else if off then NavFailed else q.navStatus,
                       stuckS := if there then 0.0 else q.stuckS, stuckCount := if there then 0 else q.stuckCount,
                       faults := if off then q.faults + [LostTrack()] else q.faults,
                       phase := a.phase, controlEnabled := a.controlEnabled, robotNode := a.robotNode)
            && a.phase == (if off then Fault else if !there then Running else if HasWarn(q) then Degraded else Idle)
  {
    TrackOf(q);
    CheckTrackKeeps(q);
    var c := CheckTrack(q);
    if Arrived(q) {
      ArriveOf(c);
    }
  }

  lemma TrackLost(r: Robot, t: TickInput, q: Robot)
    requires q.pose == NextPose(r, t) && q.navPath == PathAfter(r, t) && q.navIdx == IdxAfter(r, t)
    requires q.navIdx < |q.navPath|
    ensures OffTrack(q) <==> LosesTrack(r, t)
  {
    var path, i := q.navPath, q.navIdx;
    var j := if i + 1 < |path| then i + 1 else i;
    assert j == if i + 1 < |path| - 1 then i + 1 else |path| - 1;
    OffCourseIff(q.pose, path[i], path[j]);
  }

  /** The state that a driving tick has reached before it looks at course and goal. */
  ghost function Stepped(r: Robot, t: TickInput): Robot {
    r.(lastTick := t.now, robotNode := Refresh(r, t).robotNode, controlEnabled := false,
       pose := NextPose(r, t), taskStatus := Executing, navStatus := Tracking,
       navMap := if Replans(r, t) then Corridor.NavMap(if r.stuckCount >= 2 then 0 else 1) else r.navMap,
       navPath := PathAfter(r, t), navIdx := IdxAfter(r, t),
       stuckS := if Replans(r, t) then 0.0 else StuckFor(r, t),
       stuckCount := if Replans(r, t) then r.stuckCount + 1 else r.stuckCount)
  }

  lemma SteppedIs(r: Robot, t: TickInput)
    requires r.configured && Inv(r) && TickInputOk(r, t) && DrivesNow(r, t)
    ensures Replan(Move(Refresh(r, t), t, Dt(r, t)), t) == Stepped(r, t)
    ensures Driving(Stepped(r, t)) && Stepped(r, t).navIdx < |Stepped(r, t).navPath|
    ensures r.navPath != []
  {
    var s, dt := Refresh(r, t), Dt(r, t);
    DrivesNowIff(r, t);
    RefreshKeeps(r, t);
    MoveOf(r, s, t);
    ReplanOf(r, Move(s, t, dt), t);
    MoveKeeps(s, t, dt);
    ReplanKeeps(Move(s, t, dt), t);
  }

  /** What a driving tick comes to, s being the state after it. */
  ghost predicate DrivenTo(r: Robot, t: TickInput, s: Robot) {
    var off, there := LosesTrack(r, t), Reaches(r, t);
    && s.lastTick == t.now
    && s.pose == (if there then r.goal else NextPose(r, t))
    && s.taskStatus == (if there then Done else if off then Failed else Executing)
    && s.navStatus == (if there then NavIdle else if off then NavFailed else Tracking)
    && s.phase == (if off then Fault else if !there then Running else if HasWarn(s) then Degraded else Idle)
    && s.navMap == (if Replans(r, t) then Corridor.NavMap(if r.stuckCount >= 2 then 0 else 1) else r.navMap)
    && s.navPath == PathAfter(r, t) && s.navIdx == IdxAfter(r, t)
    && s.stuckS == (if there || Replans(r, t) then 0.0 else StuckFor(r, t))
    && s.stuckCount == (if there then 0 else if Replans(r, t) then r.stuckCount + 1 else r.stuckCount)
    && s.battery == ChargeAfter(r, 0.05, Dt(r, t))
    && s.faults == r.faults + (if off then [LostTrack()] else [])
                            + (if WarnsNow(r, 0.05, Dt(r, t)) then [LowBattery()] else [])
    && SameTask(r, s) && s.consoleOnline == r.consoleOnline && s.bridgeNode == r.bridgeNode
  }

  /** The fields a tick leaves alone unless it loses the link. */
  predicate SameTask(r: Robot, s: Robot) {
    && s.configured == r.configured && s.active == r.active && s.mode == r.mode && s.estop == r.estop
    && s.lastConsoleMs == r.lastConsoleMs && s.taskId == r.taskId && s.taskType == r.taskType && s.goal == r.goal
    && s.taskSeq == r.taskSeq && s.idleAt == r.idleAt
  }

  lemma WarnsTheSame(r: Robot, a: Robot, rate: real, dt: real)
    requires a.battery == r.battery && (a.faults == r.faults || a.faults == r.faults + [LostTrack()])
    ensures WarnsNow(a, rate, dt) <==> WarnsNow(r, rate, dt)
  {
    forall i | 0 <= i < |r.faults| ensures a.faults[i] == r.faults[i] {
    }
  }

  lemma WarnPhase(a: Robot, dt: real)
    requires a.configured && Inv(a) && !a.estop
    ensures var s := CheckBattery(Drain(a, 0.05, dt));
            a.phase in {Idle, Degraded} ==> s.phase == if HasWarn(s) then Degraded else Idle
  {
    BatteryOf(a, 0.05, dt);
    DrainKeeps(a, 0.05, dt);
  }

  /** The whole of a driving tick; the first one counts as 0.2 s long. */
  lemma DrivenTick(r: Robot, t: TickInput)
    requires r.configured && Inv(r) && TickInputOk(r, t) && DrivesNow(r, t)
    ensures DrivenTo(r, t, OnTick(r, t))
    ensures Dt(r, t) == if r.lastTick > 0.0 then t.now - r.lastTick else 0.2
  {
    var q, dt := Stepped(r, t), Dt(r, t);
    DrivesNowIff(r, t);
    SteppedIs(r, t);
    DriveEnds(q);
    TrackLost(r, t, q);
    CheckTrackKeeps(q);
    ArriveKeeps(CheckTrack(q));
    DrivenEnd(r, t, q, Arrive(CheckTrack(q)));
  }

  lemma DrivenEnd(r: Robot, t: TickInput, q: Robot, a: Robot)
    requires q == Stepped(r, t) && a.configured && Inv(a) && !r.estop
    requires var off, there := LosesTrack(r, t), Arrived(q);
             && a == q.(pose := if there then q.goal else q.pose,
                        taskStatus := if there then Done else if off then Failed else Executing,
                        navStatus := if there then NavIdle else if off then NavFailed else q.navStatus,
                        stuckS := if there then 0.0 else q.stuckS, stuckCount := if there then 0 else q.stuckCount,
                        faults := if off then q.faults + [LostTrack()] else q.faults,
                        phase := a.phase, controlEnabled := a.controlEnabled, robotNode := a.robotNode)
             && a.phase == (if off then Fault else if !there then Running else if HasWarn(q) then Degraded else Idle)
    ensures DrivenTo(r, t, CheckBattery(Drain(a, 0.05, Dt(r, t))))
  {
    BatteryOf(a, 0.05, Dt(r, t));
    WarnsTheSame(r, a, 0.05, Dt(r, t));
    WarnPhase(a, Dt(r, t));
    assert r.faults + [] == r.faults && a.faults + [] == a.faults;
  }

  /**
   Arrival: a driving tick ends with the task DONE exactly when its step ends within 0.22 m of the goal. Then the
   robot is at the goal and no longer RUNNING, with navigation idle and the stuck timers at zero; and IDLE unless a
   warning or an error is up.
   */
  lemma ArrivesIff(r: Robot, t: TickInput)
    requires r.configured && Inv(r) && TickInputOk(r, t) && DrivesNow(r, t)
    ensures var s, mid := OnTick(r, t), MidPose(r, t);
            && (s.taskStatus == Done <==> LineOfSight.SqDist(mid, r.goal) < 0.22 * 0.22)
            && (s.taskStatus == Done ==>
                  && s.pose == r.goal && s.phase != Running && s.navStatus == NavIdle
                  && s.stuckS == 0.0 && s.stuckCount == 0
                  && (s.phase == Idle <==> !HasError(s) && !HasWarn(s)))
            && (s.taskStatus != Done ==> s.pose == mid)
  {
    DrivenTick(r, t);
    SteppedIs(r, t);
    DrivesNowIff(r, t);
    MoveOf(r, Refresh(r, t), t);
    TickKeeps(r, t);
    FaultsDecide(r, t, OnTick(r, t));
  }

  /** The phase after a driving tick speaks of the faults after it. */
  lemma FaultsDecide(r: Robot, t: TickInput, s: Robot)
    requires s.configured && Inv(s) && DrivenTo(r, t, s)
    ensures s.phase == Idle <==> Reaches(r, t) && !HasError(s) && !HasWarn(s)
  {
    var f := r.faults + [LostTrack()] + (if WarnsNow(r, 0.05, Dt(r, t)) then [LowBattery()] else []);
    if LosesTrack(r, t) {
      assert f[|r.faults|] == LostTrack();
    }
  }

  // ----- a tick that does not drive -----

  /** Waiting for the end of initialisation. */
  predicate Waits(r: Robot, t: TickInput) {
    r.phase == Initializing && t.now < r.idleAt
  }

  /** What the phase of a robot that is not running says. */
  function RestPhase(r: Robot, waits: bool): Phase {
    if r.estop then Estop
    else if waits then Initializing
    else if HasError(r) then Fault
    else if HasWarn(r) then Degraded
    else Idle
  }

  lemma RefreshPhase(r: Robot, t: TickInput)
    requires r.configured && Inv(r) && r.active && !DrivesNow(r, t)
    ensures Refresh(r, t).phase == RestPhase(r, Waits(r, t))
  {
    if Stale(r, t.nowMs) && r.phase == Running {
      RefreshStopped(r, t);
      StoppedPhase(r, t);
    } else {
      var k := r.(lastTick := t.now, consoleOnline := r.consoleOnline && !Stale(r, t.nowMs),
                  bridgeNode := if Stale(r, t.nowMs) then Warn else r.bridgeNode);
      assert CheckLink(r.(lastTick := t.now), t.nowMs) == k;
    }
  }

  lemma StoppedPhase(r: Robot, t: TickInput)
    requires r.configured && Inv(r) && Stale(r, t.nowMs) && r.phase == Running
    ensures Refresh(r, t).phase == if HasWarn(r) then Degraded else Idle
  {
    var off := r.(lastTick := t.now, consoleOnline := false, bridgeNode := Warn);
    assert CheckLink(r.(lastTick := t.now), t.nowMs) == SafetyStop(off);
    StoppedStatus(off);
    EndInitStatus(SafetyStop(off), t.now);
  }

  /** What a tick that does not drive comes to. */
  ghost predicate RestsAt(r: Robot, t: TickInput, s: Robot) {
    var lost := Stale(r, t.nowMs);
    var rate := if RestPhase(r, Waits(r, t)) == Idle then 0.02 else 0.0;
    && s.lastTick == t.now && s.pose == r.pose && s.navMap == r.navMap && s.navPath == r.navPath
    && s.navIdx == r.navIdx && s.navStatus == r.navStatus && s.stuckS == r.stuckS && s.stuckCount == r.stuckCount
    && (s.consoleOnline <==> r.consoleOnline && !lost) && s.bridgeNode == (if lost then Warn else r.bridgeNode)
    && s.taskStatus == (if lost && r.phase == Running then Failed else r.taskStatus)
    && s.taskType == (if lost && r.phase == Running then NoTask else r.taskType)
    && s.taskId == r.taskId && s.goal == r.goal && s.estop == r.estop && s.mode == r.mode
    && s.configured == r.configured && s.active == r.active && s.lastConsoleMs == r.lastConsoleMs
    && s.taskSeq == r.taskSeq && s.idleAt == r.idleAt
    && s.battery == ChargeAfter(r, rate, Dt(r, t))
    && s.faults == r.faults + (if WarnsNow(r, rate, Dt(r, t)) then [LowBattery()] else [])
    && s.phase == RestPhase(s, Waits(r, t))
  }

  lemma RestingTick(r: Robot, t: TickInput)
    requires r.configured && Inv(r) && TickInputOk(r, t) && r.active && !DrivesNow(r, t)
    ensures RestsAt(r, t, OnTick(r, t))
  {
    var s := Refresh(r, t);
    DrivesNowIff(r, t);
    RefreshOf(r, t);
    RefreshStatus(r, t);
    RefreshPhase(r, t);
    RefreshKeeps(r, t);
    RestingEnd(r, t, s, if RestPhase(r, Waits(r, t)) == Idle then 0.02 else 0.0);
  }

  lemma RestingEnd(r: Robot, t: TickInput, s: Robot, rate: real)
    requires s.configured && Inv(s)
    requires s == r.(lastTick := t.now, consoleOnline := s.consoleOnline, bridgeNode := s.bridgeNode, phase := s.phase,
                     controlEnabled := s.controlEnabled, robotNode := s.robotNode, taskStatus := s.taskStatus,
                     taskType := s.taskType)
    requires s.phase == RestPhase(r, Waits(r, t))
    ensures var u := CheckBattery(Drain(s, rate, Dt(r, t)));
            && u == s.(battery := ChargeAfter(r, rate, Dt(r, t)), phase := u.phase, controlEnabled := u.controlEnabled,
                       robotNode := u.robotNode,
                       faults := r.faults + (if WarnsNow(r, rate, Dt(r, t)) then [LowBattery()] else []))
            && u.phase == RestPhase(u, Waits(r, t))
  {
    BatteryOf(s, rate, Dt(r, t));
    DrainKeeps(s, rate, Dt(r, t));
    assert WarnsNow(s, rate, Dt(r, t)) == WarnsNow(r, rate, Dt(r, t));
  }

  /** So only a driving tick makes a task DONE. */
  lemma OnlyArrivalIsDone(r: Robot, t: TickInput)
    requires r.configured && Inv(r) && TickInputOk(r, t) && !DrivesNow(r, t)
    ensures OnTick(r, t).taskStatus == Done ==> r.taskStatus == Done
  {
    if r.active {
      RestingTick(r, t);
    }
  }

  // ----- what a tick reports -----

  /** The robot node's health says what the phase says. */
  predicate NodeSays(s: Robot) {
    && (s.phase == Fault ==> s.robotNode == Error)
    && (s.phase == Degraded ==> s.robotNode == Warn)
    && (s.phase == Idle ==> s.robotNode == Ok)
  }

  lemma RecomputeSays(r: Robot)
    ensures NodeSays(Recompute(r)) || Starting(r) || r.estop
    ensures r.estop ==> Recompute(r).robotNode == r.robotNode
    ensures Recompute(r).estop == r.estop
  {
  }

  lemma RefreshSays(r: Robot, t: TickInput)
    ensures var s := Refresh(r, t); NodeSays(s) || Starting(s) || s.estop
    ensures r.estop ==> Refresh(r, t).robotNode == r.robotNode
    ensures Refresh(r, t).estop == r.estop
  {
    var k := CheckLink(r.(lastTick := t.now), t.nowMs);
    LinkSays(r.(lastTick := t.now), t.nowMs);
    RecomputeSays(k.(phase := if k.phase == Initializing && t.now >= k.idleAt then Idle else k.phase));
  }

  lemma LinkSays(r: Robot, nowMs: nat)
    ensures CheckLink(r, nowMs).estop == r.estop
    ensures r.estop ==> CheckLink(r, nowMs).robotNode == r.robotNode
  {
  }

  lemma TrackSays(r: Robot)
    requires !r.estop && NodeSays(r)
    ensures NodeSays(CheckTrack(r)) && !CheckTrack(r).estop
  {
    RecomputeSays(AddFault(r.(taskStatus := Failed, phase := Idle, navStatus := NavFailed),
                           TaskFailed, ErrorLevel, "tracking error too large"));
  }

  lemma ArriveSays(r: Robot)
    requires !r.estop && NodeSays(r)
    ensures NodeSays(Arrive(r)) && !Arrive(r).estop
  {
  }

  lemma DriveSays(s: Robot, t: TickInput, dt: real)
    requires Drives(s)
    ensures NodeSays(Drive(s, t, dt)) && !Drive(s, t, dt).estop
  {
    if s.navPath != [] {
      var q := Replan(Move(s, t, dt), t);
      TrackSays(q);
      ArriveSays(CheckTrack(q));
    }
  }

  lemma BatterySays(r: Robot)
    requires NodeSays(r) || Starting(r) || r.estop
    ensures var s := CheckBattery(r);
            && (NodeSays(s) || Starting(s) || s.estop) && s.estop == r.estop
            && (r.estop ==> s.robotNode == r.robotNode)
  {
    var s := r.(battery := if r.battery < 0.0 then 0.0 else r.battery);
    RecomputeSays(AddFault(s, BatteryLow, WarnLevel, "battery below 15%"));
  }

  /** After a tick of an active robot its node is reported as ERROR in FAULT, WARN when degraded and OK when idle; under
      ESTOP the report stays as it was. */
  lemma TickReports(r: Robot, t: TickInput)
    requires r.configured && Inv(r) && TickInputOk(r, t) && r.active
    ensures var s := OnTick(r, t);
            && (s.phase == Fault ==> s.robotNode == Error)
            && (s.phase == Degraded ==> s.robotNode == Warn)
            && (s.phase == Idle ==> s.robotNode == Ok)
            && (s.phase == Running ==> s.robotNode in {Ok, Warn})
            && (s.estop ==> s.robotNode == r.robotNode)
            && (s.controlEnabled <==> s.phase == Idle && s.consoleOnline)
  {
    var s, dt := Refresh(r, t), Dt(r, t);
    RefreshSays(r, t);
    if Drives(s) {
      DriveSays(s, t, dt);
    }
    BatterySays(Advance(s, t, dt));
    TickKeeps(r, t);
    Settled(OnTick(r, t));
  }

  lemma Settled(s: Robot)
    requires s.configured && Inv(s) && (NodeSays(s) || Starting(s) || s.estop)
    ensures s.estop || NodeSays(s)
    ensures s.estop ==> s.phase !in {Fault, Degraded, Idle, Running}
    ensures s.phase == Running ==> s.robotNode in {Ok, Warn}
    ensures s.controlEnabled <==> s.phase == Idle && s.consoleOnline
  {
  }
}
