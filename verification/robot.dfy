/**
 The robot node itself: its fields, gathered in the record `st`, and the callbacks that update them
 in place. Each callback keeps the robot's invariant, is proved to be the corresponding function of
 `RobotState`, and promises what holds of that kind of step.
 */
module RobotNode {
  import opened GridMaps
  import opened RobotState
  import opened RobotInvariant
  import opened RobotSteps
  import opened RobotText
  import opened RobotTicks
  import opened Wrappers
  import opened Decimals
  import Envelope
  import Corridor
  import LineOfSight
  import Planner
  import Pursuit

  /** Rebuild the map and plan on it; the index is advanced past what is behind. */
  method PlanAfresh(hypot: (real, real) -> real, radius: int, pose: Point, goal: Point)
    returns (m: Occupancy, plan: seq<Point>, idx: nat)
    ensures m == Corridor.NavMap(radius) && Planner.AstarResult(m, pose, goal, plan)
    ensures plan != [] ==> idx < |plan| && Pursuit.Advanced(hypot, plan, 0, pose, idx)
  {
    idx := 0;
    m := Corridor.BuildNavMap(radius);
    plan := Planner.Astar(m, pose, goal);
    if plan != [] {
      idx := Pursuit.AdvanceIdx(hypot, plan, 0, pose);
    }
  }

  /** What a driving tick asked and was told: the pursuit law with a lookahead of 0.45 m, and, if it planned
      afresh, how far to advance on the new path. */
  ghost predicate Asked(hypot: (real, real) -> real, sin: real -> real, atan2: (real, real) -> real,
                        s: Robot, t: TickInput, dt: real) {
    && Pursuit.Pursued(hypot, sin, atan2, s.navMap, s.pose, t.cosYaw, t.sinYaw, s.navPath, s.navIdx, 0.45,
                       t.idx, t.v, t.w)
    && (t.plan != [] ==> Pursuit.Advanced(hypot, t.plan, 0, Move(s, t, dt).pose, t.planIdx))
  }

  lemma AskedSo(hypot: (real, real) -> real, sin: real -> real, atan2: (real, real) -> real,
                s: Robot, t1: TickInput, t: TickInput, dt: real)
    requires t == t1.(plan := t.plan, planIdx := t.planIdx)
    requires Pursuit.Pursued(hypot, sin, atan2, s.navMap, s.pose, t1.cosYaw, t1.sinYaw, s.navPath, s.navIdx, 0.45,
                             t1.idx, t1.v, t1.w)
    requires t.plan != [] ==> Pursuit.Advanced(hypot, t.plan, 0, Move(s, t, dt).pose, t.planIdx)
    ensures Asked(hypot, sin, atan2, s, t, dt)
  {
  }

  lemma Outcomes(r: Robot, t: TickInput)
    requires r.configured && Inv(r) && TickInputOk(r, t)
    ensures DrivesNow(r, t) ==> DrivenTo(r, t, OnTick(r, t))
    ensures r.active && !DrivesNow(r, t) ==> RestsAt(r, t, OnTick(r, t))
  {
    if DrivesNow(r, t) {
      DrivenTick(r, t);
    } else if r.active {
      RestingTick(r, t);
    }
  }

  class FakeRobot {
    var st: Robot

    ghost predicate Valid()
      reads this
    {
      Inv(st)
    }

    /** The node as its constructor leaves it. */
    constructor ()
      ensures Valid() && st == Fresh()
    {
      st := Fresh();
    }

    // ----- conditions -----

    method HasErrorCondition() returns (b: bool)
      ensures b == HasError(st)
    {
      for i := 0 to |st.faults|
        invariant forall k :: 0 <= k < i ==> !(st.faults[k].active && st.faults[k].level == ErrorLevel)
      {
        if st.faults[i].active && st.faults[i].level == ErrorLevel {
          return true;
        }
      }
      return st.robotNode == Error || st.robotNode == Lost;
    }

    method HasWarnCondition() returns (b: bool)
      ensures b == HasWarn(st)
    {
      for i := 0 to |st.faults|
        invariant forall k :: 0 <= k < i ==> !(st.faults[k].active && st.faults[k].level == WarnLevel)
      {
        if st.faults[i].active && st.faults[i].level == WarnLevel {
          return true;
        }
      }
      return st.robotNode == Warn;
    }

    method RecomputePhaseAndControl()
      modifies this
      ensures st == Recompute(old(st))
    {
      RecomputeCases(st);
      if st.estop {
        st := st.(phase := Estop, controlEnabled := false);
        return;
      }
      if st.phase == Boot || st.phase == Initializing {
        st := st.(controlEnabled := false);
        return;
      }
      var error := HasErrorCondition();
      if error {
        if st.phase == Running {
          st := st.(taskStatus := Failed);
        }
        st := st.(phase := Fault, controlEnabled := false, robotNode := Error);
        return;
      }
      var warn := HasWarnCondition();
      if warn {
        if st.phase != Running {
          st := st.(phase := Degraded);
        }
        st := st.(controlEnabled := false, robotNode := Warn);
        return;
      }
      st := st.(robotNode := Ok);
      if st.phase == Fault || st.phase == Degraded || st.phase == Estop {
        st := st.(phase := Idle);
      }
      if st.phase == Idle {
        st := st.(controlEnabled := st.consoleOnline);
      } else if st.phase == Running {
        st := st.(controlEnabled := false);
      }
    }

    method ApplySafetyStop()
      modifies this
      ensures st == SafetyStop(old(st))
    {
      FailTask();
      if st.phase == Running {
        st := st.(phase := Idle);
      }
      st := st.(taskType := NoTask);
      RecomputePhaseAndControl();
      if !st.consoleOnline {
        st := st.(controlEnabled := false);
      }
    }

    method FailTask()
      modifies this
      ensures st == old(st).(taskStatus := StopTask(old(st).taskStatus))
    {
      if st.taskStatus == Executing || st.taskStatus == Accepted {
        st := st.(taskStatus := Failed);
      }
    }

    method PushFault(code: Code, level: Level, detail: string)
      modifies this
      ensures st == AddFault(old(st), code, level, detail)
    {
      st := st.(faults := st.faults + [FaultItem(code, level, detail, true)]);
    }

    method DropFaults()
      modifies this
      ensures st == ClearFaults(old(st))
    {
      st := st.(faults := []);
      if st.robotNode == Error || st.robotNode == Warn || st.robotNode == Lost {
        st := st.(robotNode := Ok);
      }
    }

    // ----- lifecycle -----

    method Configure()
      requires Valid() && !st.configured
      modifies this
      ensures Valid() && st.configured
      ensures st == OnConfigure(old(st))
    {
      st := st.(phase := Initializing, controlEnabled := false, estop := false, consoleOnline := false);
      st := st.(battery := 100.0, pose := Point(1.25, 0.0), taskStatus := NoStatus, taskId := "", taskType := NoTask);
      st := st.(navPath := [], navStatus := NavIdle);
      DropFaults();
      st := st.(robotNode := Ok, bridgeNode := Ok, configured := true);
    }

    method Activate(now: real)
      requires Valid() && st.configured
      modifies this
      ensures Valid() && st.configured
      ensures st == OnActivate(old(st), now)
    {
      st := st.(active := true, phase := Initializing, controlEnabled := false, idleAt := now + 0.5, lastTick := now);
    }

    method Deactivate()
      requires Valid() && st.configured
      modifies this
      ensures Valid() && st.configured
      ensures st == OnDeactivate(old(st))
    {
      st := st.(active := false, controlEnabled := false, phase := Initializing);
    }

    method Cleanup()
      requires Valid() && st.configured
      modifies this
      ensures Valid() && !st.configured
      ensures st == OnCleanup(old(st))
    {
      st := st.(configured := false, phase := Boot, active := false);
    }

    // ----- console link -----

    method OnConsole(online: bool, nowMs: nat)
      requires Valid() && st.configured
      modifies this
      ensures Valid() && st.configured
      ensures st == RobotState.OnConsole(old(st), online, nowMs)
      ensures ConsoleFacts(old(st), online, nowMs, st)
    {
      ConsoleKeeps(st, online, nowMs);
      ConsoleFactsHold(st, online, nowMs);
      ConsoleMessage(online, nowMs);
    }

    method ConsoleMessage(online: bool, nowMs: nat)
      modifies this
      ensures st == RobotState.OnConsole(old(st), online, nowMs)
    {
      st := st.(consoleOnline := online);
      if online {
        st := st.(lastConsoleMs := nowMs, bridgeNode := Ok);
      } else {
        st := st.(bridgeNode := Warn);
        if st.phase == Running {
          ApplySafetyStop();
        }
      }
      RecomputePhaseAndControl();
      if !st.consoleOnline {
        st := st.(controlEnabled := false);
      }
    }

    // ----- tick -----

    method CheckHeartbeat(nowMs: nat)
      modifies this
      ensures st == CheckLink(old(st), nowMs)
    {
      if st.consoleOnline && st.lastConsoleMs > 0 && (nowMs - st.lastConsoleMs) % U64 > STALE_MS {
        st := st.(consoleOnline := false, bridgeNode := Warn);
        if st.phase == Running {
          ApplySafetyStop();
        }
      }
    }

    method RefreshLink(now: real, nowMs: nat, ghost t: TickInput)
      requires t.now == now && t.nowMs == nowMs
      modifies this
      ensures st == Refresh(old(st), t)
    {
      st := st.(lastTick := now);
      CheckHeartbeat(nowMs);
      if st.phase == Initializing && now >= st.idleAt {
        st := st.(phase := Idle);
      }
      RecomputePhaseAndControl();
    }

    /** Apply the command under the collision guard, and keep the stuck timer. */
    method StepPose(v: real, w: real, cosYaw: real, sinYaw: real, idx: nat, dt: real, ghost t: TickInput)
      requires t.v == v && t.w == w && t.cosYaw == cosYaw && t.sinYaw == sinYaw && t.idx == idx
      modifies this
      ensures st == Move(old(st), t, dt)
    {
      st := st.(navIdx := idx);
      var before := st.pose;
      var next := Target(st.pose, v, cosYaw, sinYaw, dt);
      var collided := false;
      if !FinalCreep(st, next) && !LineOfSight.IsFree(st.navMap, next) {
        collided := true;
        next := st.pose;
      }
      st := st.(pose := next, taskStatus := Executing, navStatus := Tracking);
      var translating := Translates(before, st.pose, dt);
      var aligning := !collided && Pursuit.AbsR(w) > 0.05 && !translating;
      st := st.(stuckS := if translating || aligning then 0.0 else st.stuckS + dt);
    }

    method ReplanIfStuck(hypot: (real, real) -> real, ghost t: TickInput) returns (plan: seq<Point>, idx: nat)
      modifies this
      ensures Stuck(old(st)) ==> ReplanOk(old(st), plan, idx)
      ensures plan != [] ==> Pursuit.Advanced(hypot, plan, 0, old(st).pose, idx)
      ensures st == Replan(old(st), t.(plan := plan, planIdx := idx))
    {
      plan, idx := [], 0;
      if st.stuckS > 1.2 {
        var m;
        m, plan, idx := CountAndPlan(hypot);
        FollowPlan(m, plan, idx);
      }
    }

    method CountAndPlan(hypot: (real, real) -> real) returns (m: Occupancy, plan: seq<Point>, idx: nat)
      modifies this
      ensures st == CountStuck(old(st)) && m == Corridor.NavMap(ReplanRadius(old(st).stuckCount + 1))
      ensures ReplanOk(old(st), plan, idx)
      ensures plan != [] ==> Pursuit.Advanced(hypot, plan, 0, old(st).pose, idx)
    {
      var radius := CountUp();
      m, plan, idx := PlanAfresh(hypot, radius, st.pose, st.goal);
      ReplanAnswered(old(st), m, plan, idx);
    }

    /** The stuck counter decides how thick a body the replan assumes. */
    method CountUp() returns (radius: int)
      modifies this
      ensures st == CountStuck(old(st)) && radius == ReplanRadius(old(st).stuckCount + 1)
    {
      st := st.(stuckS := 0.0, stuckCount := st.stuckCount + 1);
      radius := if st.stuckCount >= 3 then 0 else 1;
    }

    method FollowPlan(m: Occupancy, plan: seq<Point>, idx: nat)
      modifies this
      ensures st == Following(old(st), m, plan, idx)
    {
      st := st.(navMap := m);
      if plan != [] {
        st := st.(navPath := plan, navIdx := idx, navStatus := Tracking);
      }
    }

    method CheckTracking()
      modifies this
      ensures st == CheckTrack(old(st))
    {
      if st.navIdx < |st.navPath| {
        var j := if st.navIdx + 1 < |st.navPath| - 1 then st.navIdx + 1 else |st.navPath| - 1;
        var off := FarFromLine(st.pose, st.navPath[st.navIdx], st.navPath[j]);
        if off {
          st := st.(taskStatus := Failed, phase := Idle, navStatus := NavFailed);
          PushFault(TaskFailed, ErrorLevel, "tracking error too large");
          RecomputePhaseAndControl();
        }
      }
    }

    method CheckArrival()
      modifies this
      ensures st == Arrive(old(st))
    {
      if LineOfSight.SqDist(st.pose, st.goal) < 0.22 * 0.22 {
        st := st.(pose := st.goal, taskStatus := Done, phase := Idle, navStatus := NavIdle, stuckS := 0.0);
        st := st.(stuckCount := 0);
        RecomputePhaseAndControl();
      }
    }

    method WatchBattery()
      modifies this
      ensures st == CheckBattery(old(st))
    {
      if st.battery < 0.0 {
        st := st.(battery := 0.0);
      }
      if st.battery < 15.0 {
        var low := false;
        var i := 0;
        while i < |st.faults| && !low
          invariant 0 <= i <= |st.faults|
          invariant low ==> LowBatteryReported(st.faults)
          invariant !low ==> forall k :: 0 <= k < i ==> !(st.faults[k].code == BatteryLow && st.faults[k].active)
        {
          if st.faults[i].code == BatteryLow && st.faults[i].active {
            low := true;
          }
          i := i + 1;
        }
        if !low {
          PushFault(BatteryLow, WarnLevel, "battery below 15%");
          RecomputePhaseAndControl();
        }
      }
    }

    /** The driving branch, once the link has been checked. */
    method DriveTick(hypot: (real, real) -> real, sin: real -> real, atan2: (real, real) -> real,
                     cosYaw: real, sinYaw: real, dt: real, ghost t0: TickInput)
      returns (ghost t: TickInput)
      requires t0.cosYaw == cosYaw && t0.sinYaw == sinYaw
      modifies this
      ensures t == t0.(v := t.v, w := t.w, idx := t.idx, plan := t.plan, planIdx := t.planIdx)
      ensures st == Drive(old(st), t, dt)
      ensures old(st).navPath != [] ==> DriveInputOk(old(st), t, dt) && Asked(hypot, sin, atan2, old(st), t, dt)
    {
      t := t0;
      if st.navPath != [] {
        var idx, v, w := Pursuit.PurePursuit(hypot, sin, atan2, st.navMap, st.pose, cosYaw, sinYaw, st.navPath,
                                             st.navIdx, 0.45);
        ghost var t1 := t0.(v := v, w := w, idx := idx);
        StepPose(v, w, cosYaw, sinYaw, idx, dt, t1);
        var plan, planIdx := ReplanIfStuck(hypot, t1);
        t := t1.(plan := plan, planIdx := planIdx);
        SameMove(old(st), t1, t, dt);
        AskedSo(hypot, sin, atan2, old(st), t1, t, dt);
        CheckTracking();
        CheckArrival();
      } else {
        st := st.(taskStatus := Failed, phase := Idle, navStatus := NavFailed);
        RecomputePhaseAndControl();
      }
    }

    method DriveOrIdle(hypot: (real, real) -> real, sin: real -> real, atan2: (real, real) -> real,
                       cosYaw: real, sinYaw: real, dt: real, ghost t0: TickInput)
      returns (ghost t: TickInput)
      requires t0.cosYaw == cosYaw && t0.sinYaw == sinYaw
      modifies this
      ensures t == t0.(v := t.v, w := t.w, idx := t.idx, plan := t.plan, planIdx := t.planIdx)
      ensures st == Advance(old(st), t, dt)
      ensures AnswersOk(old(st), t, dt)
      ensures Drives(old(st)) && old(st).navPath != [] ==> Asked(hypot, sin, atan2, old(st), t, dt)
    {
      t := t0;
      if !st.estop && st.phase == Running && st.taskType == Goto {
        t := DriveTick(hypot, sin, atan2, cosYaw, sinYaw, dt, t0);
        st := st.(battery := st.battery - 0.05 * dt);
      } else if !st.estop && st.phase == Idle {
        st := st.(battery := st.battery - 0.02 * dt);
      }
    }

    /** The timer callback of an active node. */
    method ActiveTick(hypot: (real, real) -> real, sin: real -> real, atan2: (real, real) -> real,
                      cosYaw: real, sinYaw: real, dt: real, ghost t0: TickInput, now: real, nowMs: nat)
      returns (ghost t: TickInput)
      requires t0.cosYaw == cosYaw && t0.sinYaw == sinYaw && t0.now == now && t0.nowMs == nowMs
      modifies this
      ensures t == t0.(v := t.v, w := t.w, idx := t.idx, plan := t.plan, planIdx := t.planIdx)
      ensures st == CheckBattery(Advance(Refresh(old(st), t0), t, dt))
      ensures AnswersOk(Refresh(old(st), t0), t, dt)
      ensures Drives(Refresh(old(st), t0)) && Refresh(old(st), t0).navPath != [] ==>
                Asked(hypot, sin, atan2, Refresh(old(st), t0), t, dt)
    {
      RefreshLink(now, nowMs, t0);
      t := DriveOrIdle(hypot, sin, atan2, cosYaw, sinYaw, dt, t0);
      WatchBattery();
    }

    /** The timer callback. The ghost result says which outside values it saw. */
    method Tick(hypot: (real, real) -> real, sin: real -> real, atan2: (real, real) -> real,
                cosYaw: real, sinYaw: real, now: real, nowMs: nat)
      returns (ghost t: TickInput)
      requires Valid() && st.configured
      requires cosYaw * cosYaw + sinYaw * sinYaw == 1.0 && now >= st.lastTick && nowMs < CLOCK_END
      modifies this
      ensures Valid() && st.configured
      ensures t.now == now && t.nowMs == nowMs && t.cosYaw == cosYaw && t.sinYaw == sinYaw
      ensures TickInputOk(old(st), t)
      ensures var s := Refresh(old(st), t);
              old(st).active && Drives(s) && s.navPath != [] ==>
                Asked(hypot, sin, atan2, s, t, Dt(old(st), t))
      ensures st == OnTick(old(st), t)
      ensures DrivesNow(old(st), t) ==> DrivenTo(old(st), t, st)
      ensures old(st).active && !DrivesNow(old(st), t) ==> RestsAt(old(st), t, st)
      ensures TickFacts(old(st), t, st)
      ensures GuardedMotion(old(st).navMap, old(st).pose, old(st).goal, Dt(old(st), t), MidPose(old(st), t), st.pose)
    {
      ghost var r := st;
      t := TimerTick(hypot, sin, atan2, cosYaw, sinYaw, now, nowMs);
      TickKeeps(r, t);
      TickFactsHold(r, t);
      MotionGuard(r, t);
      Outcomes(r, t);
    }

    method TimerTick(hypot: (real, real) -> real, sin: real -> real, atan2: (real, real) -> real,
                     cosYaw: real, sinYaw: real, now: real, nowMs: nat)
      returns (ghost t: TickInput)
      requires cosYaw * cosYaw + sinYaw * sinYaw == 1.0 && now >= st.lastTick && nowMs < CLOCK_END
      modifies this
      ensures t.now == now && t.nowMs == nowMs && t.cosYaw == cosYaw && t.sinYaw == sinYaw
      ensures TickInputOk(old(st), t)
      ensures var s := Refresh(old(st), t);
              old(st).active && Drives(s) && s.navPath != [] ==>
                Asked(hypot, sin, atan2, s, t, Dt(old(st), t))
      ensures st == OnTick(old(st), t)
    {
      t := TickInput(now, nowMs, cosYaw, sinYaw, 0.0, 0.0, st.navIdx, [], 0);
      if !st.active {
        return;
      }
      var dt := 0.2;
      if st.lastTick > 0.0 {
        dt := now - st.lastTick;
      }
      ghost var r, t0 := st, t;
      t := ActiveTick(hypot, sin, atan2, cosYaw, sinYaw, dt, t0, now, nowMs);
      TickInputSeen(r, t0, t, Refresh(r, t0), dt);
      SameRefresh(r, t0, t);
      SameDt(r, t0, t);
      TickDone(r, t0, t, dt);
    }

    // ----- commands -----

    method EmergencyStop()
      modifies this
      ensures st == DoEstop(old(st))
    {
      st := st.(estop := true, phase := Estop, controlEnabled := false);
      if st.taskStatus == Executing || st.taskStatus == Accepted {
        st := st.(taskStatus := Failed);
      }
      var known := false;
      var i := 0;
      while i < |st.faults| && !known
        invariant 0 <= i <= |st.faults|
        invariant known ==> HasCode(st.faults, EstopActive)
        invariant !known ==> forall k :: 0 <= k < i ==> st.faults[k].code != EstopActive
      {
        if st.faults[i].code == EstopActive {
          known := true;
        }
        i := i + 1;
      }
      if !known {
        PushFault(EstopActive, WarnLevel, "software estop engaged");
      }
    }

    method HasBlockingFault() returns (b: bool)
      ensures b == HasBlocking(st.faults)
    {
      for i := 0 to |st.faults|
        invariant forall k :: 0 <= k < i ==> !Blocking(st.faults[k])
      {
        var f := st.faults[i];
        if f.code == EstopActive || f.code == BatteryLow || f.code == TaskFailed {
          continue;
        }
        if f.level == ErrorLevel {
          return true;
        }
      }
      return false;
    }

    method Reset()
      modifies this
      ensures st == DoReset(old(st))
    {
      st := st.(estop := false);
      DropFaults();
      st := st.(bridgeNode := if st.consoleOnline then Ok else Warn, phase := Idle, mode := Teleop);
      st := st.(taskStatus := NoStatus, taskId := "", taskType := NoTask);
      RecomputePhaseAndControl();
      st := st.(controlEnabled := st.consoleOnline && st.phase == Idle);
    }

    method Cancel()
      modifies this
      ensures st == DoCancel(old(st))
    {
      st := st.(taskStatus := NoStatus, taskId := "", taskType := NoTask, navPath := [], navStatus := NavIdle);
      st := st.(stuckS := 0.0, stuckCount := 0);
      if st.phase == Running {
        st := st.(phase := Idle);
      }
      RecomputePhaseAndControl();
    }

    method InjectFault(detail: string)
      modifies this
      ensures st == DoInject(old(st), detail)
    {
      PushFault(NodeTimeout, ErrorLevel, detail);
      st := st.(robotNode := Error);
      if st.taskStatus == Executing || st.taskStatus == Accepted {
        st := st.(taskStatus := Failed);
      }
      RecomputePhaseAndControl();
    }

    method ClearFault()
      modifies this
      ensures st == DoClear(old(st))
    {
      DropFaults();
      st := st.(bridgeNode := if st.consoleOnline then Ok else Warn);
      RecomputePhaseAndControl();
      EndFault();
    }

    method EndFault()
      modifies this
      ensures st == LeaveFault(old(st))
    {
      var error := HasErrorCondition();
      if st.phase == Fault && !error {
        st := st.(phase := Idle);
      }
      st := st.(controlEnabled := st.consoleOnline && st.phase == Idle && !st.estop);
    }

    method StartGoto(c: Command) returns (reply: Reply, plan: seq<Point>)
      requires c.GotoCmd? && !Blocked(st)
      modifies this
      ensures PlanOk(old(st), c, plan)
      ensures st == DoGoto(old(st), c, plan)
      ensures reply == GotoReply(old(st), c, plan)
    {
      plan := [];
      if st.phase == Running {
        GotoBusy(st, c);
        return Reject(PhaseBusy, c.id), [];
      }
      var p := Point(if c.x.Some? then c.x.value else st.pose.x, if c.y.Some? then c.y.value else st.pose.y);
      if p.x < 0.0 || p.x > 20.0 || p.y < -5.0 || p.y > 5.0 {
        GotoOutOfRange(st, c);
        return Reject(InvalidPayload, c.id), [];
      }
      var id := TakeId(c);
      if st.taskId != "" && st.taskId == id && st.taskStatus == Done {
        GotoRepeats(old(st), c, st, id);
        return Reply(true, DoneReply, NoReason, id), [];
      }
      ghost var counted := st;
      reply, plan := Launch(id, p);
      Launched(old(st), c, counted, id, p, plan);
    }

    /** The command's own id, or the next automatic one. */
    method TakeId(c: Command) returns (id: string)
      requires c.GotoCmd?
      modifies this
      ensures st == CountId(old(st), c) && id == GotoId(old(st), c)
    {
      id := c.id;
      if id == "" {
        st := st.(taskSeq := st.taskSeq + 1);
        id := "T-" + Decimal(st.taskSeq);
      }
    }

    /** Plan, and start RUNNING unless there is no path. */
    method Launch(id: string, p: Point) returns (reply: Reply, plan: seq<Point>)
      modifies this
      ensures Planner.AstarResult(Corridor.NavMap(1), old(st).pose, p, plan)
      ensures st == if plan == [] then NoRoute(old(st)) else StartTask(old(st), id, p, plan)
      ensures reply == if plan == [] then Reject(UnknownTask, id) else Accept(id)
    {
      var rebuilt := Corridor.BuildNavMap(1);
      st := st.(navMap := rebuilt, navStatus := Planning);
      plan := Planner.Astar(st.navMap, st.pose, p);
      st := st.(navPath := plan);
      if st.navPath == [] {
        st := st.(navStatus := NavFailed);
        PushFault(TaskFailed, ErrorLevel, "A* no path to goal");
        RecomputePhaseAndControl();
        return Reject(UnknownTask, id), plan;
      }
      st := st.(navIdx := 0, navStatus := Tracking, stuckS := 0.0, stuckCount := 0, taskId := id, taskType := Goto);
      st := st.(taskStatus := Accepted, goal := p, phase := Running, controlEnabled := false);
      return Accept(id), plan;
    }

    method Task(c: Command, blocked: bool) returns (reply: Reply, plan: seq<Point>)
      requires blocked == Blocked(st)
      requires c.PauseCmd? || c.CancelCmd? || c.GotoCmd? || c.ResumeCmd? || c.OtherTaskCmd?
      modifies this
      ensures PlanOk(old(st), c, plan)
      ensures st == RobotState.OnCmd(old(st), c, plan)
      ensures reply == CmdReply(old(st), c, plan)
    {
      plan := [];
      if c.PauseCmd? {
        if st.phase == Running {
          st := st.(taskStatus := Accepted, phase := Idle, navStatus := NavIdle);
          RecomputePhaseAndControl();
          return Accept(st.taskId), [];
        }
        return Reject(UnknownTask, c.id), [];
      }
      if c.CancelCmd? {
        Cancel();
        return Accept(""), [];
      }
      if blocked {
        return Reject(if st.estop then EstopReason else PhaseBusy, c.id), [];
      }
      if c.GotoCmd? {
        reply, plan := StartGoto(c);
        return;
      }
      if c.ResumeCmd? {
        var error := HasErrorCondition();
        if st.taskId != "" && st.taskType == Goto && !st.estop && st.phase == Idle && st.consoleOnline && !error &&
           st.navPath != [] {
          st := st.(phase := Running, taskStatus := Executing, navStatus := Tracking, controlEnabled := false);
          return Accept(st.taskId), [];
        }
        return Reject(if st.estop then EstopReason else UnknownTask, c.id), [];
      }
      return Reject(UnknownTask, c.id), [];
    }

    /**
     The command callback, from text to text. A message without a command is ignored; any other is answered
     by exactly one result, in which the bridge reads the message's own number.
     */
    method OnMessage(data: string) returns (results: seq<string>, ghost plan: seq<Point>)
      requires Valid() && st.configured
      modifies this
      ensures Valid() && st.configured
      ensures var name := Envelope.ExtractString(data, "cmd");
              if name.None? then results == [] && st == old(st)
              else
                var c := CommandOf(data, name.value);
                && PlanOk(old(st), c, plan)
                && st == RobotState.OnCmd(old(st), c, plan) && CmdFacts(old(st), c, st)
                && results == [ReplyText(Envelope.ExtractSeq(data), name.value, CmdReply(old(st), c, plan))]
                && Envelope.GetInt(results[0], "seq") == Envelope.ExtractSeq(data)
    {
      plan := [];
      var ok, cmd := Envelope.ExtractStringAt(data, "cmd");
      if !ok {
        return [], [];
      }
      var seqNo := Envelope.ExtractSeq(data);
      var reply;
      reply, plan := OnCmd(CommandOf(data, cmd));
      ReplyNumber(seqNo, cmd, reply);
      results := [ReplyText(seqNo, cmd, reply)];
    }

    method OnCmd(c: Command) returns (reply: Reply, plan: seq<Point>)
      requires Valid() && st.configured
      modifies this
      ensures Valid() && st.configured
      ensures PlanOk(old(st), c, plan)
      ensures st == RobotState.OnCmd(old(st), c, plan)
      ensures reply == CmdReply(old(st), c, plan)
      ensures CmdFacts(old(st), c, st)
    {
      ghost var r := st;
      reply, plan := Perform(c);
      CmdKeeps(r, c, plan);
      CmdFactsHold(r, c, plan);
    }

    method Perform(c: Command) returns (reply: Reply, plan: seq<Point>)
      modifies this
      ensures PlanOk(old(st), c, plan)
      ensures st == RobotState.OnCmd(old(st), c, plan)
      ensures reply == CmdReply(old(st), c, plan)
    {
      plan := [];
      var blocked := st.estop || st.phase == Fault || st.phase == Degraded || st.phase == Boot ||
                     st.phase == Initializing || !st.consoleOnline;
      match c {
        case EstopCmd =>
          EmergencyStop();
          return Accept(""), [];
        case ResetCmd(confirmed) =>
          if !confirmed {
            return Reject(ConfirmRequired, ""), [];
          }
          var blocking := HasBlockingFault();
          if blocking {
            return Reject(PhaseBusy, ""), [];
          }
          Reset();
          return Accept(""), [];
        case ModeCmd(m) =>
          if m.None? {
            return Reject(InvalidPayload, ""), [];
          }
          if m.value == Auto && blocked {
            return Reject(if st.estop then EstopReason else PhaseBusy, ""), [];
          }
          st := st.(mode := m.value);
          return Accept(""), [];
        case InjectCmd(detail) =>
          InjectFault(detail);
          return Accept(""), [];
        case ClearCmd =>
          ClearFault();
          return Accept(""), [];
        case UnknownCmd =>
          return Reject(NotImplemented, ""), [];
        case _ =>
          reply, plan := Task(c, blocked);
      }
    }
  }

  // ----- recompute, case by case -----

  lemma RecomputeCases(r: Robot)
    ensures Recompute(r) ==
            if r.estop then r.(phase := Estop, controlEnabled := false)
            else if Starting(r) then r.(controlEnabled := false)
            else if HasError(r) then
              r.(taskStatus := if r.phase == Running then Failed else r.taskStatus, phase := Fault,
                 controlEnabled := false, robotNode := Error)
            else if HasWarn(r) then
              r.(phase := if r.phase == Running then Running else Degraded, controlEnabled := false, robotNode := Warn)
            else if r.phase == Running then r.(controlEnabled := false, robotNode := Ok)
            else r.(phase := Idle, controlEnabled := r.consoleOnline, robotNode := Ok)
  {
  }

  // ----- the oracle values of a tick -----

  lemma SameMove(r: Robot, t1: TickInput, t: TickInput, dt: real)
    requires t == t1.(plan := t.plan, planIdx := t.planIdx)
    ensures Move(r, t1, dt) == Move(r, t, dt)
  {
  }

  lemma SameRefresh(r: Robot, t0: TickInput, t: TickInput)
    requires t.now == t0.now && t.nowMs == t0.nowMs
    ensures Refresh(r, t) == Refresh(r, t0)
  {
  }

  lemma ReplanAnswered(r: Robot, m: Occupancy, plan: seq<Point>, idx: nat)
    requires m == Corridor.NavMap(ReplanRadius(r.stuckCount + 1))
    requires Planner.AstarResult(m, r.pose, r.goal, plan) && (plan != [] ==> idx < |plan|)
    ensures ReplanOk(r, plan, idx)
  {
  }

  lemma SameDt(r: Robot, t0: TickInput, t: TickInput)
    requires t.now == t0.now
    ensures Dt(r, t) == Dt(r, t0)
  {
  }

  lemma TickInputSeen(r: Robot, t0: TickInput, t: TickInput, s: Robot, dt: real)
    requires SensorsOk(r, t0) && s == Refresh(r, t0) && dt == Dt(r, t0)
    requires t == t0.(v := t.v, w := t.w, idx := t.idx, plan := t.plan, planIdx := t.planIdx)
    requires AnswersOk(s, t, dt)
    ensures TickInputOk(r, t)
  {
    SameRefresh(r, t0, t);
    SameDt(r, t0, t);
  }

  lemma TickDone(r: Robot, t0: TickInput, t: TickInput, dt: real)
    requires r.active && dt == Dt(r, t0) && t.now == t0.now && t.nowMs == t0.nowMs
    ensures OnTick(r, t) == CheckBattery(Advance(Refresh(r, t0), t, dt))
  {
    SameRefresh(r, t0, t);
    SameDt(r, t0, t);
  }

  lemma Launched(r: Robot, c: Command, s: Robot, id: string, p: Point, plan: seq<Point>)
    requires c.GotoCmd? && s == CountId(r, c) && id == GotoId(r, c) && p == GotoPoint(r, c)
    requires r.phase != Running && InRange(p) && !RepeatsDone(s, id)
    requires r.pose == s.pose && Planner.AstarResult(Corridor.NavMap(1), s.pose, p, plan)
    ensures PlanOk(r, c, plan)
    ensures DoGoto(r, c, plan) == if plan == [] then NoRoute(s) else StartTask(s, id, p, plan)
    ensures GotoReply(r, c, plan) == if plan == [] then Reject(UnknownTask, id) else Accept(id)
  {
  }

  lemma GotoBusy(r: Robot, c: Command)
    requires c.GotoCmd? && r.phase == Running
    ensures PlanOk(r, c, []) && DoGoto(r, c, []) == r && GotoReply(r, c, []) == Reject(PhaseBusy, c.id)
  {
  }

  lemma GotoOutOfRange(r: Robot, c: Command)
    requires c.GotoCmd? && r.phase != Running && !InRange(GotoPoint(r, c))
    ensures PlanOk(r, c, []) && DoGoto(r, c, []) == r && GotoReply(r, c, []) == Reject(InvalidPayload, c.id)
  {
  }

  lemma GotoRepeats(r: Robot, c: Command, s: Robot, id: string)
    requires c.GotoCmd? && r.phase != Running && InRange(GotoPoint(r, c))
    requires s == CountId(r, c) && id == GotoId(r, c) && RepeatsDone(s, id)
    ensures PlanOk(r, c, []) && DoGoto(r, c, []) == s && GotoReply(r, c, []) == Reply(true, DoneReply, NoReason, id)
  {
  }
}
