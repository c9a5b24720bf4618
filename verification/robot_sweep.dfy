/**
 The straight way between the two ends of a tick's step. The collision guard looks at the far end only; that is
 enough on the inflated map while the step is short, and not on the raw map.
 */
module RobotSweep {
  import opened GridMaps
  import opened RobotState
  import opened RobotInvariant
  import opened RobotSteps
  import Corridor
  import LineOfSight
  import Pursuit
  import Routes

  // ----- between two points of the inflated map -----

  /** Next to a free cell of the inflated map there is no obstacle. */
  lemma BesideFree(a: Cell, c: Cell)
    requires Corridor.NavMap(1).Free(a) && Corridor.RawMap().InBounds(c)
    requires Routes.Abs(c.x - a.x) + Routes.Abs(c.y - a.y) <= 1
    ensures Corridor.NavMap(0).Free(c)
  {
    InflatedBlocked(Corridor.RawMap(), 1, a);
    InflatedBlocked(Corridor.RawMap(), 0, c);
    if c in Corridor.RawMap().blocked {
      Corridor.NearOne(c, a);
      assert NearObstacle(Corridor.RawMap(), a, 1);
    }
  }

  lemma BesideBoth(a: Cell, b: Cell)
    requires Corridor.NavMap(1).Free(a) && Corridor.NavMap(1).Free(b) && LineOfSight.Touching(a, b)
    ensures LineOfSight.BoxFree(Corridor.NavMap(0), a, b)
  {
    BesideFree(a, a);
    BesideFree(b, b);
    BesideFree(a, Cell(a.x, b.y));
    BesideFree(a, Cell(b.x, a.y));
  }

  predicate Close(p: Point, q: Point) {
    -0.5 <= q.x - p.x <= 0.5 && -0.5 <= q.y - p.y <= 0.5
  }

  lemma CloseTouching(p: Point, q: Point)
    requires Close(p, q)
    ensures LineOfSight.Touching(WorldToCell(p), WorldToCell(q))
  {
    FloorsTouch((p.x - ORIGIN_X) / RESOLUTION, (q.x - ORIGIN_X) / RESOLUTION);
    FloorsTouch((p.y - ORIGIN_Y) / RESOLUTION, (q.y - ORIGIN_Y) / RESOLUTION);
  }

  lemma FloorsTouch(u: real, w: real)
    requires -1.0 <= w - u <= 1.0
    ensures -1 <= w.Floor - u.Floor <= 1
  {
  }

  /** Between two close points that are free on the inflated map, every point is free in the raw corridor. */
  lemma SweptClear(p: Point, q: Point, u: real)
    requires LineOfSight.IsFree(Corridor.NavMap(1), p) && LineOfSight.IsFree(Corridor.NavMap(1), q)
    requires Close(p, q) && 0.0 <= u <= 1.0
    ensures LineOfSight.IsFree(Corridor.NavMap(0), LineOfSight.Lerp(p, q, u))
  {
    CloseTouching(p, q);
    BesideBoth(WorldToCell(p), WorldToCell(q));
    LineOfSight.BoxClear(Corridor.NavMap(0), p, q, u);
  }

  // ----- a tick on the inflated map -----

  lemma SmallSquare(d: real, e: real)
    requires d * d + e * e <= 0.25
    ensures -0.5 <= d <= 0.5
  {
    assert e * e >= 0.0;
    if d > 0.5 || d < -0.5 {
      LargeSquare(d);
    }
  }

  lemma LargeSquare(d: real)
    requires d > 0.5 || d < -0.5
    ensures d * d > 0.25
  {
    if d > 0.5 {
      assert d * d > 0.5 * d;
    } else {
      assert d * d > -0.5 * d;
    }
  }

  lemma ShortIsClose(p: Point, q: Point, dt: real)
    requires ShortStep(p, q, dt) && 0.0 <= Pursuit.V_MAX * dt <= 0.5
    ensures Close(p, q)
  {
    if p != q {
      var l := Pursuit.V_MAX * dt;
      Pursuit.SquareMono(l, 0.5);
      SmallSquare(q.x - p.x, q.y - p.y);
      SmallSquare(q.y - p.y, q.x - p.x);
    }
  }

  /**
   A tick of at most 0.5 m (1.78 s at full speed) that starts on a free cell of the inflated map in force,
   and not in the final approach, sweeps no obstacle: every point of its step is free in the raw corridor.
   */
  lemma TickSweepsClear(r: Robot, t: TickInput, u: real)
    requires r.configured && Inv(r) && TickInputOk(r, t)
    requires r.navMap == Corridor.NavMap(1) && LineOfSight.IsFree(r.navMap, r.pose)
    requires LineOfSight.SqDist(r.pose, r.goal) >= 0.55 * 0.55
    requires 0.0 <= Pursuit.V_MAX * Dt(r, t) <= 0.5 && 0.0 <= u <= 1.0
    ensures LineOfSight.IsFree(Corridor.NavMap(0), LineOfSight.Lerp(r.pose, MidPose(r, t), u))
  {
    MotionGuard(r, t);
    ShortIsClose(r.pose, MidPose(r, t), Dt(r, t));
    SweptClear(r.pose, MidPose(r, t), u);
  }

  // ----- a tick on the raw map -----

  const BEFORE_CORNER := Point(2.48, -2.985)
  const BEHIND_CORNER := Point(2.52, -3.015)

  /** Half way between these two free points of the raw corridor lies the wall cell (5, 4). */
  lemma CornerBetween()
    ensures LineOfSight.IsFree(Corridor.NavMap(0), BEFORE_CORNER)
    ensures LineOfSight.IsFree(Corridor.NavMap(0), BEHIND_CORNER)
    ensures !LineOfSight.IsFree(Corridor.NavMap(0), LineOfSight.Lerp(BEFORE_CORNER, BEHIND_CORNER, 0.5))
  {
    assert WorldToCell(BEFORE_CORNER) == Cell(4, 4) && WorldToCell(BEHIND_CORNER) == Cell(5, 3);
    Corridor.RawFree(Cell(4, 4));
    Corridor.RawFree(Cell(5, 3));
    var mid := LineOfSight.Lerp(BEFORE_CORNER, BEHIND_CORNER, 0.5);
    assert mid == Point(2.5, -3.0);
    assert WorldToCell(mid) == Cell(5, 4);
    Corridor.RawFree(Cell(5, 4));
  }

  /** A robot that after three replans drives on the raw map, beside that corner. */
  ghost function BesideCorner(): Robot {
    Fresh().(configured := true, active := true, phase := Running, consoleOnline := true, lastConsoleMs := 7,
             pose := BEFORE_CORNER, taskId := "T-1", taskType := Goto, taskStatus := Executing,
             goal := Point(3.25, -3.75), navMap := Corridor.NavMap(0), navPath := [Point(3.25, -3.75)],
             navStatus := Tracking, stuckCount := 3, lastTick := 2.0)
  }

  /** So a step of 0.05 m on the raw map, which the guard allows, can cut through a wall: the tick and the
      state below meet the invariant and everything asked of a tick's inputs. */
  lemma RawTickCutsCorner() returns (t: TickInput)
    ensures var r := BesideCorner();
            && r.configured && Inv(r) && TickInputOk(r, t) && Pursuit.V_MAX * Dt(r, t) == 0.05
            && LineOfSight.IsFree(r.navMap, r.pose) && LineOfSight.IsFree(r.navMap, MidPose(r, t))
            && !LineOfSight.IsFree(Corridor.NavMap(0), LineOfSight.Lerp(r.pose, MidPose(r, t), 0.5))
  {
    var r := BesideCorner();
    t := TickInput(2.0 + 5.0 / 28.0, 8, 0.8, -0.6, 0.28, 0.0, 0, [], 0);
    CornerBetween();
    FreelyDrives(r, t, BEHIND_CORNER);
  }

  predicate FreshLink(r: Robot, nowMs: nat) {
    r.consoleOnline && 0 < r.lastConsoleMs <= nowMs <= r.lastConsoleMs + STALE_MS
  }

  /** A running, undisturbed robot is driven to the free point q at full speed. */
  lemma FreelyDrives(r: Robot, t: TickInput, q: Point)
    requires r.configured && r.active && Inv(r) && r.phase == Running && r.faults == [] && r.robotNode == Ok
    requires FreshLink(r, t.nowMs) && t.nowMs < CLOCK_END && r.lastTick > 0.0 && t.now >= r.lastTick
    requires t.v == 0.28 && t.w == 0.0 && t.cosYaw * t.cosYaw + t.sinYaw * t.sinYaw == 1.0
    requires r.navIdx <= t.idx < |r.navPath| && r.stuckS == 0.0
    requires LineOfSight.IsFree(r.navMap, q) && Translates(r.pose, q, Dt(r, t))
    requires q == Target(r.pose, t.v, t.cosYaw, t.sinYaw, Dt(r, t))
    ensures TickInputOk(r, t) && MidPose(r, t) == q
  {
    var s := Refresh(r, t);
    Undisturbed(r, t);
    assert Move(s, t, Dt(r, t)).pose == q && Move(s, t, Dt(r, t)).stuckS == 0.0;
  }

  lemma Undisturbed(r: Robot, t: TickInput)
    requires r.configured && Inv(r) && r.phase == Running && r.faults == [] && r.robotNode == Ok
    requires FreshLink(r, t.nowMs)
    ensures Refresh(r, t) == r.(lastTick := t.now)
  {
    var k := CheckLink(r.(lastTick := t.now), t.nowMs);
    assert (t.nowMs - r.lastConsoleMs) % U64 == t.nowMs - r.lastConsoleMs;
    assert k == r.(lastTick := t.now);
  }
}
