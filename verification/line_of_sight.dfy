/**
 The sampled line-of-sight test, and how it relates to the planner's corner rule.

 Distances are compared as squares: `hypot(dx, dy) / 0.08` rounded up is the least n with
 (0.08 n)^2 >= dx^2 + dy^2.
 */
module LineOfSight {
  import opened GridMaps
  import opened Routes
  import Planner

  predicate IsFree(m: Occupancy, p: Point) {
    m.OnMap(p) && m.Free(WorldToCell(p))
  }

  function Mix(u: real, w: real, t: real): real {
    u + (w - u) * t
  }

  function Lerp(p: Point, q: Point, t: real): Point {
    Point(Mix(p.x, q.x, t), Mix(p.y, q.y, t))
  }

  function SqDist(p: Point, q: Point): real {
    (q.x - p.x) * (q.x - p.x) + (q.y - p.y) * (q.y - p.y)
  }

  const STEP2 := 0.0064 // the square of the 0.08 m sample spacing

  lemma CountBounded(d2: real, n: nat)
    requires n >= 1 && STEP2 * (n * n) as real < d2
    ensures n <= (d2 / STEP2).Floor
  {
    assert (n * n) as real < d2 / STEP2;
    assert n * n >= n;
  }

  function SampleCount(d2: real, n: nat := 1): (r: nat)
    requires n >= 1
    ensures r >= n && STEP2 * (r * r) as real >= d2
    ensures forall k :: n <= k < r ==> STEP2 * (k * k) as real < d2
    decreases (d2 / STEP2).Floor + 1 - n
  {
    if STEP2 * (n * n) as real >= d2 then n
    else
      CountBounded(d2, n);
      SampleCount(d2, n + 1)
  }

  function Sample(p: Point, q: Point, i: nat, n: nat): Point
    requires n > 0
  {
    Lerp(p, q, i as real / n as real)
  }

  /** All n+1 samples, ends included, lie in free cells. */
  predicate SegmentClear(m: Occupancy, p: Point, q: Point) {
    var n := SampleCount(SqDist(p, q));
    forall i :: 0 <= i <= n ==> IsFree(m, Sample(p, q, i, n))
  }

  method SegmentFree(m: Occupancy, p: Point, q: Point) returns (r: bool)
    ensures r == SegmentClear(m, p, q)
  {
    var n := SampleCount(SqDist(p, q));
    var i := 0;
    while i <= n
      invariant 0 <= i <= n + 1
      invariant forall k :: 0 <= k < i ==> IsFree(m, Sample(p, q, k, n))
    {
      if !IsFree(m, Sample(p, q, i, n)) {
        return false;
      }
      i := i + 1;
    }
    return true;
  }

  // ----- between two neighbouring cell centres -----

  predicate Neighbours(a: Cell, b: Cell) {
    a != b && -1 <= b.x - a.x <= 1 && -1 <= b.y - a.y <= 1
  }

  /** One coordinate of the walk from cell a to cell b = a-1, a or a+1. */
  function AxisCell(a: int, b: int, t: real): int {
    if (b > a && t >= 0.5) || (b < a && t > 0.5) then b else a
  }

  lemma FloorIs(v: real, n: int)
    requires n as real <= v < n as real + 1.0
    ensures v.Floor == n
  {
  }

  lemma AxisFloor(a: int, b: int, t: real)
    requires -1 <= b - a <= 1 && 0.0 <= t <= 1.0
    ensures (a as real + 0.5 + (b as real - a as real) * t).Floor == AxisCell(a, b, t)
  {
    var d := b as real - a as real;
    var v := a as real + 0.5 + d * t;
    if b == a {
      assert d == 0.0 && v == a as real + 0.5;
    } else if b == a + 1 {
      assert d == 1.0 && v == a as real + 0.5 + t;
    } else {
      assert d == -1.0 && v == a as real + 0.5 - t;
    }
    FloorIs(v, AxisCell(a, b, t));
  }

  lemma CellAlong(a: Cell, b: Cell, t: real)
    requires Neighbours(a, b) && 0.0 <= t <= 1.0
    ensures WorldToCell(Lerp(CellToWorld(a), CellToWorld(b), t)) == Cell(AxisCell(a.x, b.x, t), AxisCell(a.y, b.y, t))
  {
    AxisFloor(a.x, b.x, t);
    AxisFloor(a.y, b.y, t);
    ScaledAxis(a.x, b.x, ORIGIN_X, t);
    ScaledAxis(a.y, b.y, ORIGIN_Y, t);
  }

  lemma ScaledAxis(a: int, b: int, o: real, t: real)
    ensures var p := o + (a as real + 0.5) * RESOLUTION;
            var q := o + (b as real + 0.5) * RESOLUTION;
            (p + (q - p) * t - o) / RESOLUTION == a as real + 0.5 + (b as real - a as real) * t
  {
    var d := b as real - a as real;
    assert (d * RESOLUTION) * t == (d * t) * RESOLUTION;
  }

  /** The cell that owns the corner where a diagonal move passes between two other cells. */
  function CornerOwner(a: Cell, b: Cell): Cell {
    Cell(if a.x > b.x then a.x else b.x, if a.y > b.y then a.y else b.y)
  }

  /**
   Every real point of the straight walk between two neighbouring centres is free exactly when
   both cells are, and so is the owner of the corner: the sampled test's ideal form.
   */
  lemma ContinuousLineOfSight(m: Occupancy, a: Cell, b: Cell)
    requires Neighbours(a, b)
    ensures (forall t :: 0.0 <= t <= 1.0 ==> IsFree(m, Lerp(CellToWorld(a), CellToWorld(b), t)))
            <==> m.Free(a) && m.Free(b) && (Diagonal(a, b) ==> m.Free(CornerOwner(a, b)))
  {
    forall t | 0.0 <= t <= 1.0
      ensures WorldToCell(Lerp(CellToWorld(a), CellToWorld(b), t)) == Cell(AxisCell(a.x, b.x, t), AxisCell(a.y, b.y, t))
    {
      CellAlong(a, b, t);
    }
    var p0 := Lerp(CellToWorld(a), CellToWorld(b), 0.0);
    var p1 := Lerp(CellToWorld(a), CellToWorld(b), 1.0);
    var ph := Lerp(CellToWorld(a), CellToWorld(b), 0.5);
    assert WorldToCell(p0) == a && WorldToCell(p1) == b;
    assert Diagonal(a, b) ==> WorldToCell(ph) == CornerOwner(a, b);
  }

  /** A legal step of the planner is clear at every real point, corner included. */
  lemma LegalStepClear(m: Occupancy, a: Cell, b: Cell, t: real)
    requires m.Free(a) && LegalStep(m, a, b) && 0.0 <= t <= 1.0
    ensures IsFree(m, Lerp(CellToWorld(a), CellToWorld(b), t))
  {
    ContinuousLineOfSight(m, a, b);
  }

  lemma FractionInUnit(i: nat, n: nat)
    requires 0 < n && i <= n
    ensures 0.0 <= i as real / n as real <= 1.0
  {
  }

  lemma LegalStepSegmentClear(m: Occupancy, a: Cell, b: Cell)
    requires m.Free(a) && LegalStep(m, a, b)
    ensures SegmentClear(m, CellToWorld(a), CellToWorld(b))
  {
    var p, q := CellToWorld(a), CellToWorld(b);
    var n := SampleCount(SqDist(p, q));
    forall i | 0 <= i <= n ensures IsFree(m, Sample(p, q, i, n)) {
      FractionInUnit(i, n);
      LegalStepClear(m, a, b, i as real / n as real);
    }
  }

  /** Planner and line of sight agree on every leg of a plan before its commanded end point. */
  lemma PlanLegsClear(m: Occupancy, start: Point, goal: Point, cells: seq<Cell>, i: nat)
    requires Planner.IsPlan(m, start, goal, cells)
    requires i + 2 < |cells|
    ensures var w := Planner.Waypoints(cells, goal); SegmentClear(m, w[i], w[i + 1])
  {
    RouteSteps(m, cells, cells[0], cells[|cells| - 1], i);
    LegalStepSegmentClear(m, cells[i], cells[i + 1]);
  }

  // ----- between points of touching cells -----

  predicate Touching(a: Cell, b: Cell) {
    -1 <= b.x - a.x <= 1 && -1 <= b.y - a.y <= 1
  }

  lemma Part(d: real, t: real)
    requires 0.0 <= d && 0.0 <= t <= 1.0
    ensures 0.0 <= d * t <= d
  {
    assert d * (1.0 - t) >= 0.0;
  }

  lemma Rises(u: real, w: real, t: real)
    requires 0.0 <= t <= 1.0 && u <= w
    ensures u <= Mix(u, w, t) <= w
  {
    Part(w - u, t);
    RisesBy(u, w, w - u, t);
  }

  lemma RisesBy(u: real, w: real, d: real, t: real)
    requires d == w - u && 0.0 <= d * t <= d
    ensures u <= Mix(u, w, t) <= w
  {
    assert Mix(u, w, t) == u + d * t;
  }

  lemma Turned(u: real, w: real, t: real)
    ensures Mix(u, w, t) == Mix(w, u, 1.0 - t)
  {
  }

  lemma Between(u: real, w: real, t: real)
    requires 0.0 <= t <= 1.0
    ensures u <= Mix(u, w, t) <= w || w <= Mix(u, w, t) <= u
  {
    if u <= w {
      Rises(u, w, t);
    } else {
      Turned(u, w, t);
      Rises(w, u, 1.0 - t);
    }
  }

  lemma FloorBetween(u: real, w: real, v: real)
    requires (u <= v <= w || w <= v <= u) && -1 <= u.Floor - w.Floor <= 1
    ensures v.Floor == u.Floor || v.Floor == w.Floor
  {
  }

  lemma AxisBetween(p: real, q: real, v: real, o: real)
    requires p <= v <= q || q <= v <= p
    requires -1 <= ((p - o) / RESOLUTION).Floor - ((q - o) / RESOLUTION).Floor <= 1
    ensures ((v - o) / RESOLUTION).Floor == ((p - o) / RESOLUTION).Floor ||
            ((v - o) / RESOLUTION).Floor == ((q - o) / RESOLUTION).Floor
  {
    FloorBetween((p - o) / RESOLUTION, (q - o) / RESOLUTION, (v - o) / RESOLUTION);
  }

  lemma LerpBetween(p: Point, q: Point, t: real)
    requires 0.0 <= t <= 1.0
    ensures var l := Lerp(p, q, t);
            (p.x <= l.x <= q.x || q.x <= l.x <= p.x) && (p.y <= l.y <= q.y || q.y <= l.y <= p.y)
  {
    Between(p.x, q.x, t);
    Between(p.y, q.y, t);
  }

  /** The straight walk between points of touching cells stays in their rows and columns. */
  lemma CellBetween(p: Point, q: Point, t: real)
    requires 0.0 <= t <= 1.0 && Touching(WorldToCell(p), WorldToCell(q))
    ensures var a, b, c := WorldToCell(p), WorldToCell(q), WorldToCell(Lerp(p, q, t));
            (c.x == a.x || c.x == b.x) && (c.y == a.y || c.y == b.y)
  {
    LerpBetween(p, q, t);
    CellOfBetween(p, q, Lerp(p, q, t));
  }

  lemma CellOfBetween(p: Point, q: Point, l: Point)
    requires Touching(WorldToCell(p), WorldToCell(q))
    requires (p.x <= l.x <= q.x || q.x <= l.x <= p.x) && (p.y <= l.y <= q.y || q.y <= l.y <= p.y)
    ensures var a, b, c := WorldToCell(p), WorldToCell(q), WorldToCell(l);
            (c.x == a.x || c.x == b.x) && (c.y == a.y || c.y == b.y)
  {
    AxisBetween(p.x, q.x, l.x, ORIGIN_X);
    AxisBetween(p.y, q.y, l.y, ORIGIN_Y);
  }

  /** The cells of two points and the two beside their corner are free. */
  predicate BoxFree(m: Occupancy, a: Cell, b: Cell) {
    m.Free(a) && m.Free(b) && m.Free(Cell(a.x, b.y)) && m.Free(Cell(b.x, a.y))
  }

  lemma BoxClear(m: Occupancy, p: Point, q: Point, t: real)
    requires 0.0 <= t <= 1.0 && Touching(WorldToCell(p), WorldToCell(q))
    requires BoxFree(m, WorldToCell(p), WorldToCell(q))
    ensures IsFree(m, Lerp(p, q, t))
  {
    CellBetween(p, q, t);
  }

  lemma BoxSegmentClear(m: Occupancy, p: Point, q: Point)
    requires Touching(WorldToCell(p), WorldToCell(q)) && BoxFree(m, WorldToCell(p), WorldToCell(q))
    ensures SegmentClear(m, p, q)
  {
    var n := SampleCount(SqDist(p, q));
    forall i | 0 <= i <= n ensures IsFree(m, Sample(p, q, i, n)) {
      FractionInUnit(i, n);
      BoxClear(m, p, q, i as real / n as real);
    }
  }

  /** The last sample is the end point. */
  lemma EndSample(p: Point, q: Point, n: nat)
    requires n > 0
    ensures Sample(p, q, n, n) == q
  {
    assert n as real / n as real == 1.0;
  }

  /** The leg a plan drives last runs to the commanded goal, anywhere in its cell or beside it: it passes the
      sampled test exactly when the goal's own cell is free on the map. */
  lemma LastLegIff(m: Occupancy, start: Point, goal: Point, cells: seq<Cell>)
    requires Planner.IsPlan(m, start, goal, cells) && |cells| >= 2
    ensures var w := Planner.Waypoints(cells, goal);
            SegmentClear(m, w[|w| - 2], w[|w| - 1]) <==> m.Free(WorldToCell(goal))
  {
    var a, b := cells[|cells| - 2], cells[|cells| - 1];
    var p := CellToWorld(a);
    RouteSteps(m, cells, cells[0], b, |cells| - 2);
    CellRoundTrip(a);
    if m.Free(WorldToCell(goal)) {
      assert b == WorldToCell(goal);
      BoxSegmentClear(m, p, goal);
    } else {
      EndSample(p, goal, SampleCount(SqDist(p, goal)));
    }
  }

  // ----- where the two tests differ -----

  lemma AxisSquare(a: int, b: int)
    requires -1 <= b - a <= 1
    ensures var d := (b as real + 0.5) * RESOLUTION - (a as real + 0.5) * RESOLUTION;
            d * d == if a == b then 0.0 else 0.25
  {
    var d := (b as real + 0.5) * RESOLUTION - (a as real + 0.5) * RESOLUTION;
    assert d == (b - a) as real * 0.5;
    assert d == 0.0 || d == 0.5 || d == -0.5;
  }

  lemma NeighbourSqDist(a: Cell, b: Cell)
    requires Neighbours(a, b)
    ensures SqDist(CellToWorld(a), CellToWorld(b)) == if Diagonal(a, b) then 0.5 else 0.25
  {
    var p, q := CellToWorld(a), CellToWorld(b);
    AxisSquare(a.x, b.x);
    AxisSquare(a.y, b.y);
    assert q.x - p.x == (b.x as real + 0.5) * RESOLUTION - (a.x as real + 0.5) * RESOLUTION;
    assert q.y - p.y == (b.y as real + 0.5) * RESOLUTION - (a.y as real + 0.5) * RESOLUTION;
  }

  lemma NeighbourSampleCount(a: Cell, b: Cell)
    requires Neighbours(a, b)
    ensures SampleCount(SqDist(CellToWorld(a), CellToWorld(b))) == if Diagonal(a, b) then 9 else 7
  {
    NeighbourSqDist(a, b);
    SampleCountIs(0.25, 7);
    SampleCountIs(0.5, 9);
  }

  lemma SampleCountIs(d2: real, n: nat)
    requires n >= 2 && STEP2 * (n * n) as real >= d2 > STEP2 * ((n - 1) * (n - 1)) as real
    ensures SampleCount(d2) == n
  {
    var r := SampleCount(d2);
    if r < n {
      assert r * r <= (n - 1) * (n - 1) by {
        Planner.SquareAtMost(r, n - 1);
      }
    }
  }

  /**
   Between neighbouring centres the sampled test looks at the two cells only: an odd number of
   samples never falls on the corner. So it accepts diagonal moves that the corner rule refuses.
   */
  lemma SampledLineOfSight(m: Occupancy, a: Cell, b: Cell)
    requires Neighbours(a, b)
    ensures SegmentClear(m, CellToWorld(a), CellToWorld(b)) <==> m.Free(a) && m.Free(b)
  {
    var p, q := CellToWorld(a), CellToWorld(b);
    NeighbourSampleCount(a, b);
    var n := SampleCount(SqDist(p, q));
    forall i: nat | i <= n
      ensures WorldToCell(Sample(p, q, i, n)) == if 2 * i < n then a else b
    {
      FractionInUnit(i, n);
      HalfFraction(i, n);
      CellAlong(a, b, i as real / n as real);
    }
    assert WorldToCell(Sample(p, q, 0, n)) == a && WorldToCell(Sample(p, q, n, n)) == b;
  }

  lemma HalfFraction(i: nat, n: nat)
    requires n == 7 || n == 9
    ensures i as real / n as real < 0.5 <==> 2 * i < n
    ensures i as real / n as real > 0.5 <==> 2 * i > n
  {
  }
}
