/**
 The planner as its callers see it: world points in, waypoints out. Endpoints are snapped to a
 free cell first, and the last waypoint is the commanded goal itself.
 */
module Planner {
  import opened GridMaps
  import opened Routes
  import Search
  import RouteCosts

  // ----- snapping -----

  function Chebyshev(a: Cell, b: Cell): nat {
    var dx := Abs(b.x - a.x);
    var dy := Abs(b.y - a.y);
    if dx > dy then dx else dy
  }

  function Dist2(a: Cell, b: Cell): int {
    (b.x - a.x) * (b.x - a.x) + (b.y - a.y) * (b.y - a.y)
  }

  /** Of two cells on the same ring round c, the one the scan keeps. */
  predicate Preferred(c: Cell, a: Cell, b: Cell) {
    || Dist2(c, a) < Dist2(c, b)
    || (Dist2(c, a) == Dist2(c, b) && (a.y < b.y || (a.y == b.y && a.x <= b.x)))
  }

  const SNAP_RADIUS := 6

  /** r is where c snaps to: c itself when free, else the preferred cell of the innermost free ring. */
  ghost predicate IsSnap(m: Occupancy, c: Cell, r: Cell) {
    && m.Free(r)
    && if m.Free(c) then r == c
       else && Chebyshev(c, r) <= SNAP_RADIUS
            && (forall e :: m.Free(e) ==> Chebyshev(c, r) <= Chebyshev(c, e))
            && (forall e :: m.Free(e) && Chebyshev(c, e) == Chebyshev(c, r) ==> Preferred(c, r, e))
  }

  lemma SnapUnique(m: Occupancy, c: Cell, r: Cell, r': Cell)
    requires IsSnap(m, c, r) && IsSnap(m, c, r')
    ensures r == r'
  {
    if !m.Free(c) {
      assert Preferred(c, r, r') && Preferred(c, r', r);
    }
  }

  lemma SquareAtMost(d: int, r: int)
    requires -r <= d <= r
    ensures 0 <= d * d <= r * r
  {
    var a := Abs(d);
    assert a * a <= r * a <= r * r;
    assert a * a == d * d;
  }

  lemma RingDistance(c: Cell, e: Cell)
    ensures var k := Chebyshev(c, e); k * k <= Dist2(c, e) <= 2 * (k * k)
  {
    SquareAtMost(e.x - c.x, Chebyshev(c, e));
    SquareAtMost(e.y - c.y, Chebyshev(c, e));
  }

  /** The snapped cell is at most sqrt(2) times as far as the truly nearest free cell. */
  lemma SnapWithinSqrt2(m: Occupancy, c: Cell, r: Cell, e: Cell)
    requires IsSnap(m, c, r) && m.Free(e)
    ensures Dist2(c, r) <= 2 * Dist2(c, e)
  {
    if m.Free(c) {
      RingDistance(c, e);
    } else {
      RingDistance(c, r);
      RingDistance(c, e);
      SquareAtMost(Chebyshev(c, r), Chebyshev(c, e));
    }
  }

  /** Inside the first two rings "nearest" is literally true. */
  lemma SnapNearestInTwoRings(m: Occupancy, c: Cell, r: Cell, e: Cell)
    requires IsSnap(m, c, r) && m.Free(e)
    requires Chebyshev(c, r) <= 2
    ensures Dist2(c, r) <= Dist2(c, e)
  {
    RingDistance(c, r);
    RingDistance(c, e);
    if !m.Free(c) && Chebyshev(c, e) > Chebyshev(c, r) {
      var k := Chebyshev(c, r);
      SquareAtMost(k + 1, Chebyshev(c, e));
    }
  }

  /** The innermost ring round c with a free cell is ring k. */
  ghost predicate FirstFreeRing(m: Occupancy, c: Cell, k: nat) {
    && (exists e :: m.Free(e) && Chebyshev(c, e) == k)
    && (forall e :: m.Free(e) ==> k <= Chebyshev(c, e))
  }

  /** On every map whose innermost free ring is k, snapping finds a nearest free cell. */
  ghost predicate NearestAtRing(k: nat) {
    forall m, c, r, e :: FirstFreeRing(m, c, k) && IsSnap(m, c, r) && m.Free(e) ==> Dist2(c, r) <= Dist2(c, e)
  }

  lemma SnapRing(m: Occupancy, c: Cell, r: Cell, k: nat)
    requires FirstFreeRing(m, c, k) && IsSnap(m, c, r)
    ensures Chebyshev(c, r) == k
  {
    var e :| m.Free(e) && Chebyshev(c, e) == k;
    if m.Free(c) {
      assert Chebyshev(c, c) == 0;
    }
  }

  /** From the third ring on the scan can stop at a corner of the ring although the axis cell of the
      next ring is nearer: the map that is free at (k,k) and (k+1,0) only. */
  lemma CornerTrap(k: nat) returns (m: Occupancy)
    requires 3 <= k <= SNAP_RADIUS
    ensures FirstFreeRing(m, Cell(0, 0), k)
    ensures IsSnap(m, Cell(0, 0), Cell(k, k)) && m.Free(Cell(k + 1, 0))
    ensures Dist2(Cell(0, 0), Cell(k + 1, 0)) < Dist2(Cell(0, 0), Cell(k, k))
  {
    var corner, axis := Cell(k, k), Cell(k + 1, 0);
    m := Occupancy(8, 8, Cells(8, 8) - {corner, axis});
    assert forall e :: m.Free(e) <==> e == corner || e == axis;
    assert Chebyshev(Cell(0, 0), corner) == k && Chebyshev(Cell(0, 0), axis) == k + 1;
    TwiceSquare(k);
  }

  lemma TwiceSquare(k: nat)
    requires k >= 3
    ensures (k + 1) * (k + 1) < k * k + k * k
  {
    assert k * k >= 3 * k;
  }

  /** "Nearest" holds on every map with innermost free ring k exactly for k <= 2. */
  lemma SnapNearestIff(k: nat)
    requires k <= SNAP_RADIUS
    ensures NearestAtRing(k) <==> k <= 2
  {
    if k <= 2 {
      forall m, c, r, e | FirstFreeRing(m, c, k) && IsSnap(m, c, r) && m.Free(e) ensures Dist2(c, r) <= Dist2(c, e) {
        SnapRing(m, c, r, k);
        SnapNearestInTwoRings(m, c, r, e);
      }
    } else {
      var m := CornerTrap(k);
    }
  }

  /** The best free cell of the square of radius r round c, in scan order. */
  ghost predicate BestOf(m: Occupancy, c: Cell, r: int, dx: int, dy: int, found: bool, best: Cell) {
    if found then
      && m.Free(best) && Chebyshev(c, best) <= r
      && forall e :: m.Free(e) && Scanned(c, r, dx, dy, e) ==> Preferred(c, best, e)
    else
      forall e :: m.Free(e) ==> !Scanned(c, r, dx, dy, e)
  }

  predicate Scanned(c: Cell, r: int, dx: int, dy: int, e: Cell) {
    Chebyshev(c, e) <= r && (e.y - c.y < dy || (e.y - c.y == dy && e.x - c.x < dx))
  }

  method ScanSquare(m: Occupancy, c: Cell, r: int) returns (found: bool, best: Cell)
    requires 1 <= r <= SNAP_RADIUS
    ensures BestOf(m, c, r, 0, r + 1, found, best)
  {
    found, best := false, c;
    var bestD := 1_000_000_000;
    for dy := -r to r + 1
      invariant BestOf(m, c, r, -r, dy, found, best)
      invariant bestD == if found then Dist2(c, best) else 1_000_000_000
      invariant found ==> best.y - c.y < dy
    {
      for dx := -r to r + 1
        invariant BestOf(m, c, r, dx, dy, found, best)
        invariant bestD == if found then Dist2(c, best) else 1_000_000_000
        invariant found ==> best.y - c.y < dy || (best.y - c.y == dy && best.x - c.x < dx)
      {
        var n := Cell(c.x + dx, c.y + dy);
        if m.InBounds(n) && !m.At(n) {
          var d := dx * dx + dy * dy;
          SquareAtMost(dx, 6);
          SquareAtMost(dy, 6);
          assert d == Dist2(c, n);
          if d < bestD {
            bestD := d;
            best := n;
            found := true;
          }
        }
      }
    }
  }

  method SnapFree(m: Occupancy, c: Cell) returns (found: bool, out: Cell)
    ensures found <==> exists r :: IsSnap(m, c, r)
    ensures found <==> exists e :: m.Free(e) && -6 <= e.x - c.x <= 6 && -6 <= e.y - c.y <= 6
    ensures found ==> IsSnap(m, c, out)
  {
    if !m.At(c) {
      assert IsSnap(m, c, c);
      return true, c;
    }
    found, out := false, c;
    var r := 1;
    while r <= SNAP_RADIUS && !found
      invariant 1 <= r <= SNAP_RADIUS + 1
      invariant found ==> IsSnap(m, c, out)
      invariant !found ==> forall e :: m.Free(e) ==> Chebyshev(c, e) >= r
    {
      found, out := ScanSquare(m, c, r);
      r := r + 1;
    }
  }

  // ----- the plan -----

  ghost predicate Plannable(m: Occupancy, start: Point, goal: Point) {
    && m.OnMap(start) && m.OnMap(goal)
    && exists s, t :: IsSnap(m, WorldToCell(start), s) && IsSnap(m, WorldToCell(goal), t) && Reachable(m, s, t)
  }

  ghost predicate IsPlan(m: Occupancy, start: Point, goal: Point, cells: seq<Cell>) {
    && cells != [] && m.OnMap(start) && m.OnMap(goal)
    && IsSnap(m, WorldToCell(start), cells[0])
    && IsSnap(m, WorldToCell(goal), cells[|cells| - 1])
    && IsCheapestRoute(m, cells, cells[0], cells[|cells| - 1])
  }

  /** Cell centres, with the last replaced by the commanded goal. */
  function Waypoints(cells: seq<Cell>, goal: Point): seq<Point>
    requires cells != []
  {
    seq(|cells|, i requires 0 <= i < |cells| => if i == |cells| - 1 then goal else CellToWorld(cells[i]))
  }

  /** What `astar` may return: nothing when there is no plan, else the waypoints of a cheapest route. */
  ghost predicate AstarResult(m: Occupancy, start: Point, goal: Point, path: seq<Point>) {
    if path == [] then !Plannable(m, start, goal)
    else exists cells :: IsPlan(m, start, goal, cells) && path == Waypoints(cells, goal)
  }

  function CellsBefore(path: seq<Point>): seq<Cell> {
    seq(|path| - (if path == [] then 0 else 1), i requires 0 <= i < |path| => WorldToCell(path[i]))
  }

  /** A plan told from its points alone: centres of cells, from the one the start snaps to, that with the cell the
      goal snaps to form a route of least price; then the goal itself. */
  ghost predicate Describes(m: Occupancy, start: Point, goal: Point, path: seq<Point>) {
    && path != [] && path[|path| - 1] == goal
    && (forall i :: 0 <= i < |path| - 1 ==> path[i] == CellToWorld(WorldToCell(path[i])))
    && exists s, t :: && IsSnap(m, WorldToCell(start), s) && IsSnap(m, WorldToCell(goal), t)
                      && (|path| > 1 ==> path[0] == CellToWorld(s))
                      && RouteCosts.LeastPrice(m, CellsBefore(path) + [t], s, t)
  }

  lemma PlanDescribed(m: Occupancy, start: Point, goal: Point, cells: seq<Cell>)
    requires IsPlan(m, start, goal, cells)
    ensures Describes(m, start, goal, Waypoints(cells, goal))
  {
    var path := Waypoints(cells, goal);
    var s, t := cells[0], cells[|cells| - 1];
    forall i | 0 <= i < |path| - 1 ensures WorldToCell(path[i]) == cells[i] {
      CellRoundTrip(cells[i]);
    }
    assert CellsBefore(path) + [t] == cells;
    RouteCosts.CheapestIsLeast(m, cells, s, t);
  }

  /** So every non-empty answer of the planner's is of this kind. */
  lemma AnswerDescribed(m: Occupancy, start: Point, goal: Point, path: seq<Point>)
    requires AstarResult(m, start, goal, path) && path != []
    ensures Describes(m, start, goal, path)
  {
    var cells :| IsPlan(m, start, goal, cells) && path == Waypoints(cells, goal);
    PlanDescribed(m, start, goal, cells);
  }

  /** Whenever a plan is possible there is an answer to give. */
  lemma PlanExists(m: Occupancy, start: Point, goal: Point) returns (path: seq<Point>)
    requires Plannable(m, start, goal)
    ensures path != [] && AstarResult(m, start, goal, path)
  {
    var s, t :| IsSnap(m, WorldToCell(start), s) && IsSnap(m, WorldToCell(goal), t) && Reachable(m, s, t);
    var p :| IsRoute(m, p, s, t);
    var cells := CheapestExists(m, p, s, t);
    RouteEnds(m, cells, s, t);
    path := Waypoints(cells, goal);
    assert IsPlan(m, start, goal, cells);
  }

  lemma RouteEnds(m: Occupancy, p: seq<Cell>, a: Cell, b: Cell)
    requires IsRoute(m, p, a, b)
    ensures p[|p| - 1] == b
  {
    RouteSteps(m, p, a, b, |p| - 1);
  }

  method Astar(m: Occupancy, start: Point, goal: Point) returns (path: seq<Point>)
    ensures AstarResult(m, start, goal, path)
    ensures path == [] <==> !Plannable(m, start, goal)
    ensures path != [] ==> Describes(m, start, goal, path)
  {
    var sc, gc := WorldToCell(start), WorldToCell(goal);
    if !m.InBounds(sc) || !m.InBounds(gc) {
      return [];
    }
    var okS, s := SnapFree(m, sc);
    if !okS {
      return [];
    }
    var okG, t := SnapFree(m, gc);
    if !okG {
      return [];
    }
    var cells := Search.FindRoute(m, s, t);
    if cells == [] {
      forall s', t' | IsSnap(m, sc, s') && IsSnap(m, gc, t') ensures !Reachable(m, s', t') {
        SnapUnique(m, sc, s, s');
        SnapUnique(m, gc, t, t');
      }
      return [];
    }
    RouteEnds(m, cells, s, t);
    assert IsPlan(m, start, goal, cells);
    path := Waypoints(cells, goal);
    PlanDescribed(m, start, goal, cells);
  }
}
