/**
 The demo corridor that the robot always navigates: its walls, the map it plans on (inflated by
 one cell), and the fact that on that map every pair of in-range points can be joined.
 */
module Corridor {
  import opened GridMaps
  import opened Routes
  import opened Planner

  const WIDTH: nat := 40
  const HEIGHT: nat := 20

  predicate Border(c: Cell) {
    c.x == 0 || c.x == WIDTH - 1 || c.y == 0 || c.y == HEIGHT - 1
  }

  /** The vertical wall with its five-cell gap. */
  predicate Divider(c: Cell) {
    c.x == 20 && 2 <= c.y < HEIGHT - 2 && !(7 <= c.y <= 11)
  }

  predicate Wall(c: Cell) {
    Border(c) || Divider(c) || c == Cell(5, 4) || c == Cell(6, 4)
  }

  ghost function RawMap(): Occupancy {
    Occupancy(WIDTH, HEIGHT, set c | c in Cells(WIDTH, HEIGHT) && Wall(c))
  }

  /** The raw corridor with obstacles grown by r cells. */
  ghost function NavMap(r: int): Occupancy {
    Inflated(RawMap(), r)
  }

  /** A corridor grid holding exactly the cells of `p` so far. */
  ghost predicate Holds(g: GridMap, p: Cell -> bool)
    reads g
  {
    && g.Valid() && g.view.width == WIDTH && g.view.height == HEIGHT
    && forall c :: c in g.view.blocked <==> g.view.InBounds(c) && p(c)
  }

  method DrawRows(g: GridMap)
    requires g.Valid() && g.view == Occupancy(WIDTH, HEIGHT, {})
    modifies g
    ensures Holds(g, (c: Cell) => c.y == 0 || c.y == HEIGHT - 1)
  {
    for x := 0 to WIDTH
      invariant Holds(g, (c: Cell) => c.x < x && (c.y == 0 || c.y == HEIGHT - 1))
    {
      g.Set(x, 0, true);
      g.Set(x, HEIGHT - 1, true);
    }
  }

  predicate ColumnsBelow(c: Cell, y: int) {
    c.y == 0 || c.y == HEIGHT - 1 || (c.y < y && (c.x == 0 || c.x == WIDTH - 1))
  }

  ghost predicate Drawn(v: Occupancy, y: int) {
    && v.width == WIDTH && v.height == HEIGHT
    && forall c :: c in v.blocked <==> v.InBounds(c) && ColumnsBelow(c, y)
  }

  lemma NextColumns(v: Occupancy, v': Occupancy, y: nat)
    requires Drawn(v, y) && y < HEIGHT
    requires v' == v.(blocked := v.blocked + {Cell(0, y)} + {Cell(WIDTH - 1, y)})
    ensures Drawn(v', y + 1)
  {
    forall c: Cell
      ensures c in v'.blocked <==> v'.InBounds(c) && ColumnsBelow(c, y + 1)
    {
      assert c in v'.blocked <==> c in v.blocked || c == Cell(0, y) || c == Cell(WIDTH - 1, y);
    }
  }

  method DrawColumns(g: GridMap)
    requires g.Valid() && Drawn(g.view, 0)
    modifies g
    ensures Holds(g, (c: Cell) => Border(c))
  {
    for y := 0 to HEIGHT
      invariant g.Valid() && Drawn(g.view, y)
    {
      ghost var v := g.view;
      g.Set(0, y, true);
      g.Set(WIDTH - 1, y, true);
      NextColumns(v, g.view, y);
    }
  }

  method DrawDivider(g: GridMap)
    requires Holds(g, (c: Cell) => Border(c))
    modifies g
    ensures Holds(g, (c: Cell) => Border(c) || Divider(c))
  {
    for y := 2 to HEIGHT - 2
      invariant Holds(g, (c: Cell) => Border(c) || (Divider(c) && c.y < y))
    {
      if y >= 7 && y <= 11 {
        continue;
      }
      g.Set(20, y, true);
    }
  }

  method MakeCorridorDemo() returns (g: GridMap)
    ensures fresh(g) && g.Valid() && g.view == RawMap()
  {
    g := new GridMap(WIDTH, HEIGHT);
    DrawRows(g);
    DrawColumns(g);
    DrawDivider(g);
    g.Set(5, 4, true);
    g.Set(6, 4, true);
    assert g.view.blocked == RawMap().blocked;
  }

  /** The map in force after planning: the corridor rebuilt, then inflated. */
  method BuildNavMap(r: int) returns (m: Occupancy)
    ensures m == NavMap(r)
  {
    var g := MakeCorridorDemo();
    g.Inflate(r);
    m := g.Snapshot();
  }

  // ----- closed form of the planning map -----

  lemma OnMapRange(r: int, p: Point)
    ensures NavMap(r).OnMap(p) <==> 0.0 <= p.x < 20.0 && -5.0 <= p.y < 5.0
  {
    var c := WorldToCell(p);
    var u, v := (p.x - ORIGIN_X) / RESOLUTION, (p.y - ORIGIN_Y) / RESOLUTION;
    assert c == Cell(u.Floor, v.Floor);
    assert 0 <= c.x < 40 <==> 0.0 <= u < 40.0;
    assert 0 <= c.y < 20 <==> 0.0 <= v < 20.0;
  }

  lemma NearOne(a: Cell, b: Cell)
    ensures Near(a, b, 1) <==> Abs(b.x - a.x) + Abs(b.y - a.y) <= 1
  {
    if Near(a, b, 1) {
      NearBound(a, b, 1);
    }
  }

  /** Which cells a body one cell wide may enter. */
  predicate Open(c: Cell) {
    && 2 <= c.x <= 37 && 2 <= c.y <= 17
    && !(c.x == 20 && (c.y <= 7 || c.y >= 11))
    && !((c.x == 19 || c.x == 21) && (c.y <= 6 || c.y >= 12))
    && !(5 <= c.x <= 6 && 3 <= c.y <= 5)
    && !((c.x == 4 || c.x == 7) && c.y == 4)
  }

  predicate Touches(c: Cell) {
    || Wall(c) || Wall(Cell(c.x + 1, c.y)) || Wall(Cell(c.x - 1, c.y))
    || Wall(Cell(c.x, c.y + 1)) || Wall(Cell(c.x, c.y - 1))
  }

  lemma RawFree(c: Cell)
    ensures NavMap(0).Free(c) <==> RawMap().InBounds(c) && !Wall(c)
  {
  }

  lemma OpenIsFree(c: Cell)
    requires Open(c)
    ensures NavMap(1).Free(c)
  {
    var m := RawMap();
    InflatedBlocked(m, 1, c);
    forall a | a in m.blocked ensures !Near(a, c, 1) {
      NearOne(a, c);
    }
  }

  lemma NotOpenTouches(c: Cell)
    requires RawMap().InBounds(c) && !Open(c)
    ensures c in RawMap().blocked || NearObstacle(RawMap(), c, 1)
  {
    var m := RawMap();
    assert Touches(c);
    var a := if Wall(c) then c
             else if Wall(Cell(c.x + 1, c.y)) then Cell(c.x + 1, c.y)
             else if Wall(Cell(c.x - 1, c.y)) then Cell(c.x - 1, c.y)
             else if Wall(Cell(c.x, c.y + 1)) then Cell(c.x, c.y + 1)
             else Cell(c.x, c.y - 1);
    NearOne(a, c);
    assert m.InBounds(a) && a in m.blocked;
  }

  lemma NavMapFree(c: Cell)
    ensures NavMap(1).Free(c) <==> Open(c)
  {
    if Open(c) {
      OpenIsFree(c);
    } else if RawMap().InBounds(c) {
      InflatedBlocked(RawMap(), 1, c);
      NotOpenTouches(c);
    }
  }

  // ----- every open cell reaches the hub -----

  lemma {:induction false} RowReach(m: Occupancy, y: int, x: int, x': int)
    requires forall k :: (x <= k <= x' || x' <= k <= x) ==> m.Free(Cell(k, y))
    ensures Reachable(m, Cell(x, y), Cell(x', y))
    decreases Abs(x' - x)
  {
    var a, b := Cell(x, y), Cell(x', y);
    assert m.Free(a);
    if x == x' {
      assert IsRoute(m, [a], a, b);
    } else {
      var n := if x < x' then x + 1 else x - 1;
      RowReach(m, y, n, x');
      var p :| IsRoute(m, p, Cell(n, y), b);
      assert m.Free(Cell(n, y)) && LegalStep(m, a, Cell(n, y));
      PrependRoute(m, a, p, Cell(n, y), b);
    }
  }

  lemma {:induction false} ColumnReach(m: Occupancy, x: int, y: int, y': int)
    requires forall k :: (y <= k <= y' || y' <= k <= y) ==> m.Free(Cell(x, k))
    ensures Reachable(m, Cell(x, y), Cell(x, y'))
    decreases Abs(y' - y)
  {
    var a, b := Cell(x, y), Cell(x, y');
    assert m.Free(a);
    if y == y' {
      assert IsRoute(m, [a], a, b);
    } else {
      var n := if y < y' then y + 1 else y - 1;
      ColumnReach(m, x, n, y');
      var p :| IsRoute(m, p, Cell(x, n), b);
      assert m.Free(Cell(x, n)) && LegalStep(m, a, Cell(x, n));
      PrependRoute(m, a, p, Cell(x, n), b);
    }
  }

  const HUB := Cell(10, 9)

  /** Down the column to row 9, along row 9 to the hub. */
  lemma DirectReach(c: Cell)
    requires Open(c) && (c.y >= 4 || !(4 <= c.x <= 7))
    ensures Reachable(NavMap(1), c, HUB)
  {
    forall k | c.y <= k <= 9 || 9 <= k <= c.y ensures NavMap(1).Free(Cell(c.x, k)) {
      NavMapFree(Cell(c.x, k));
    }
    ColumnReach(NavMap(1), c.x, c.y, 9);
    forall k | c.x <= k <= 10 || 10 <= k <= c.x ensures NavMap(1).Free(Cell(k, 9)) {
      NavMapFree(Cell(k, 9));
    }
    RowReach(NavMap(1), 9, c.x, 10);
    ReachableTransitive(NavMap(1), c, Cell(c.x, 9), HUB);
  }

  /** Cells under the block leave sideways first. */
  lemma HubReach(c: Cell)
    requires Open(c)
    ensures Reachable(NavMap(1), c, HUB)
  {
    if c.y >= 4 || !(4 <= c.x <= 7) {
      DirectReach(c);
    } else {
      var x := if c.x <= 5 then 3 else 8;
      forall k | c.x <= k <= x || x <= k <= c.x ensures NavMap(1).Free(Cell(k, c.y)) {
        NavMapFree(Cell(k, c.y));
      }
      RowReach(NavMap(1), c.y, c.x, x);
      DirectReach(Cell(x, c.y));
      ReachableTransitive(NavMap(1), c, Cell(x, c.y), HUB);
    }
  }

  /** On the raw map: down the column to row 9 where nothing stands in the way. */
  lemma RawDirectReach(c: Cell)
    requires NavMap(0).Free(c)
    requires (c.y >= 5 || !(5 <= c.x <= 6)) && (c.x == 20 ==> 7 <= c.y <= 11)
    ensures Reachable(NavMap(0), c, HUB)
  {
    RawFree(c);
    forall k | c.y <= k <= 9 || 9 <= k <= c.y ensures NavMap(0).Free(Cell(c.x, k)) {
      RawFree(Cell(c.x, k));
    }
    ColumnReach(NavMap(0), c.x, c.y, 9);
    forall k | c.x <= k <= 10 || 10 <= k <= c.x ensures NavMap(0).Free(Cell(k, 9)) {
      RawFree(Cell(k, 9));
    }
    RowReach(NavMap(0), 9, c.x, 10);
    ReachableTransitive(NavMap(0), c, Cell(c.x, 9), HUB);
  }

  /** Cells above the block or beyond the ends of the divider leave sideways first. */
  lemma RawHubReach(c: Cell)
    requires NavMap(0).Free(c)
    ensures Reachable(NavMap(0), c, HUB)
  {
    RawFree(c);
    if (c.y >= 5 || !(5 <= c.x <= 6)) && (c.x == 20 ==> 7 <= c.y <= 11) {
      RawDirectReach(c);
    } else {
      var x := if c.x == 20 then 19 else 4;
      forall k | c.x <= k <= x || x <= k <= c.x ensures NavMap(0).Free(Cell(k, c.y)) {
        RawFree(Cell(k, c.y));
      }
      RowReach(NavMap(0), c.y, c.x, x);
      RawDirectReach(Cell(x, c.y));
      ReachableTransitive(NavMap(0), c, Cell(x, c.y), HUB);
    }
  }

  /** The two maps the robot ever plans on. */
  predicate PlansOn(r: int) {
    r == 0 || r == 1
  }

  lemma Connected(r: int, a: Cell, b: Cell)
    requires PlansOn(r) && NavMap(r).Free(a) && NavMap(r).Free(b)
    ensures Reachable(NavMap(r), a, b)
  {
    if r == 0 {
      RawHubReach(a);
      RawHubReach(b);
    } else {
      NavMapFree(a);
      NavMapFree(b);
      HubReach(a);
      HubReach(b);
    }
    var p :| IsRoute(NavMap(r), p, b, HUB);
    ReachableSymmetric(NavMap(r), p, b, HUB);
    ReachableTransitive(NavMap(r), a, HUB, b);
  }

  // ----- snapping always succeeds on the corridor -----

  predicate NotWorse(c: Cell, a: Cell, b: Cell) {
    || Chebyshev(c, a) < Chebyshev(c, b)
    || (Chebyshev(c, a) == Chebyshev(c, b) && Preferred(c, a, b))
  }

  lemma {:induction false} BestExists(c: Cell, s: set<Cell>) returns (r: Cell)
    requires s != {}
    ensures r in s && forall e :: e in s ==> NotWorse(c, r, e)
  {
    r :| r in s;
    if s != {r} {
      var rest := s - {r};
      assert s == rest + {r};
      var best := BestExists(c, rest);
      if NotWorse(c, best, r) {
        r := best;
      }
    }
  }

  lemma SnapExists(m: Occupancy, c: Cell, e: Cell) returns (r: Cell)
    requires m.Free(e) && Chebyshev(c, e) <= SNAP_RADIUS
    ensures IsSnap(m, c, r)
  {
    if m.Free(c) {
      r := c;
    } else {
      var free := Cells(m.width, m.height) - m.blocked;
      assert e in free;
      r := BestExists(c, free);
      assert forall d :: m.Free(d) ==> d in free;
      assert NotWorse(c, r, e);
    }
  }

  function Clamp(v: int, lo: int, hi: int): int {
    if v < lo then lo else if v > hi then hi else v
  }

  /** An open cell at most two rings away from anywhere on the map. */
  function NearbyOpen(c: Cell): Cell {
    var x := Clamp(c.x, 2, 37);
    var y := Clamp(c.y, 2, 17);
    if 19 <= x <= 20 then Cell(18, y)
    else if x == 21 then Cell(22, y)
    else if 5 <= x <= 6 && 3 <= y <= 5 then Cell(x, if y == 5 then 6 else 2)
    else if (x == 4 || x == 7) && y == 4 then Cell(if x == 4 then 3 else 8, 4)
    else Cell(x, y)
  }

  lemma OpenNearby(r: int, c: Cell)
    requires PlansOn(r) && RawMap().InBounds(c)
    ensures NavMap(r).Free(NearbyOpen(c)) && Chebyshev(c, NearbyOpen(c)) <= 2
  {
    NavMapFree(NearbyOpen(c));
    InflationMonotone(RawMap(), 0, 1, NearbyOpen(c));
  }

  lemma SnapOnCorridor(r: int, p: Point) returns (s: Cell)
    requires PlansOn(r) && NavMap(r).OnMap(p)
    ensures IsSnap(NavMap(r), WorldToCell(p), s)
  {
    var c := WorldToCell(p);
    OpenNearby(r, c);
    s := SnapExists(NavMap(r), c, NearbyOpen(c));
  }

  /** On the robot's own maps every on-map point snaps to a truly nearest free cell. */
  lemma CorridorSnapNearest(r: int, p: Point, s: Cell, e: Cell)
    requires PlansOn(r) && NavMap(r).OnMap(p)
    requires IsSnap(NavMap(r), WorldToCell(p), s) && NavMap(r).Free(e)
    ensures Dist2(WorldToCell(p), s) <= Dist2(WorldToCell(p), e)
  {
    var c := WorldToCell(p);
    OpenNearby(r, c);
    SnapInside(NavMap(r), c, s, NearbyOpen(c));
    SnapNearestInTwoRings(NavMap(r), c, s, e);
  }

  lemma SnapInside(m: Occupancy, c: Cell, s: Cell, e: Cell)
    requires IsSnap(m, c, s) && m.Free(e)
    ensures Chebyshev(c, s) <= Chebyshev(c, e)
  {
  }

  /** On either map a plan exists exactly when both end points are on the map. */
  lemma CorridorPlannable(r: int, start: Point, goal: Point)
    requires PlansOn(r)
    ensures Plannable(NavMap(r), start, goal) <==> NavMap(r).OnMap(start) && NavMap(r).OnMap(goal)
  {
    if NavMap(r).OnMap(start) && NavMap(r).OnMap(goal) {
      var s := SnapOnCorridor(r, start);
      var t := SnapOnCorridor(r, goal);
      Connected(r, s, t);
    }
  }
}
