/**
 What a planner promises, independently of how it searches: legal moves on the grid, routes,
 their cost and the octile lower bound. Costs are exact integers, the source's 1 and 1.4142
 scaled by 10000.
 */
module Routes {
  import opened GridMaps

  const STRAIGHT: nat := 10000
  const DIAGONAL: nat := 14142

  predicate Diagonal(a: Cell, b: Cell) {
    a.x != b.x && a.y != b.y
  }

  /** One of the eight moves, into a free cell, without cutting a blocked corner. */
  predicate LegalStep(m: Occupancy, a: Cell, b: Cell) {
    && a != b && -1 <= b.x - a.x <= 1 && -1 <= b.y - a.y <= 1
    && m.Free(b)
    && (Diagonal(a, b) ==> m.Free(Cell(b.x, a.y)) && m.Free(Cell(a.x, b.y)))
  }

  function StepCost(a: Cell, b: Cell): nat {
    if Diagonal(a, b) then DIAGONAL else STRAIGHT
  }

  ghost predicate IsRoute(m: Occupancy, p: seq<Cell>, a: Cell, b: Cell) {
    && p != [] && p[0] == a && m.Free(a)
    && (if |p| == 1 then a == b else LegalStep(m, a, p[1]) && IsRoute(m, p[1..], p[1], b))
  }

  ghost function Cost(p: seq<Cell>): nat {
    if |p| <= 1 then 0 else StepCost(p[0], p[1]) + Cost(p[1..])
  }

  ghost predicate Reachable(m: Occupancy, a: Cell, b: Cell) {
    exists p :: IsRoute(m, p, a, b)
  }

  ghost predicate IsCheapestRoute(m: Occupancy, p: seq<Cell>, a: Cell, b: Cell) {
    && IsRoute(m, p, a, b)
    && forall q :: IsRoute(m, q, a, b) ==> Cost(p) <= Cost(q)
  }

  /** Where there is a route there is a cheapest one. */
  lemma {:induction false} CheapestExists(m: Occupancy, p: seq<Cell>, a: Cell, b: Cell) returns (q: seq<Cell>)
    requires IsRoute(m, p, a, b)
    ensures IsCheapestRoute(m, q, a, b)
    decreases Cost(p)
  {
    if IsCheapestRoute(m, p, a, b) {
      q := p;
    } else {
      var p' :| IsRoute(m, p', a, b) && Cost(p') < Cost(p);
      q := CheapestExists(m, p', a, b);
    }
  }

  lemma PrependRoute(m: Occupancy, c: Cell, p: seq<Cell>, a: Cell, b: Cell)
    requires IsRoute(m, p, a, b)
    requires m.Free(c) && LegalStep(m, c, a)
    ensures IsRoute(m, [c] + p, c, b)
    ensures Cost([c] + p) == StepCost(c, a) + Cost(p)
  {
    assert ([c] + p)[1..] == p;
  }

  /** Every pair of neighbours on a route is a legal step between free cells. */
  lemma {:induction false} RouteSteps(m: Occupancy, p: seq<Cell>, a: Cell, b: Cell, i: nat)
    requires IsRoute(m, p, a, b)
    requires i < |p|
    ensures m.Free(p[i])
    ensures i + 1 < |p| ==> LegalStep(m, p[i], p[i + 1])
    ensures i + 1 == |p| ==> p[i] == b
  {
    if i == 0 {
    } else {
      RouteSteps(m, p[1..], p[1], b, i - 1);
    }
  }

  lemma {:induction false} JoinRoutes(m: Occupancy, p: seq<Cell>, q: seq<Cell>, a: Cell, b: Cell, c: Cell)
    requires IsRoute(m, p, a, b) && IsRoute(m, q, b, c)
    ensures IsRoute(m, p[..|p| - 1] + q, a, c)
  {
    if |p| == 1 {
      assert p[..0] + q == q;
    } else {
      JoinRoutes(m, p[1..], q, p[1], b, c);
      var r := p[1..][..|p| - 2] + q;
      PrependRoute(m, a, r, p[1], c);
      assert [a] + r == p[..|p| - 1] + q;
    }
  }

  lemma LegalStepSymmetric(m: Occupancy, a: Cell, b: Cell)
    requires m.Free(a)
    ensures LegalStep(m, a, b) ==> LegalStep(m, b, a)
  {
  }

  lemma {:induction false} ReachableSymmetric(m: Occupancy, p: seq<Cell>, a: Cell, b: Cell)
    requires IsRoute(m, p, a, b)
    ensures Reachable(m, b, a)
  {
    if |p| == 1 {
      assert IsRoute(m, [b], b, a);
    } else {
      ReachableSymmetric(m, p[1..], p[1], b);
      var q :| IsRoute(m, q, b, p[1]);
      LegalStepSymmetric(m, a, p[1]);
      assert IsRoute(m, [p[1], a][1..], a, a);
      assert IsRoute(m, [p[1], a], p[1], a);
      JoinRoutes(m, q, [p[1], a], b, p[1], a);
    }
  }

  lemma ReachableTransitive(m: Occupancy, a: Cell, b: Cell, c: Cell)
    requires Reachable(m, a, b) && Reachable(m, b, c)
    ensures Reachable(m, a, c)
  {
    var p :| IsRoute(m, p, a, b);
    var q :| IsRoute(m, q, b, c);
    JoinRoutes(m, p, q, a, b, c);
  }

  // ----- the heuristic -----

  function Abs(n: int): nat {
    if n < 0 then -n else n
  }

  /** Octile distance to the goal. */
  function Octile(c: Cell, t: Cell): nat {
    var dx := Abs(c.x - t.x);
    var dy := Abs(c.y - t.y);
    10000 * (if dx > dy then dx else dy) + 4142 * (if dx > dy then dy else dx)
  }

  /** The heuristic never drops by more than the cost of the move. */
  lemma OctileConsistent(m: Occupancy, a: Cell, b: Cell, t: Cell)
    requires LegalStep(m, a, b)
    ensures Octile(a, t) <= StepCost(a, b) + Octile(b, t)
  {
  }

  /** Hence it never overestimates a route. */
  lemma {:induction false} OctileAdmissible(m: Occupancy, p: seq<Cell>, a: Cell, t: Cell)
    requires IsRoute(m, p, a, t)
    ensures Octile(a, t) <= Cost(p)
  {
    if |p| <= 1 {
    } else {
      OctileConsistent(m, a, p[1], t);
      OctileAdmissible(m, p[1..], p[1], t);
    }
  }

  // ----- inflation and routes -----

  /** A route on the inflated map keeps more than r cells from every original obstacle. */
  lemma RouteClearance(m: Occupancy, r: int, p: seq<Cell>, a: Cell, b: Cell, i: nat, o: Cell)
    requires r > 0
    requires IsRoute(Inflated(m, r), p, a, b)
    requires i < |p| && o in m.blocked
    ensures !Near(o, p[i], r)
  {
    RouteSteps(Inflated(m, r), p, a, b, i);
    InflatedBlocked(m, r, p[i]);
    assert !NearObstacle(m, p[i], r);
  }

  lemma StepOnRawMap(m: Occupancy, r: int, a: Cell, b: Cell)
    requires r >= 0 && LegalStep(Inflated(m, r), a, b)
    ensures LegalStep(m, a, b)
  {
    InflationMonotone(m, 0, r, b);
    if Diagonal(a, b) {
      InflationMonotone(m, 0, r, Cell(b.x, a.y));
      InflationMonotone(m, 0, r, Cell(a.x, b.y));
    }
  }

  /** Legal on the inflated map is legal on the raw one. */
  lemma {:induction false} RouteOnRawMap(m: Occupancy, r: int, p: seq<Cell>, a: Cell, b: Cell)
    requires r >= 0
    requires IsRoute(Inflated(m, r), p, a, b)
    ensures IsRoute(m, p, a, b)
  {
    InflationMonotone(m, 0, r, a);
    if |p| <= 1 {
    } else {
      StepOnRawMap(m, r, a, p[1]);
      RouteOnRawMap(m, r, p[1..], p[1], b);
    }
  }
}
