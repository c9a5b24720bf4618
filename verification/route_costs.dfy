/**
 What a route costs, said by counting its moves: 10000 for each move that changes one coordinate and 14142 for
 each that changes both. And what the cheapest route is like on open ground.
 */
module RouteCosts {
  import opened GridMaps
  import opened Routes

  ghost function MovesOne(p: seq<Cell>): nat {
    if |p| <= 1 then 0
    else (if (p[0].x != p[1].x) != (p[0].y != p[1].y) then 1 else 0) + MovesOne(p[1..])
  }

  ghost function MovesBoth(p: seq<Cell>): nat {
    if |p| <= 1 then 0
    else (if p[0].x != p[1].x && p[0].y != p[1].y then 1 else 0) + MovesBoth(p[1..])
  }

  ghost function Price(p: seq<Cell>): nat {
    10000 * MovesOne(p) + 14142 * MovesBoth(p)
  }

  /** A legal route that no legal route undercuts. */
  ghost predicate LeastPrice(m: Occupancy, p: seq<Cell>, a: Cell, b: Cell) {
    && IsRoute(m, p, a, b)
    && forall q :: IsRoute(m, q, a, b) ==> Price(p) <= Price(q)
  }

  lemma {:induction false} PriceIsCost(m: Occupancy, p: seq<Cell>, a: Cell, b: Cell)
    requires IsRoute(m, p, a, b)
    ensures Price(p) == Cost(p) && MovesOne(p) + MovesBoth(p) == |p| - 1
  {
    if |p| == 1 {
    } else {
      PriceIsCost(m, p[1..], p[1], b);
    }
  }

  lemma CheapestIsLeast(m: Occupancy, p: seq<Cell>, a: Cell, b: Cell)
    ensures IsCheapestRoute(m, p, a, b) <==> LeastPrice(m, p, a, b)
  {
    forall q | IsRoute(m, q, a, b) ensures Price(q) == Cost(q) {
      PriceIsCost(m, q, a, b);
    }
  }

  // ----- open ground -----

  predicate Between(u: int, v: int, w: int) {
    u <= v <= w || w <= v <= u
  }

  /** Every cell of the box that a and b span is free. */
  ghost predicate BoxOpen(m: Occupancy, a: Cell, b: Cell) {
    forall c: Cell :: Between(a.x, c.x, b.x) && Between(a.y, c.y, b.y) ==> m.Free(c)
  }

  function Longer(a: Cell, b: Cell): nat {
    if Abs(b.x - a.x) >= Abs(b.y - a.y) then Abs(b.x - a.x) else Abs(b.y - a.y)
  }

  function Shorter(a: Cell, b: Cell): nat {
    if Abs(b.x - a.x) >= Abs(b.y - a.y) then Abs(b.y - a.y) else Abs(b.x - a.x)
  }

  /** No route has fewer moves than the longer way, nor covers less than both ways. */
  lemma {:induction false} MovesNeeded(m: Occupancy, p: seq<Cell>, a: Cell, b: Cell)
    requires IsRoute(m, p, a, b)
    ensures MovesOne(p) + MovesBoth(p) >= Longer(a, b)
    ensures MovesOne(p) + 2 * MovesBoth(p) >= Longer(a, b) + Shorter(a, b)
  {
    if |p| == 1 {
    } else {
      MovesNeeded(m, p[1..], p[1], b);
      OneMoveNearer(m, a, p[1], b);
    }
  }

  lemma OneMoveNearer(m: Occupancy, a: Cell, n: Cell, b: Cell)
    requires LegalStep(m, a, n)
    ensures Longer(a, b) <= 1 + Longer(n, b)
    ensures Longer(a, b) + Shorter(a, b) <= (if Diagonal(a, n) then 2 else 1) + Longer(n, b) + Shorter(n, b)
  {
  }

  function Toward(u: int, v: int): int {
    if u < v then u + 1 else if u > v then u - 1 else u
  }

  /** Diagonal moves while both ways remain, then straight ones. */
  lemma {:induction false} OpenRoute(m: Occupancy, a: Cell, b: Cell) returns (p: seq<Cell>)
    requires BoxOpen(m, a, b)
    ensures IsRoute(m, p, a, b) && MovesBoth(p) == Shorter(a, b)
    ensures MovesOne(p) + MovesBoth(p) == Longer(a, b)
    decreases Longer(a, b)
  {
    assert m.Free(a);
    if a == b {
      p := [a];
    } else {
      var n := Cell(Toward(a.x, b.x), Toward(a.y, b.y));
      var rest := OpenRoute(m, n, b);
      assert m.Free(n) && m.Free(Cell(n.x, a.y)) && m.Free(Cell(a.x, n.y));
      p := [a] + rest;
      PrependRoute(m, a, rest, n, b);
      assert p[1..] == rest && p[1] == n;
    }
  }

  /**
   On open ground the cheapest route makes as many moves as the longer way has cells, as many of them diagonal
   as the shorter way has: the octile distance is attained.
   */
  lemma OpenGround(m: Occupancy, p: seq<Cell>, a: Cell, b: Cell)
    requires LeastPrice(m, p, a, b) && BoxOpen(m, a, b)
    ensures |p| - 1 == Longer(a, b) && MovesBoth(p) == Shorter(a, b)
    ensures Price(p) == 10000 * Longer(a, b) + 4142 * Shorter(a, b) == Octile(a, b)
  {
    var q := OpenRoute(m, a, b);
    MovesNeeded(m, p, a, b);
    PriceIsCost(m, p, a, b);
    assert Price(p) <= Price(q);
  }
}
