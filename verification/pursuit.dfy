/**
 Path tracking: the path index, the aim point and the pure-pursuit command.

 `hypot`, `sin` and `atan2` are parameters and arbitrary: what is proved here holds whatever they
 return.
 */
module Pursuit {
  import opened GridMaps
  import LineOfSight

  function Dist(hypot: (real, real) -> real, p: Point, q: Point): real {
    hypot(p.x - q.x, p.y - q.y)
  }

  // ----- the path index -----

  /** Waypoint i may be dropped: it is reached, or its successor is clearly closer. */
  predicate Passed(hypot: (real, real) -> real, path: seq<Point>, i: nat, at: Point) {
    && i + 1 < |path|
    && (Dist(hypot, path[i], at) < 0.35 || Dist(hypot, path[i + 1], at) + 0.05 < Dist(hypot, path[i], at))
  }

  /** The index is advanced from idx0 past exactly the passed waypoints, never off the path. */
  predicate Advanced(hypot: (real, real) -> real, path: seq<Point>, idx0: nat, at: Point, idx: nat) {
    && idx0 <= idx && (idx0 < |path| ==> idx < |path|)
    && (forall i :: idx0 <= i < idx ==> Passed(hypot, path, i, at))
    && !Passed(hypot, path, idx, at)
  }

  method AdvanceIdx(hypot: (real, real) -> real, path: seq<Point>, idx0: nat, at: Point) returns (idx: nat)
    ensures Advanced(hypot, path, idx0, at, idx)
  {
    idx := idx0;
    while idx < |path|
      invariant idx0 <= idx && (idx0 < |path| ==> idx < |path|)
      invariant forall i :: idx0 <= i < idx ==> Passed(hypot, path, i, at)
    {
      var d0 := Dist(hypot, path[idx], at);
      if idx + 1 < |path| {
        var d1 := Dist(hypot, path[idx + 1], at);
        if d0 < 0.35 || d1 + 0.05 < d0 {
          idx := idx + 1;
          continue;
        }
      } else if d0 < 0.20 {
        break;
      }
      break;
    }
  }

  /** In metres: every waypoint dropped was within 0.35 m, or its successor was nearer by more than 0.05 m; the one
      kept is the last, or neither holds of it. */
  lemma AdvancedMeans(hypot: (real, real) -> real, path: seq<Point>, idx0: nat, at: Point, idx: nat, k: nat)
    requires Advanced(hypot, path, idx0, at, idx) && idx0 <= k <= idx && k + 1 < |path|
    ensures var d := hypot(path[k].x - at.x, path[k].y - at.y);
            var d' := hypot(path[k + 1].x - at.x, path[k + 1].y - at.y);
            k < idx <==> d < 0.35 || d' + 0.05 < d
  {
    assert k < idx <==> Passed(hypot, path, k, at);
  }

  // ----- the aim point -----

  function PathLength(hypot: (real, real) -> real, path: seq<Point>, i: nat, j: nat): real
    requires i <= j < |path|
    decreases j
  {
    if i == j then 0.0 else PathLength(hypot, path, i, j - 1) + Dist(hypot, path[j], path[j - 1])
  }

  ghost predicate Visible(m: Occupancy, path: seq<Point>, at: Point, i: nat, j: nat)
    requires j < |path|
  {
    forall k :: i <= k <= j ==> LineOfSight.SegmentClear(m, at, path[k])
  }

  /** Within the path length `lookahead` from waypoint i to each waypoint up to j. */
  ghost predicate InBudget(hypot: (real, real) -> real, path: seq<Point>, lookahead: real, i: nat, j: nat)
    requires j < |path|
  {
    forall k :: i < k <= j ==> PathLength(hypot, path, i, k) <= lookahead
  }

  /** No waypoint from i up to (but not) j is as far away as the lookahead. */
  ghost predicate AllNear(hypot: (real, real) -> real, path: seq<Point>, at: Point, lookahead: real, i: nat, j: nat)
    requires j <= |path|
  {
    forall k :: i <= k < j ==> Dist(hypot, path[k], at) < lookahead
  }

  /** Waypoint j ends the unbroken visible stretch from idx that fits the lookahead; the stretch also ends at
      its first waypoint that is as far away as the lookahead. */
  ghost predicate FarthestVisible(hypot: (real, real) -> real, m: Occupancy, path: seq<Point>, idx: nat, at: Point,
                                  lookahead: real, j: nat) {
    && idx <= j < |path|
    && Visible(m, path, at, idx, j)
    && InBudget(hypot, path, lookahead, idx, j)
    && AllNear(hypot, path, at, lookahead, idx, j)
    && (|| j + 1 == |path|
        || PathLength(hypot, path, idx, j + 1) > lookahead
        || !LineOfSight.SegmentClear(m, at, path[j + 1])
        || Dist(hypot, path[j], at) >= lookahead)
  }

  /** The aim is looked for by scanning: no final approach, and waypoint idx is visible. */
  ghost predicate Scans(hypot: (real, real) -> real, m: Occupancy, path: seq<Point>, idx: nat, at: Point) {
    && idx < |path| && Dist(hypot, path[|path| - 1], at) >= 0.60
    && LineOfSight.SegmentClear(m, at, path[idx])
  }

  ghost predicate IsAim(hypot: (real, real) -> real, m: Occupancy, path: seq<Point>, idx: nat, at: Point,
                        lookahead: real, aim: Point) {
    if path == [] then aim == at
    else if idx >= |path| || Dist(hypot, path[|path| - 1], at) < 0.60 then aim == path[|path| - 1]
    else if !LineOfSight.SegmentClear(m, at, path[idx]) then aim == path[idx]
    else exists j: nat :: FarthestVisible(hypot, m, path, idx, at, lookahead, j) && aim == path[j]
  }

  /** The aim is determined. */
  lemma AimUnique(hypot: (real, real) -> real, m: Occupancy, path: seq<Point>, idx: nat, at: Point, lookahead: real,
                  aim: Point, aim': Point)
    requires IsAim(hypot, m, path, idx, at, lookahead, aim) && IsAim(hypot, m, path, idx, at, lookahead, aim')
    ensures aim == aim'
  {
    if Scans(hypot, m, path, idx, at) {
      var j := StretchOf(hypot, m, path, idx, at, lookahead, aim);
      var j' := StretchOf(hypot, m, path, idx, at, lookahead, aim');
      StretchEnds(hypot, m, path, idx, at, lookahead, j, j');
      StretchEnds(hypot, m, path, idx, at, lookahead, j', j);
    }
  }

  lemma StretchOf(hypot: (real, real) -> real, m: Occupancy, path: seq<Point>, idx: nat, at: Point, lookahead: real,
                  aim: Point)
    returns (j: nat)
    requires IsAim(hypot, m, path, idx, at, lookahead, aim) && Scans(hypot, m, path, idx, at)
    ensures FarthestVisible(hypot, m, path, idx, at, lookahead, j) && aim == path[j]
  {
    j :| FarthestVisible(hypot, m, path, idx, at, lookahead, j) && aim == path[j];
  }

  /** In metres: within 0.6 m of the last waypoint, that one is the aim; else waypoint idx if it is out of sight. */
  lemma AimNear(hypot: (real, real) -> real, m: Occupancy, path: seq<Point>, idx: nat, at: Point, lookahead: real,
                aim: Point)
    requires IsAim(hypot, m, path, idx, at, lookahead, aim) && idx < |path|
    ensures var d := hypot(path[|path| - 1].x - at.x, path[|path| - 1].y - at.y);
            && (d < 0.60 ==> aim == path[|path| - 1])
            && (d >= 0.60 && !LineOfSight.SegmentClear(m, at, path[idx]) ==> aim == path[idx])
            && (d >= 0.60 && LineOfSight.SegmentClear(m, at, path[idx]) ==> Scans(hypot, m, path, idx, at))
  {
  }

  /** Else it ends a stretch that is all in sight, with nothing before its end as far away as the lookahead, */
  lemma StretchSeen(hypot: (real, real) -> real, m: Occupancy, path: seq<Point>, idx: nat, at: Point,
                    lookahead: real, j: nat, k: nat)
    requires FarthestVisible(hypot, m, path, idx, at, lookahead, j) && idx <= k <= j
    ensures LineOfSight.SegmentClear(m, at, path[k])
    ensures k < j ==> hypot(path[k].x - at.x, path[k].y - at.y) < lookahead
  {
    assert k < j ==> Dist(hypot, path[k], at) < lookahead;
  }

  /** and the stretch ends there for one of four reasons. */
  lemma StretchStops(hypot: (real, real) -> real, m: Occupancy, path: seq<Point>, idx: nat, at: Point,
                     lookahead: real, j: nat)
    requires FarthestVisible(hypot, m, path, idx, at, lookahead, j)
    ensures || hypot(path[j].x - at.x, path[j].y - at.y) >= lookahead
            || j + 1 == |path|
            || !LineOfSight.SegmentClear(m, at, path[j + 1])
            || PathLength(hypot, path, idx, j + 1) > lookahead
  {
    assert Dist(hypot, path[j], at) == hypot(path[j].x - at.x, path[j].y - at.y);
  }

  /** The length along the path is the sum of its legs. */
  lemma LegAdds(hypot: (real, real) -> real, path: seq<Point>, i: nat, j: nat)
    requires i <= j && j + 1 < |path|
    ensures PathLength(hypot, path, i, i) == 0.0
    ensures PathLength(hypot, path, i, j + 1) ==
            PathLength(hypot, path, i, j) + hypot(path[j + 1].x - path[j].x, path[j + 1].y - path[j].y)
  {
  }

  lemma StretchEnds(hypot: (real, real) -> real, m: Occupancy, path: seq<Point>, idx: nat, at: Point,
                    lookahead: real, j: nat, j': nat)
    requires FarthestVisible(hypot, m, path, idx, at, lookahead, j)
    requires FarthestVisible(hypot, m, path, idx, at, lookahead, j')
    ensures j' <= j
  {
  }

  /** The scan of `AimPoint` before waypoint i: everything from idx to i - 1 is visible and in budget. */
  ghost predicate Scanned(hypot: (real, real) -> real, m: Occupancy, path: seq<Point>, idx: nat, at: Point,
                          lookahead: real, i: nat, budget: real) {
    && idx <= i <= |path|
    && (if i == idx then budget == lookahead
        else && Visible(m, path, at, idx, i - 1)
             && InBudget(hypot, path, lookahead, idx, i - 1)
             && budget == lookahead - PathLength(hypot, path, idx, i - 1)
             && AllNear(hypot, path, at, lookahead, idx, i - 1))
  }

  lemma ScanOn(hypot: (real, real) -> real, m: Occupancy, path: seq<Point>, idx: nat, at: Point,
               lookahead: real, i: nat, budget: real, budget': real)
    requires Scanned(hypot, m, path, idx, at, lookahead, i, budget) && i < |path|
    requires budget' == if i > idx then budget - Dist(hypot, path[i], path[i - 1]) else budget
    requires i > idx ==> budget' >= 0.0 && Dist(hypot, path[i - 1], at) < lookahead
    requires LineOfSight.SegmentClear(m, at, path[i])
    ensures Scanned(hypot, m, path, idx, at, lookahead, i + 1, budget')
  {
  }

  lemma ScanDone(hypot: (real, real) -> real, m: Occupancy, path: seq<Point>, idx: nat, at: Point,
                 lookahead: real, i: nat, budget: real)
    requires Scanned(hypot, m, path, idx, at, lookahead, i, budget) && i > idx
    requires || i == |path|
             || budget - Dist(hypot, path[i], path[i - 1]) < 0.0
             || !LineOfSight.SegmentClear(m, at, path[i])
             || Dist(hypot, path[i - 1], at) >= lookahead
    ensures FarthestVisible(hypot, m, path, idx, at, lookahead, i - 1)
  {
  }

  method AimPoint(hypot: (real, real) -> real, m: Occupancy, path: seq<Point>, idx: nat, at: Point, lookahead: real)
    returns (aim: Point)
    ensures IsAim(hypot, m, path, idx, at, lookahead, aim)
  {
    if path == [] {
      return at;
    }
    if idx >= |path| {
      return path[|path| - 1];
    }
    if Dist(hypot, path[|path| - 1], at) < 0.60 {
      return path[|path| - 1];
    }
    var j := FarthestFrom(hypot, m, path, idx, at, lookahead);
    aim := path[j];
  }

  /** The scan itself; idx again when waypoint idx is not visible. */
  method FarthestFrom(hypot: (real, real) -> real, m: Occupancy, path: seq<Point>, idx: nat, at: Point,
                      lookahead: real)
    returns (best: nat)
    requires idx < |path|
    ensures best < |path|
    ensures if LineOfSight.SegmentClear(m, at, path[idx]) then FarthestVisible(hypot, m, path, idx, at, lookahead, best)
            else best == idx
  {
    var budget := lookahead;
    best := idx;
    var i := idx;
    while i < |path|
      invariant Scanned(hypot, m, path, idx, at, lookahead, i, budget)
      invariant best == if i > idx then i - 1 else idx
      invariant i > idx ==> LineOfSight.SegmentClear(m, at, path[idx]) && Dist(hypot, path[best], at) < lookahead
    {
      var left := budget;
      if i > idx {
        left := budget - Dist(hypot, path[i], path[i - 1]);
        if left < 0.0 {
          break;
        }
      }
      var clear := LineOfSight.SegmentFree(m, at, path[i]);
      if !clear {
        break;
      }
      ScanOn(hypot, m, path, idx, at, lookahead, i, budget, left);
      budget := left;
      best := i;
      i := i + 1;
      if Dist(hypot, path[best], at) >= lookahead {
        break;
      }
    }
    if i > idx {
      ScanDone(hypot, m, path, idx, at, lookahead, i, budget);
    }
  }

  // ----- the command -----

  const V_MAX := 0.28

  /** Limits every command obeys. */
  predicate CommandOk(v: real, w: real) {
    0.0 <= v <= V_MAX && -1.0 <= w <= 1.0
  }

  function AbsR(a: real): real {
    if a < 0.0 then -a else a
  }

  /** The steering law, given the bearing alpha of the aim point and its distance. */
  function Steer(sin: real -> real, alpha: real, localX: real, dist: real): (r: (real, real))
    requires dist > 0.0
    ensures CommandOk(r.0, r.1)
    ensures r.0 == 0.0 <==> AbsR(alpha) > 0.9
    ensures AbsR(alpha) >= 0.5 ==> r.1 != 0.0 && (r.1 > 0.0 <==> alpha > 0.0)
  {
    if AbsR(alpha) > 0.9 then (0.0, (if alpha > 0.0 then 1.0 else -1.0) * 0.9)
    else if localX < 0.0 then (0.10, (if alpha >= 0.0 then 1.0 else -1.0) * 0.6)
    else if AbsR(alpha) < 0.5 then
      var v := if AbsR(alpha) > 0.4 then 0.12 else 0.28;
      var w := 2.0 * v * sin(alpha) / dist;
      (v, if w > 1.0 then 1.0 else if w < -1.0 then -1.0 else w)
    else (0.10, (if alpha >= 0.0 then 1.0 else -1.0) * 0.7)
  }

  /** Before a leg of 0.001 to 0.55 m the lookahead shrinks to 1.2 times that leg, but not below 0.28. */
  predicate ShrinksTo(hypot: (real, real) -> real, path: seq<Point>, idx: nat, lookahead: real, ld: real) {
    var leg := if idx + 1 < |path| then Dist(hypot, path[idx + 1], path[idx]) else 0.0;
    if leg <= 0.001 || leg >= 0.55 then ld == lookahead
    else
      && ld <= lookahead && (ld <= 0.28 || ld <= 1.2 * leg)
      && (ld < lookahead ==> ld >= 0.28 && ld >= 1.2 * leg)
  }

  /** How far ahead of the heading, and how far to its left, the aim lies. */
  function Ahead(at: Point, cosYaw: real, sinYaw: real, aim: Point): real {
    cosYaw * (aim.x - at.x) + sinYaw * (aim.y - at.y)
  }

  function Leftward(at: Point, cosYaw: real, sinYaw: real, aim: Point): real {
    cosYaw * (aim.y - at.y) - sinYaw * (aim.x - at.x)
  }

  /** The command that steers from `at`, with heading (cosYaw, sinYaw), towards the aim. */
  function SteerTo(hypot: (real, real) -> real, sin: real -> real, atan2: (real, real) -> real, at: Point,
                   cosYaw: real, sinYaw: real, aim: Point): (r: (real, real))
    ensures CommandOk(r.0, r.1)
  {
    var localX, localY := Ahead(at, cosYaw, sinYaw, aim), Leftward(at, cosYaw, sinYaw, aim);
    var d := hypot(aim.x - at.x, aim.y - at.y);
    Steer(sin, atan2(localY, localX), localX, if d > 0.05 then d else 0.05)
  }

  /** The steering law: for bearing b and distance d of an aim, with `ahead` its place along the heading. */
  predicate Law(sin: real -> real, b: real, ahead: real, d: real, v: real, w: real) {
    && (b > 0.9 ==> v == 0.0 && w == 0.9)
    && (b < -0.9 ==> v == 0.0 && w == -0.9)
    && (-0.9 <= b <= 0.9 && ahead < 0.0 ==> v == 0.10 && (if b >= 0.0 then w == 0.6 else w == -0.6))
    && (-0.9 <= b <= 0.9 && ahead >= 0.0 && (b >= 0.5 || b <= -0.5) ==>
          v == 0.10 && (if b >= 0.0 then w == 0.7 else w == -0.7))
    && (-0.5 < b < 0.5 && ahead >= 0.0 ==>
          && (if b > 0.4 || b < -0.4 then v == 0.12 else v == 0.28)
          && (if 2.0 * v * sin(b) > d then w == 1.0
              else if 2.0 * v * sin(b) < -d then w == -1.0
              else w * d == 2.0 * v * sin(b)))
  }

  /** (v, w) obeys the law for this aim. */
  predicate Steers(hypot: (real, real) -> real, sin: real -> real, atan2: (real, real) -> real, at: Point,
                   cosYaw: real, sinYaw: real, aim: Point, v: real, w: real) {
    var h := hypot(aim.x - at.x, aim.y - at.y);
    Law(sin, atan2(Leftward(at, cosYaw, sinYaw, aim), Ahead(at, cosYaw, sinYaw, aim)),
        Ahead(at, cosYaw, sinYaw, aim), if h > 0.05 then h else 0.05, v, w)
  }

  lemma SteerObeys(sin: real -> real, b: real, ahead: real, d: real)
    requires d > 0.0
    ensures Law(sin, b, ahead, d, Steer(sin, b, ahead, d).0, Steer(sin, b, ahead, d).1)
  {
    var v := if AbsR(b) > 0.4 then 0.12 else 0.28;
    Clipped(2.0 * v * sin(b), d);
  }

  lemma Clipped(n: real, d: real)
    requires d > 0.0
    ensures n / d > 1.0 <==> n > d
    ensures n / d < -1.0 <==> n < -d
    ensures (n / d) * d == n
  {
    var q := n / d;
    assert q * d == n;
    if q > 1.0 {
      Scales(q - 1.0, d);
    } else if q < -1.0 {
      Scales(-1.0 - q, d);
    } else {
      ScalesWeakly(1.0 - q, d);
      ScalesWeakly(q + 1.0, d);
    }
  }

  lemma Scales(a: real, d: real)
    requires a > 0.0 && d > 0.0
    ensures a * d > 0.0
  {
  }

  lemma ScalesWeakly(a: real, d: real)
    requires a >= 0.0 && d > 0.0
    ensures a * d >= 0.0
  {
  }

  /** The sign of a bearing is the side of the aim; the sine of a small angle has its sign. */
  ghost predicate SignsRight(sin: real -> real, atan2: (real, real) -> real) {
    && (forall y, x :: (y > 0.0 ==> atan2(y, x) > 0.0) && (y < 0.0 ==> atan2(y, x) < 0.0))
    && (forall a :: (0.0 < a < 0.5 ==> sin(a) > 0.0) && (-0.5 < a < 0.0 ==> sin(a) < 0.0))
  }

  /** So the robot turns towards its aim: left for an aim on the left of its heading, right for one on the right. */
  lemma TurnsTowardsAim(hypot: (real, real) -> real, sin: real -> real, atan2: (real, real) -> real, at: Point,
                        cosYaw: real, sinYaw: real, aim: Point, v: real, w: real)
    requires SignsRight(sin, atan2) && Steers(hypot, sin, atan2, at, cosYaw, sinYaw, aim, v, w)
    ensures Ahead(at, cosYaw, sinYaw, aim) == cosYaw * (aim.x - at.x) + sinYaw * (aim.y - at.y)
    ensures cosYaw * (aim.y - at.y) - sinYaw * (aim.x - at.x) > 0.0 ==> w > 0.0
    ensures cosYaw * (aim.y - at.y) - sinYaw * (aim.x - at.x) < 0.0 ==> w < 0.0
  {
    var b := atan2(Leftward(at, cosYaw, sinYaw, aim), Ahead(at, cosYaw, sinYaw, aim));
    var h := hypot(aim.x - at.x, aim.y - at.y);
    LawTurns(sin, b, Ahead(at, cosYaw, sinYaw, aim), if h > 0.05 then h else 0.05, v, w);
  }

  /** Straight ahead is bearing zero, straight behind is a half turn to the left. */
  ghost predicate ZeroRight(sin: real -> real, atan2: (real, real) -> real) {
    sin(0.0) == 0.0 && forall x :: if x >= 0.0 then atan2(0.0, x) == 0.0 else atan2(0.0, x) > 0.0
  }

  /** The exact side: left also for an aim straight behind, and no turn exactly for one straight ahead. */
  lemma TurnsIff(hypot: (real, real) -> real, sin: real -> real, atan2: (real, real) -> real, at: Point,
                 cosYaw: real, sinYaw: real, aim: Point, v: real, w: real)
    requires SignsRight(sin, atan2) && ZeroRight(sin, atan2)
    requires Steers(hypot, sin, atan2, at, cosYaw, sinYaw, aim, v, w)
    ensures var ahead := cosYaw * (aim.x - at.x) + sinYaw * (aim.y - at.y);
            var left := cosYaw * (aim.y - at.y) - sinYaw * (aim.x - at.x);
            && (w > 0.0 <==> left > 0.0 || (left == 0.0 && ahead < 0.0))
            && (w < 0.0 <==> left < 0.0)
            && (w == 0.0 <==> left == 0.0 && ahead >= 0.0)
  {
    var left, ahead := Leftward(at, cosYaw, sinYaw, aim), Ahead(at, cosYaw, sinYaw, aim);
    var h := hypot(aim.x - at.x, aim.y - at.y);
    TurnsTowardsAim(hypot, sin, atan2, at, cosYaw, sinYaw, aim, v, w);
    if left == 0.0 {
      LawTurns(sin, atan2(left, ahead), ahead, if h > 0.05 then h else 0.05, v, w);
      LawRests(sin, atan2(left, ahead), ahead, if h > 0.05 then h else 0.05, v, w);
    }
  }

  lemma LawRests(sin: real -> real, b: real, ahead: real, d: real, v: real, w: real)
    requires Law(sin, b, ahead, d, v, w) && d > 0.0 && sin(0.0) == 0.0
    requires (0.0 < b < 0.5 ==> sin(b) > 0.0) && (-0.5 < b < 0.0 ==> sin(b) < 0.0)
    ensures b == 0.0 && ahead >= 0.0 ==> w == 0.0
  {
    if b == 0.0 && ahead >= 0.0 {
      NoTurn(w, d, 2.0 * v * sin(b));
    }
  }

  lemma NoTurn(w: real, d: real, n: real)
    requires d > 0.0 && n == 0.0 && w * d == n
    ensures w == 0.0
  {
  }

  lemma LawTurns(sin: real -> real, b: real, ahead: real, d: real, v: real, w: real)
    requires Law(sin, b, ahead, d, v, w) && d > 0.0
    requires (0.0 < b < 0.5 ==> sin(b) > 0.0) && (-0.5 < b < 0.0 ==> sin(b) < 0.0)
    ensures (b > 0.0 ==> w > 0.0) && (b < 0.0 ==> w < 0.0)
  {
    if 0.0 < b < 0.5 && ahead >= 0.0 {
      Scales(sin(b), 2.0 * v);
      SameSign(w, d);
    } else if -0.5 < b < 0.0 && ahead >= 0.0 {
      Scales(-sin(b), 2.0 * v);
      SameSign(w, d);
    }
  }

  lemma SameSign(w: real, d: real)
    requires d > 0.0
    ensures (w * d > 0.0 ==> w > 0.0) && (w * d < 0.0 ==> w < 0.0)
  {
  }

  lemma SteerToObeys(hypot: (real, real) -> real, sin: real -> real, atan2: (real, real) -> real, at: Point,
                     cosYaw: real, sinYaw: real, aim: Point)
    ensures var c := SteerTo(hypot, sin, atan2, at, cosYaw, sinYaw, aim);
            Steers(hypot, sin, atan2, at, cosYaw, sinYaw, aim, c.0, c.1)
  {
    var x, y := Ahead(at, cosYaw, sinYaw, aim), Leftward(at, cosYaw, sinYaw, aim);
    var h := hypot(aim.x - at.x, aim.y - at.y);
    SteerObeys(sin, atan2(y, x), x, if h > 0.05 then h else 0.05);
  }

  /** A pursuit step's answer: rest on an exhausted path, else the advanced index and the command that steers
      towards the aim for the shrunken lookahead. */
  ghost predicate Pursued(hypot: (real, real) -> real, sin: real -> real, atan2: (real, real) -> real, m: Occupancy,
                          at: Point, cosYaw: real, sinYaw: real, path: seq<Point>, idx0: nat, lookahead: real,
                          idx: nat, v: real, w: real) {
    if idx0 >= |path| then idx == idx0 && v == 0.0 && w == 0.0
    else
      && Advanced(hypot, path, idx0, at, idx)
      && exists ld, aim :: && ShrinksTo(hypot, path, idx, lookahead, ld) && IsAim(hypot, m, path, idx, at, ld, aim)
                           && Steers(hypot, sin, atan2, at, cosYaw, sinYaw, aim, v, w)
  }

  /** One pursuit step with heading (cosYaw, sinYaw); `idx` is the advanced path index. */
  method PurePursuit(hypot: (real, real) -> real, sin: real -> real, atan2: (real, real) -> real, m: Occupancy,
                     at: Point, cosYaw: real, sinYaw: real, path: seq<Point>, idx0: nat, lookahead: real)
    returns (idx: nat, v: real, w: real)
    ensures CommandOk(v, w)
    ensures Pursued(hypot, sin, atan2, m, at, cosYaw, sinYaw, path, idx0, lookahead, idx, v, w)
  {
    idx, v, w := idx0, 0.0, 0.0;
    if path == [] || idx >= |path| {
      return;
    }
    idx := AdvanceIdx(hypot, path, idx, at);
    var ld := lookahead;
    if idx + 1 < |path| {
      var leg := Dist(hypot, path[idx + 1], path[idx]);
      if leg > 0.001 && leg < 0.55 {
        var shorter := if leg * 1.2 > 0.28 then leg * 1.2 else 0.28;
        ld := if shorter < lookahead then shorter else lookahead;
      }
    }
    assert ShrinksTo(hypot, path, idx, lookahead, ld);
    var aim := AimPoint(hypot, m, path, idx, at, ld);
    var cmd := SteerTo(hypot, sin, atan2, at, cosYaw, sinYaw, aim);
    v, w := cmd.0, cmd.1;
    SteerToObeys(hypot, sin, atan2, at, cosYaw, sinYaw, aim);
  }

  /** One step of length v*dt along a unit heading stays within V_MAX*dt. */
  lemma StepLength(at: Point, v: real, cosYaw: real, sinYaw: real, dt: real)
    requires 0.0 <= v <= V_MAX && 0.0 <= dt && cosYaw * cosYaw + sinYaw * sinYaw == 1.0
    ensures LineOfSight.SqDist(at, Point(at.x + v * cosYaw * dt, at.y + v * sinYaw * dt))
            <= (V_MAX * dt) * (V_MAX * dt)
  {
    var s := v * dt;
    assert v * cosYaw * dt == s * cosYaw && v * sinYaw * dt == s * sinYaw;
    calc {
      (s * cosYaw) * (s * cosYaw) + (s * sinYaw) * (s * sinYaw);
      (s * s) * (cosYaw * cosYaw) + (s * s) * (sinYaw * sinYaw);
      (s * s) * (cosYaw * cosYaw + sinYaw * sinYaw);
      s * s;
    }
    MulMono(v, V_MAX, dt);
    SquareMono(s, V_MAX * dt);
  }

  lemma MulMono(a: real, b: real, c: real)
    requires 0.0 <= a <= b && 0.0 <= c
    ensures 0.0 <= a * c <= b * c
  {
    assert (b - a) * c >= 0.0;
  }

  lemma SquareMono(a: real, b: real)
    requires 0.0 <= a <= b
    ensures a * a <= b * b
  {
    assert a * a <= a * b <= b * b;
  }
}
