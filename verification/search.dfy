/**
 A* over the grid: lazy priority queue, no closed set, stale entries expanded again.

 The search arrays are row-major vectors (`gscore`, `came`); the proof follows them through the
 ghost record `Front`, which holds the same data keyed by cell.
 */
module Search {
  import opened GridMaps
  import opened Routes
  import RouteCosts

  datatype Score = Infinite | Finite(cost: nat)

  datatype QItem = QItem(f: nat, idx: nat)

  /** std::greater on pairs: smallest f first, then smallest index. */
  predicate Before(a: QItem, b: QItem) {
    a.f < b.f || (a.f == b.f && a.idx <= b.idx)
  }

  // ----- the priority queue -----

  ghost predicate Least(q: QItem, open: multiset<QItem>) {
    q in open && forall r :: r in open ==> Before(q, r)
  }

  lemma {:induction false} LeastExists(open: multiset<QItem>) returns (least: QItem)
    requires open != multiset{}
    ensures Least(least, open)
  {
    var q :| q in open;
    var rest := open - multiset{q};
    least := q;
    if rest == multiset{} {
    } else {
      var l := LeastExists(rest);
      if Before(l, q) {
        least := l;
      }
    }
    forall r | r in open ensures Before(least, r) {
      if r != q {
        assert r in rest;
      }
    }
  }

  method PopLeast(open: multiset<QItem>) returns (q: QItem, rest: multiset<QItem>)
    requires open != multiset{}
    ensures q in open && rest == open - multiset{q}
    ensures forall r :: r in open ==> Before(q, r)
  {
    ghost var least := LeastExists(open);
    assert Least(least, open);
    q :| q in open && forall r :: r in open ==> Before(q, r);
    rest := open - multiset{q};
  }

  // ----- the search state by cell -----

  datatype Front = Front(g: map<Cell, nat>, parent: map<Cell, Cell>, open: multiset<QItem>)

  function Entry(m: Occupancy, t: Cell, g: nat, c: Cell): QItem
    requires m.InBounds(c)
  {
    QItem(g + Octile(c, t), Index(m.width, m.height, c))
  }

  /** Scores are costs of real routes: parents are legal and never dearer than claimed. */
  ghost predicate Sound(m: Occupancy, s: Cell, f: Front) {
    && s in f.g && f.g[s] == 0
    && (forall c :: c in f.g ==> m.Free(c))
    && (forall c :: c in f.g && c != s ==> c in f.parent)
    && (forall c :: c in f.parent ==> c in f.g && c != s)
    && (forall c :: c in f.parent ==> f.parent[c] in f.g && LegalStep(m, f.parent[c], c)
                                      && f.g[f.parent[c]] + StepCost(f.parent[c], c) <= f.g[c])
  }

  /** Every queue entry names a scored cell and is no better than its present score. */
  ghost predicate Queued(m: Occupancy, t: Cell, f: Front) {
    && (forall q :: q in f.open ==> q.idx < m.width * m.height)
    && (forall q :: q in f.open && m.width > 0 ==>
          var c := CellAt(m.width, q.idx); c in f.g && f.g[c] + Octile(c, t) <= q.f)
  }

  ghost predicate Covers(g: map<Cell, nat>, c: Cell, d: Cell)
    requires c in g
  {
    d in g && g[d] <= g[c] + StepCost(c, d)
  }

  /** Relaxing c again would change nothing. */
  ghost predicate Settled(m: Occupancy, g: map<Cell, nat>, c: Cell)
    requires c in g
  {
    forall d :: LegalStep(m, c, d) ==> Covers(g, c, d)
  }

  ghost predicate Waiting(m: Occupancy, t: Cell, f: Front, c: Cell)
    requires c in f.g && m.InBounds(c)
  {
    Entry(m, t, f.g[c], c) in f.open
  }

  /** Each scored cell (save `skip`) has its current entry in the queue, or is settled and not the goal. */
  ghost predicate Frontier(m: Occupancy, t: Cell, f: Front, skip: set<Cell>) {
    forall c :: c in f.g && c !in skip ==>
      m.InBounds(c) && (Waiting(m, t, f, c) || (c != t && Settled(m, f.g, c)))
  }

  ghost predicate Inv(m: Occupancy, s: Cell, t: Cell, f: Front, skip: set<Cell>) {
    Sound(m, s, f) && Queued(m, t, f) && Frontier(m, t, f, skip)
  }

  // ----- one relaxation -----

  ghost function Relax(m: Occupancy, t: Cell, f: Front, cur: Cell, n: Cell): Front
    requires cur in f.g && m.InBounds(n)
  {
    var tentative := f.g[cur] + StepCost(cur, n);
    if n !in f.g || tentative < f.g[n] then
      Front(f.g[n := tentative], f.parent[n := cur], f.open + multiset{Entry(m, t, tentative, n)})
    else f
  }

  lemma RelaxSound(m: Occupancy, s: Cell, t: Cell, f: Front, cur: Cell, n: Cell)
    requires Sound(m, s, f) && cur in f.g && LegalStep(m, cur, n)
    ensures Sound(m, s, Relax(m, t, f, cur, n))
  {
  }

  lemma RelaxQueued(m: Occupancy, t: Cell, f: Front, cur: Cell, n: Cell)
    requires Queued(m, t, f) && cur in f.g && LegalStep(m, cur, n)
    ensures Queued(m, t, Relax(m, t, f, cur, n))
  {
    CellAtIndex(m.width, m.height, n);
    var f' := Relax(m, t, f, cur, n);
    forall q | q in f'.open
      ensures q.idx < m.width * m.height
      ensures var c := CellAt(m.width, q.idx); c in f'.g && f'.g[c] + Octile(c, t) <= q.f
    {
      if q !in f.open {
        assert q == Entry(m, t, f.g[cur] + StepCost(cur, n), n);
      }
    }
  }

  lemma RelaxFrontier(m: Occupancy, t: Cell, f: Front, cur: Cell, n: Cell, skip: set<Cell>)
    requires Frontier(m, t, f, skip) && cur in f.g && LegalStep(m, cur, n)
    ensures Frontier(m, t, Relax(m, t, f, cur, n), skip)
  {
    var f' := Relax(m, t, f, cur, n);
    forall c | c in f'.g && c !in skip
      ensures m.InBounds(c) && (Waiting(m, t, f', c) || (c != t && Settled(m, f'.g, c)))
    {
      if c == n && f' != f {
        assert Entry(m, t, f'.g[c], c) in f'.open;
      } else if Waiting(m, t, f, c) {
        assert Waiting(m, t, f', c);
      } else {
        RelaxSettled(m, t, f, cur, n, c);
      }
    }
  }

  lemma RelaxSettled(m: Occupancy, t: Cell, f: Front, cur: Cell, n: Cell, c: Cell)
    requires cur in f.g && LegalStep(m, cur, n)
    requires c in f.g && Settled(m, f.g, c)
    requires c != n || Relax(m, t, f, cur, n) == f
    ensures Settled(m, Relax(m, t, f, cur, n).g, c)
  {
    var f' := Relax(m, t, f, cur, n);
    forall d | LegalStep(m, c, d) ensures Covers(f'.g, c, d) {
      assert Covers(f.g, c, d);
    }
  }

  lemma RelaxKeeps(m: Occupancy, s: Cell, t: Cell, f: Front, cur: Cell, n: Cell, done: set<Cell>)
    requires Inv(m, s, t, f, {cur}) && cur in f.g && LegalStep(m, cur, n)
    requires forall d :: d in done ==> Covers(f.g, cur, d)
    ensures var f' := Relax(m, t, f, cur, n);
            && Inv(m, s, t, f', {cur}) && cur in f'.g && f'.g[cur] == f.g[cur]
            && forall d :: d in done + {n} ==> Covers(f'.g, cur, d)
  {
    RelaxSound(m, s, t, f, cur, n);
    RelaxQueued(m, t, f, cur, n);
    RelaxFrontier(m, t, f, cur, n, {cur});
    forall d | d in done + {n} ensures Covers(Relax(m, t, f, cur, n).g, cur, d) {
      if d != n {
        assert Covers(f.g, cur, d);
      }
    }
  }

  // ----- why the answer is right -----

  lemma ScoredCell(m: Occupancy, t: Cell, f: Front, a: Cell)
    requires Frontier(m, t, f, {}) && a in f.g
    ensures m.InBounds(a)
    ensures Waiting(m, t, f, a) || (a != t && forall b | LegalStep(m, a, b) :: Covers(f.g, a, b))
  {
  }

  lemma WaitingUndercuts(m: Occupancy, t: Cell, f: Front, a: Cell, p: seq<Cell>)
    requires a in f.g && m.InBounds(a) && Waiting(m, t, f, a) && IsRoute(m, p, a, t)
    ensures exists q :: q in f.open && q.f <= f.g[a] + Cost(p)
  {
    OctileAdmissible(m, p, a, t);
    assert Entry(m, t, f.g[a], a) in f.open;
  }

  /** Some queue entry undercuts every route from a scored cell: the heart of A*. */
  lemma {:induction false} QueueUndercuts(m: Occupancy, t: Cell, f: Front, a: Cell, p: seq<Cell>)
    requires Frontier(m, t, f, {})
    requires a in f.g && IsRoute(m, p, a, t)
    ensures exists q :: q in f.open && q.f <= f.g[a] + Cost(p)
    decreases |p|
  {
    ScoredCell(m, t, f, a);
    if Waiting(m, t, f, a) {
      WaitingUndercuts(m, t, f, a, p);
    } else {
      assert Covers(f.g, a, p[1]);
      QueueUndercuts(m, t, f, p[1], p[1..]);
    }
  }

  /** An exhausted queue proves that there is no route. */
  lemma EmptyQueueUnreachable(m: Occupancy, s: Cell, t: Cell, f: Front)
    requires Inv(m, s, t, f, {}) && f.open == multiset{}
    ensures !Reachable(m, s, t)
  {
    forall p ensures !IsRoute(m, p, s, t) {
      if IsRoute(m, p, s, t) {
        QueueUndercuts(m, t, f, s, p);
      }
    }
  }

  /** When the goal is the least entry its score undercuts every route. */
  lemma PoppedGoalIsCheapest(m: Occupancy, s: Cell, t: Cell, f: Front, q: QItem)
    requires Inv(m, s, t, f, {}) && m.InBounds(t)
    requires q in f.open && q.idx == Index(m.width, m.height, t)
    requires forall r :: r in f.open ==> Before(q, r)
    ensures t in f.g
    ensures forall p :: IsRoute(m, p, s, t) ==> f.g[t] <= Cost(p)
  {
    CellAtIndex(m.width, m.height, t);
    forall p | IsRoute(m, p, s, t) ensures f.g[t] <= Cost(p) {
      QueueUndercuts(m, t, f, s, p);
    }
  }

  // ----- the vectors -----

  /** `gscore` and `came` hold the scores and parents of `f`, slot by slot. */
  ghost predicate Stored(m: Occupancy, gs: seq<Score>, cs: seq<int>, f: Front) {
    && |gs| == m.width * m.height == |cs|
    && (forall c :: c in f.g ==> m.InBounds(c))
    && (forall c :: c in f.parent ==> m.InBounds(f.parent[c]))
    && (forall c | m.InBounds(c) :: gs[Index(m.width, m.height, c)] ==
                                    if c in f.g then Finite(f.g[c]) else Infinite)
    && (forall c | m.InBounds(c) :: cs[Index(m.width, m.height, c)] ==
                                    if c in f.parent then Index(m.width, m.height, f.parent[c]) else -1)
  }

  lemma StoreOne(m: Occupancy, gs: seq<Score>, cs: seq<int>, f: Front, n: Cell, v: nat, cur: Cell,
                 open: multiset<QItem>)
    requires Stored(m, gs, cs, f) && m.InBounds(n) && m.InBounds(cur)
    ensures var i := Index(m.width, m.height, n);
            Stored(m, gs[i := Finite(v)], cs[i := Index(m.width, m.height, cur)],
                   Front(f.g[n := v], f.parent[n := cur], open))
  {
    forall c | m.InBounds(c) && c != n
      ensures Index(m.width, m.height, c) != Index(m.width, m.height, n)
    {
      if Index(m.width, m.height, c) == Index(m.width, m.height, n) {
        IndexInjective(m.width, m.height, c, n);
      }
    }
  }

  // ----- termination measure -----

  ghost function Unscored(gs: seq<Score>): nat {
    if gs == [] then 0 else (if gs[0].Infinite? then 1 else 0) + Unscored(gs[1..])
  }

  ghost function Total(gs: seq<Score>): nat {
    if gs == [] then 0 else (if gs[0].Finite? then gs[0].cost else 0) + Total(gs[1..])
  }

  ghost predicate Improved(gs: seq<Score>, gs': seq<Score>) {
    Unscored(gs') < Unscored(gs) || (Unscored(gs') == Unscored(gs) && Total(gs') < Total(gs))
  }

  /** A successful relaxation scores a new cell, or lowers the sum of the finite scores. */
  lemma {:induction false} UpdateImproves(gs: seq<Score>, i: nat, v: nat)
    requires i < |gs| && (gs[i].Infinite? || v < gs[i].cost)
    ensures Improved(gs, gs[i := Finite(v)])
    ensures gs[i].Finite? ==> Unscored(gs[i := Finite(v)]) == Unscored(gs)
    ensures gs[i].Infinite? ==> Unscored(gs[i := Finite(v)]) < Unscored(gs)
  {
    var gs' := gs[i := Finite(v)];
    if i == 0 {
      assert gs'[1..] == gs[1..];
    } else {
      assert gs'[1..] == gs[1..][i - 1 := Finite(v)];
      UpdateImproves(gs[1..], i - 1, v);
    }
  }

  // ----- the eight directions -----

  const DIRS: seq<(int, int)> := [(1, 0), (-1, 0), (0, 1), (0, -1), (1, 1), (1, -1), (-1, 1), (-1, -1)]

  function Move(c: Cell, d: (int, int)): Cell {
    Cell(c.x + d.0, c.y + d.1)
  }

  lemma DirsCoverSteps(m: Occupancy, a: Cell, b: Cell)
    requires LegalStep(m, a, b)
    ensures exists i :: 0 <= i < 8 && Move(a, DIRS[i]) == b
  {
    assert Move(a, DIRS[0]) == Cell(a.x + 1, a.y);
    assert Move(a, DIRS[1]) == Cell(a.x - 1, a.y);
    assert Move(a, DIRS[2]) == Cell(a.x, a.y + 1);
    assert Move(a, DIRS[3]) == Cell(a.x, a.y - 1);
    assert Move(a, DIRS[4]) == Cell(a.x + 1, a.y + 1);
    assert Move(a, DIRS[5]) == Cell(a.x + 1, a.y - 1);
    assert Move(a, DIRS[6]) == Cell(a.x - 1, a.y + 1);
    assert Move(a, DIRS[7]) == Cell(a.x - 1, a.y - 1);
  }

  /** The neighbours of c among the first k directions. */
  ghost function Tried(m: Occupancy, c: Cell, k: nat): set<Cell>
    requires k <= 8
  {
    set i | 0 <= i < k && LegalStep(m, c, Move(c, DIRS[i])) :: Move(c, DIRS[i])
  }

  lemma TriedNext(m: Occupancy, c: Cell, k: nat)
    requires k < 8
    ensures Tried(m, c, k + 1) ==
            if LegalStep(m, c, Move(c, DIRS[k])) then Tried(m, c, k) + {Move(c, DIRS[k])} else Tried(m, c, k)
  {
  }

  lemma AllTriedSettles(m: Occupancy, t: Cell, f: Front, cur: Cell)
    requires cur in f.g && m.InBounds(cur) && cur != t
    requires forall d :: d in Tried(m, cur, 8) ==> Covers(f.g, cur, d)
    requires Frontier(m, t, f, {cur})
    ensures Frontier(m, t, f, {})
  {
    forall d | LegalStep(m, cur, d) ensures Covers(f.g, cur, d) {
      DirsCoverSteps(m, cur, d);
      assert d in Tried(m, cur, 8);
    }
    assert Settled(m, f.g, cur);
  }

  /** The three tests of the loop body, in their order, are the legality of the step. */
  method MoveAllowed(m: Occupancy, c: Cell, k: nat) returns (r: bool)
    requires k < 8
    ensures r == LegalStep(m, c, Move(c, DIRS[k]))
  {
    var d := DIRS[k];
    var n := Move(c, d);
    assert -1 <= d.0 <= 1 && -1 <= d.1 <= 1 && !(d.0 == 0 && d.1 == 0);
    if n.x < 0 || n.y < 0 || n.x >= m.width || n.y >= m.height {
      return false;
    }
    if m.At(n) {
      return false;
    }
    if d.0 != 0 && d.1 != 0 && (m.At(Cell(c.x + d.0, c.y)) || m.At(Cell(c.x, c.y + d.1))) {
      return false;
    }
    return true;
  }

  /** The body of the main loop after the pop: relax the eight neighbours of `cur`. */
  method Expand(m: Occupancy, s: Cell, t: Cell, came: array<int>, gscore: array<Score>,
                open0: multiset<QItem>, cur: Cell, ghost f0: Front)
    returns (open: multiset<QItem>, ghost f: Front)
    requires f0.open == open0 && Stored(m, gscore[..], came[..], f0)
    requires Inv(m, s, t, f0, {cur}) && cur in f0.g && cur != t
    modifies came, gscore
    ensures f.open == open && Stored(m, gscore[..], came[..], f)
    ensures Inv(m, s, t, f, {})
    ensures Improved(old(gscore[..]), gscore[..]) || (gscore[..] == old(gscore[..]) && open == open0)
  {
    open, f := open0, f0;
    for k := 0 to 8
      invariant f.open == open && Stored(m, gscore[..], came[..], f)
      invariant Inv(m, s, t, f, {cur}) && cur in f.g
      invariant forall d :: d in Tried(m, cur, k) ==> Covers(f.g, cur, d)
      invariant Improved(old(gscore[..]), gscore[..]) || (gscore[..] == old(gscore[..]) && open == open0)
    {
      var n := Move(cur, DIRS[k]);
      TriedNext(m, cur, k);
      var allowed := MoveAllowed(m, cur, k);
      if allowed {
        RelaxKeeps(m, s, t, f, cur, n, Tried(m, cur, k));
        open := RelaxStored(m, t, came, gscore, open, cur, n, f);
        f := Relax(m, t, f, cur, n);
      }
    }
    AllTriedSettles(m, t, f, cur);
  }

  method RelaxStored(m: Occupancy, t: Cell, came: array<int>, gscore: array<Score>,
                     open0: multiset<QItem>, cur: Cell, n: Cell, ghost f: Front)
    returns (open: multiset<QItem>)
    requires f.open == open0 && Stored(m, gscore[..], came[..], f)
    requires cur in f.g && LegalStep(m, cur, n)
    modifies came, gscore
    ensures open == Relax(m, t, f, cur, n).open
    ensures Stored(m, gscore[..], came[..], Relax(m, t, f, cur, n))
    ensures Improved(old(gscore[..]), gscore[..]) || (gscore[..] == old(gscore[..]) && open == open0)
  {
    open := open0;
    var ci, ni := Index(m.width, m.height, cur), Index(m.width, m.height, n);
    var tentative := gscore[ci].cost + StepCost(cur, n);
    if gscore[ni].Infinite? || tentative < gscore[ni].cost {
      UpdateImproves(gscore[..], ni, tentative);
      StoreOne(m, gscore[..], came[..], f, n, tentative, cur, open + multiset{Entry(m, t, tentative, n)});
      Store(came, gscore, ni, tentative, ci);
      open := open + multiset{Entry(m, t, tentative, n)};
    }
  }

  method Store(came: array<int>, gscore: array<Score>, i: nat, v: nat, from: int)
    requires i < came.Length && i < gscore.Length
    modifies came, gscore
    ensures gscore[..] == old(gscore[..])[i := Finite(v)]
    ensures came[..] == old(came[..])[i := from]
  {
    came[i] := from;
    gscore[i] := Finite(v);
  }

  // ----- walking `came` back from the goal -----

  function Reversed(p: seq<Cell>): seq<Cell> {
    if p == [] then [] else [p[|p| - 1]] + Reversed(p[..|p| - 1])
  }

  lemma ParentSlot(m: Occupancy, s: Cell, gs: seq<Score>, cs: seq<int>, f: Front, c: Cell)
    requires Sound(m, s, f) && Stored(m, gs, cs, f) && c in f.g
    ensures var p := cs[Index(m.width, m.height, c)];
            if c == s then p == -1
            else p >= 0 && m.width > 0 && CellAt(m.width, p) == f.parent[c]
  {
    if c != s {
      CellAtIndex(m.width, m.height, f.parent[c]);
    }
  }

  /** What entering the collected route from `at` costs. */
  ghost function Due(path: seq<Cell>, at: Cell): nat {
    (if path == [] then 0 else StepCost(at, path[|path| - 1])) + Cost(Reversed(path))
  }

  /** `at` comes before the collected route, within the budget of t's score. */
  ghost predicate Walked(m: Occupancy, t: Cell, f: Front, path: seq<Cell>, at: Cell) {
    && at in f.g && t in f.g && f.g[at] + Due(path, at) <= f.g[t]
    && if path == [] then at == t else LegalStep(m, at, path[|path| - 1])
  }

  /** `at` has been collected: the walk is over, or goes on at its parent, which has a smaller score. */
  lemma WalkOn(m: Occupancy, s: Cell, t: Cell, f: Front, path: seq<Cell>, path': seq<Cell>, at: Cell)
    requires Sound(m, s, f) && Walked(m, t, f, path, at)
    requires path' == path + [at] && Cost(Reversed(path')) == Due(path, at)
    ensures at == s ==> Cost(Reversed(path')) <= f.g[t]
    ensures at != s ==> Walked(m, t, f, path', f.parent[at]) && f.g[f.parent[at]] < f.g[at]
  {
    assert path'[|path'| - 1] == at;
  }

  /** The walk ends at the start, and costs no more than the goal's score. */
  method WalkBack(m: Occupancy, s: Cell, t: Cell, came: array<int>, ghost gs: seq<Score>, ghost f: Front)
    returns (path: seq<Cell>)
    requires Sound(m, s, f) && Stored(m, gs, came[..], f) && t in f.g
    ensures IsRoute(m, path, s, t) && Cost(path) <= f.g[t]
  {
    path := [];
    var c: int := Index(m.width, m.height, t);
    ghost var at := t;
    ghost var left := f.g[t] + 1;
    while c >= 0
      invariant path != [] ==> IsRoute(m, Reversed(path), path[|path| - 1], t)
      invariant c >= 0 ==> Walked(m, t, f, path, at) && c == Index(m.width, m.height, at) && left == f.g[at] + 1
      invariant c < 0 ==> path != [] && path[|path| - 1] == s && Cost(Reversed(path)) <= f.g[t] && left == 0
      decreases left
    {
      CellAtIndex(m.width, m.height, at);
      ParentSlot(m, s, gs, came[..], f, at);
      ghost var before := path;
      path := Append(m, path, CellAt(m.width, c), t);
      WalkOn(m, s, t, f, before, path, at);
      c := came[c];
      left := 0;
      if at != s {
        at := f.parent[at];
        left := f.g[at] + 1;
      }
    }
    path := Reversed(path);
  }

  method Append(m: Occupancy, path: seq<Cell>, c: Cell, ghost t: Cell) returns (path': seq<Cell>)
    requires m.Free(c)
    requires if path == [] then c == t
             else IsRoute(m, Reversed(path), path[|path| - 1], t) && LegalStep(m, c, path[|path| - 1])
    ensures path' == path + [c]
    ensures IsRoute(m, Reversed(path'), c, t)
    ensures Cost(Reversed(path')) == Due(path, c)
  {
    path' := path + [c];
    assert path'[..|path|] == path;
    if path != [] {
      PrependRoute(m, c, Reversed(path), path[|path| - 1], t);
    }
  }

  // ----- the search -----

  lemma InitialInv(m: Occupancy, s: Cell, t: Cell, gs: seq<Score>, cs: seq<int>)
    requires m.Free(s) && |gs| == |cs| == m.width * m.height
    requires gs == seq(|gs|, _ => Infinite)[Index(m.width, m.height, s) := Finite(0)]
    requires forall i :: 0 <= i < |cs| ==> cs[i] == -1
    ensures var f := Front(map[s := 0], map[], multiset{Entry(m, t, 0, s)});
            Inv(m, s, t, f, {}) && Stored(m, gs, cs, f)
  {
    CellAtIndex(m.width, m.height, s);
    forall c | m.InBounds(c) && c != s
      ensures Index(m.width, m.height, c) != Index(m.width, m.height, s)
    {
      if Index(m.width, m.height, c) == Index(m.width, m.height, s) {
        IndexInjective(m.width, m.height, c, s);
      }
    }
  }

  lemma PopKeeps(m: Occupancy, s: Cell, t: Cell, f: Front, q: QItem)
    requires Inv(m, s, t, f, {}) && q in f.open && m.Free(t)
    ensures q.idx < m.width * m.height
    ensures var cur := CellAt(m.width, q.idx);
            && cur in f.g && Inv(m, s, t, f.(open := f.open - multiset{q}), {cur})
            && (q.idx != Index(m.width, m.height, t) ==> cur != t)
  {
    var cur := CellAt(m.width, q.idx);
    CellAtIndex(m.width, m.height, t);
    IndexCellAt(m.width, m.height, q.idx);
    var f' := f.(open := f.open - multiset{q});
    forall c | c in f'.g && c !in {cur}
      ensures m.InBounds(c) && (Waiting(m, t, f', c) || (c != t && Settled(m, f'.g, c)))
    {
      CellAtIndex(m.width, m.height, c);
    }
  }

  /** The goal was popped: the walk back is a cheapest route. */
  method Finish(m: Occupancy, s: Cell, t: Cell, came: array<int>, ghost gs: seq<Score>, ghost f: Front,
                ghost q: QItem)
    returns (path: seq<Cell>)
    requires Inv(m, s, t, f, {}) && Stored(m, gs, came[..], f) && m.Free(t)
    requires q in f.open && q.idx == Index(m.width, m.height, t)
    requires forall r :: r in f.open ==> Before(q, r)
    ensures IsCheapestRoute(m, path, s, t)
  {
    PoppedGoalIsCheapest(m, s, t, f, q);
    path := WalkBack(m, s, t, came, gs, f);
  }

  /** The arrays before the loop. */
  method Prepare(m: Occupancy, s: Cell, t: Cell)
    returns (came: array<int>, gscore: array<Score>, open: multiset<QItem>, ghost f: Front)
    requires m.Free(s)
    ensures fresh(came) && fresh(gscore)
    ensures f.open == open && Stored(m, gscore[..], came[..], f) && Inv(m, s, t, f, {})
  {
    var n := m.width * m.height;
    came := new int[n](_ => -1);
    gscore := new Score[n](_ => Infinite);
    gscore[Index(m.width, m.height, s)] := Finite(0);
    open := multiset{Entry(m, t, 0, s)};
    f := Front(map[s := 0], map[], open);
    assert gscore[..] == seq(n, _ => Infinite)[Index(m.width, m.height, s) := Finite(0)];
    InitialInv(m, s, t, gscore[..], came[..]);
  }

  /** One turn of the main loop: pop, and either walk back from the goal or expand. */
  method Turn(m: Occupancy, s: Cell, t: Cell, came: array<int>, gscore: array<Score>, open0: multiset<QItem>,
              ghost f0: Front)
    returns (open: multiset<QItem>, ghost f: Front, path: seq<Cell>)
    requires f0.open == open0 && Stored(m, gscore[..], came[..], f0) && Inv(m, s, t, f0, {}) && m.Free(t)
    requires open0 != multiset{}
    modifies came, gscore
    ensures path != [] ==> IsCheapestRoute(m, path, s, t)
    ensures path == [] ==>
              && f.open == open && Stored(m, gscore[..], came[..], f) && Inv(m, s, t, f, {})
              && (Improved(old(gscore[..]), gscore[..]) || (gscore[..] == old(gscore[..]) && |open| < |open0|))
  {
    var q, rest := PopLeast(open0);
    PopKeeps(m, s, t, f0, q);
    open, f, path := rest, f0.(open := rest), [];
    if q.idx == Index(m.width, m.height, t) {
      path := Finish(m, s, t, came, gscore[..], f0, q);
      return;
    }
    open, f := Expand(m, s, t, came, gscore, rest, CellAt(m.width, q.idx), f);
  }

  /**
   A* from s to t. Empty exactly when no legal route joins the two; otherwise a cheapest route.
   Terminates: each pop either scores a new cell, lowers the sum of scores, or shrinks the queue.
   */
  method FindRoute(m: Occupancy, s: Cell, t: Cell) returns (path: seq<Cell>)
    requires m.Free(s) && m.Free(t)
    ensures path == [] <==> !Reachable(m, s, t)
    ensures path != [] ==> IsCheapestRoute(m, path, s, t) && RouteCosts.LeastPrice(m, path, s, t)
  {
    ghost var f;
    var came, gscore, open;
    came, gscore, open, f := Prepare(m, s, t);
    while open != multiset{}
      invariant f.open == open && Stored(m, gscore[..], came[..], f)
      invariant Inv(m, s, t, f, {})
      decreases Unscored(gscore[..]), Total(gscore[..]), |open|
    {
      open, f, path := Turn(m, s, t, came, gscore, open, f);
      if path != [] {
        RouteCosts.CheapestIsLeast(m, path, s, t);
        return;
      }
    }
    EmptyQueueUnreachable(m, s, t, f);
    path := [];
  }
}
