/**
 The occupancy grid of the navigation stack.

 `Occupancy` is the value a planner reads: a rectangle of cells and the set of blocked ones.
 `GridMap` is the mutable grid itself, a flat row-major vector changed in place; every one of
 its methods is specified by what it does to the `Occupancy` it denotes.
 */
module GridMaps {

  datatype Cell = Cell(x: int, y: int)

  datatype Point = Point(x: real, y: real)

  // Metres per cell and the world position of the corner of cell (0,0).
  const RESOLUTION := 0.5
  const ORIGIN_X := 0.0
  const ORIGIN_Y := -5.0

  datatype Occupancy = Occupancy(width: nat, height: nat, blocked: set<Cell>) {
    predicate InBounds(c: Cell) {
      0 <= c.x < width && 0 <= c.y < height
    }

    /** Everything outside the grid reads as occupied. */
    predicate At(c: Cell) {
      !InBounds(c) || c in blocked
    }

    predicate Free(c: Cell) {
      !At(c)
    }

    predicate OnMap(p: Point) {
      InBounds(WorldToCell(p))
    }
  }

  function Cells(w: nat, h: nat): set<Cell> {
    set x, y | 0 <= x < w && 0 <= y < h :: Cell(x, y)
  }

  function WorldToCell(p: Point): Cell {
    Cell(((p.x - ORIGIN_X) / RESOLUTION).Floor, ((p.y - ORIGIN_Y) / RESOLUTION).Floor)
  }

  function CellToWorld(c: Cell): Point {
    Point(ORIGIN_X + (c.x as real + 0.5) * RESOLUTION, ORIGIN_Y + (c.y as real + 0.5) * RESOLUTION)
  }

  /** Cell centres fall back into their own cell. */
  lemma CellRoundTrip(c: Cell)
    ensures WorldToCell(CellToWorld(c)) == c
  {
    var p := CellToWorld(c);
    assert (p.x - ORIGIN_X) / RESOLUTION == c.x as real + 0.5;
    assert (p.y - ORIGIN_Y) / RESOLUTION == c.y as real + 0.5;
  }

  /** Cells are half a metre wide, and cell (0,0) has its corner at (0,-5): its centre is a quarter further. */
  lemma CellPlaces(c: Cell, p: Point)
    ensures CellToWorld(c) == Point(c.x as real / 2.0 + 0.25, c.y as real / 2.0 - 4.75)
    ensures WorldToCell(p) == c <==> && c.x as real / 2.0 <= p.x < c.x as real / 2.0 + 0.5
                                     && c.y as real / 2.0 - 5.0 <= p.y < c.y as real / 2.0 - 4.5
  {
    var u, v := (p.x - ORIGIN_X) / RESOLUTION, (p.y - ORIGIN_Y) / RESOLUTION;
    assert WorldToCell(p) == Cell(u.Floor, v.Floor);
  }

  // ----- row-major indexing -----

  function Index(w: nat, h: nat, c: Cell): (i: nat)
    requires 0 <= c.x < w && 0 <= c.y < h
    ensures i < w * h
  {
    assert (c.y + 1) * w <= h * w;
    c.y * w + c.x
  }

  function CellAt(w: nat, i: nat): Cell
    requires w > 0
  {
    Cell(i % w, i / w)
  }

  lemma MulAtLeast(k: int, w: nat)
    requires k >= 1
    ensures k * w >= w
  {
    assert (k - 1) * w >= 0;
  }

  lemma DivModUnique(w: nat, q: int, r: int)
    requires 0 <= r < w
    ensures (q * w + r) / w == q && (q * w + r) % w == r
  {
    QuotientUnique(w, q, r, (q * w + r) / w, (q * w + r) % w);
  }

  lemma QuotientUnique(w: nat, q: int, r: int, q': int, r': int)
    requires 0 <= r < w && 0 <= r' < w
    requires q * w + r == q' * w + r'
    ensures q == q' && r == r'
  {
    assert (q - q') * w == r' - r;
    if q > q' {
      MulAtLeast(q - q', w);
    } else if q < q' {
      assert (q' - q) * w == r - r';
      MulAtLeast(q' - q, w);
    }
  }

  /** Row-major numbering and its inverse (`idx`, `cur % W`, `cur / W`). */
  lemma CellAtIndex(w: nat, h: nat, c: Cell)
    requires 0 <= c.x < w && 0 <= c.y < h
    ensures CellAt(w, Index(w, h, c)) == c
  {
    DivModUnique(w, c.y, c.x);
  }

  lemma IndexCellAt(w: nat, h: nat, i: nat)
    requires i < w * h
    ensures w > 0 && 0 <= i % w < w && 0 <= i / w < h
    ensures Index(w, h, CellAt(w, i)) == i
  {
    assert w != 0;
    QuotientBelow(w, h, i);
  }

  lemma QuotientBelow(w: nat, h: nat, i: nat)
    requires w > 0 && i < w * h
    ensures 0 <= i / w < h && i == (i / w) * w + i % w
  {
    if i / w >= h {
      MulAtLeast2(i / w, h, w);
    }
  }

  lemma MulAtLeast2(a: nat, b: nat, w: nat)
    requires a >= b
    ensures a * w >= b * w
  {
    assert (a - b) * w >= 0;
  }

  /** Two cells of a grid never share a slot of the flat vector. */
  lemma IndexInjective(w: nat, h: nat, a: Cell, b: Cell)
    requires 0 <= a.x < w && 0 <= a.y < h && 0 <= b.x < w && 0 <= b.y < h
    requires Index(w, h, a) == Index(w, h, b)
    ensures a == b
  {
    CellAtIndex(w, h, a);
    CellAtIndex(w, h, b);
  }

  // ----- inflation -----

  /** Squared distance in cells, at most r*r. */
  predicate Near(a: Cell, b: Cell, r: int) {
    (b.x - a.x) * (b.x - a.x) + (b.y - a.y) * (b.y - a.y) <= r * r
  }

  /** The obstacles with every cell of the grid that lies within r of one of them. */
  ghost function Inflated(m: Occupancy, r: int): Occupancy {
    if r <= 0 then m
    else m.(blocked := m.blocked + set c | c in Cells(m.width, m.height) && NearObstacle(m, c, r))
  }

  ghost predicate NearObstacle(m: Occupancy, c: Cell, r: int) {
    exists a :: a in m.blocked && Near(a, c, r)
  }

  /** A cell is blocked after inflation exactly when an original obstacle lies within r. */
  lemma InflatedBlocked(m: Occupancy, r: int, c: Cell)
    requires m.InBounds(c)
    ensures c in Inflated(m, r).blocked <==> c in m.blocked || (r > 0 && NearObstacle(m, c, r))
  {
    assert c in Cells(m.width, m.height);
  }

  lemma NearMonotone(a: Cell, b: Cell, r: int, r': int)
    requires 0 <= r <= r'
    requires Near(a, b, r)
    ensures Near(a, b, r')
  {
    assert r * r <= r' * r';
  }

  /** A larger radius never frees a cell. */
  lemma InflationMonotone(m: Occupancy, r: int, r': int, c: Cell)
    requires r <= r'
    requires Inflated(m, r').Free(c)
    ensures Inflated(m, r).Free(c) && m.Free(c)
  {
    InflatedBlocked(m, r, c);
    InflatedBlocked(m, r', c);
    if r > 0 {
      forall a | a in m.blocked && Near(a, c, r) ensures false {
        NearMonotone(a, c, r, r');
      }
    }
  }

  /** The cells of the grid within distance r of cell a. */
  ghost function Disc(w: nat, h: nat, a: Cell, r: int): set<Cell> {
    set c | c in Cells(w, h) && Near(a, c, r)
  }

  ghost predicate IsDisc(m: Occupancy, a: Cell, r: int, disc: set<Cell>) {
    && (forall c :: c in disc ==> m.InBounds(c) && -r <= c.x - a.x <= r && -r <= c.y - a.y <= r)
    && (forall c :: m.InBounds(c) ==> (c in disc <==> Near(a, c, r)))
  }

  lemma DiscBounds(m: Occupancy, a: Cell, r: int, disc: set<Cell>)
    requires r > 0 && disc == Disc(m.width, m.height, a, r)
    ensures IsDisc(m, a, r, disc)
  {
    forall c | c in disc ensures -r <= c.x - a.x <= r && -r <= c.y - a.y <= r {
      NearBound(a, c, r);
    }
  }

  /**
   The mutable grid: `occ` is the flat row-major vector, `view` the occupancy it denotes
   (`Valid` ties the two slot by slot).
   */
  class GridMap {
    const width: nat
    const height: nat
    var occ: seq<bool>
    ghost var view: Occupancy

    ghost predicate Valid()
      reads this
    {
      && |occ| == width * height
      && view.width == width && view.height == height
      && (forall c :: c in view.blocked ==> view.InBounds(c))
      && forall c: Cell | view.InBounds(c) :: occ[Index(width, height, c)] <==> c in view.blocked
    }

    constructor (w: nat, h: nat)
      ensures Valid() && view == Occupancy(w, h, {})
    {
      width, height := w, h;
      occ := seq(w * h, _ => false);
      view := Occupancy(w, h, {});
    }

    function At(x: int, y: int): (r: bool)
      requires Valid()
      reads this
      ensures r == view.At(Cell(x, y))
    {
      if x < 0 || y < 0 || x >= width || y >= height then true
      else occ[Index(width, height, Cell(x, y))]
    }

    /** The grid as a value, read cell by cell. */
    function Snapshot(): (m: Occupancy)
      requires Valid()
      reads this
      ensures m == view
    {
      var m := Occupancy(width, height, set c | c in Cells(width, height) && At(c.x, c.y));
      assert m.blocked == view.blocked;
      m
    }

    method Set(x: int, y: int, v: bool)
      requires Valid()
      modifies this
      ensures Valid()
      ensures view == if !old(view).InBounds(Cell(x, y)) then old(view)
                      else if v then old(view).(blocked := old(view).blocked + {Cell(x, y)})
                      else old(view).(blocked := old(view).blocked - {Cell(x, y)})
    {
      if x < 0 || y < 0 || x >= width || y >= height {
        return;
      }
      var p := Cell(x, y);
      forall c: Cell | view.InBounds(c) && c != p
        ensures Index(width, height, c) != Index(width, height, p)
      {
        if Index(width, height, c) == Index(width, height, p) {
          IndexInjective(width, height, c, p);
        }
      }
      occ := occ[Index(width, height, p) := v];
      view := if v then view.(blocked := view.blocked + {p}) else view.(blocked := view.blocked - {p});
    }

    /** The two inner loops of `inflate`: mark the disc around one source cell. */
    method Stamp(a: Cell, r: int)
      requires Valid()
      requires r > 0
      modifies this
      ensures Valid()
      ensures view == old(view).(blocked := old(view).blocked + Disc(width, height, a, r))
    {
      ghost var m := view;
      ghost var disc := Disc(width, height, a, r);
      DiscBounds(m, a, r, disc);
      for dy := -r to r + 1
        invariant Valid()
        invariant view.width == m.width && view.height == m.height
        invariant forall c :: c in view.blocked <==> c in m.blocked || (c in disc && c.y - a.y < dy)
      {
        StampRow(a, r, dy, disc);
      }
      assert view.blocked == m.blocked + disc;
    }

    /** The innermost loop: one row of the disc. */
    method StampRow(a: Cell, r: int, dy: int, ghost disc: set<Cell>)
      requires Valid()
      requires r > 0
      requires IsDisc(view, a, r, disc)
      modifies this
      ensures Valid()
      ensures view.width == old(view).width && view.height == old(view).height
      ensures forall c :: c in view.blocked <==> c in old(view).blocked || (c in disc && c.y - a.y == dy)
    {
      ghost var m := view;
      for dx := -r to r + 1
        invariant Valid()
        invariant view.width == m.width && view.height == m.height
        invariant forall c :: c in view.blocked <==>
                    c in m.blocked || (c in disc && c.y - a.y == dy && c.x - a.x < dx)
      {
        ghost var p := Cell(a.x + dx, a.y + dy);
        assert m.InBounds(p) ==> (p in disc <==> dx * dx + dy * dy <= r * r);
        if dx * dx + dy * dy <= r * r {
          Set(a.x + dx, a.y + dy, true);
        }
      }
    }

    method Inflate(radius: int)
      requires Valid()
      modifies this
      ensures Valid()
      ensures view == Inflated(old(view), radius)
      ensures forall c | view.InBounds(c) ::
                c in view.blocked <==> c in old(view).blocked || (radius > 0 && NearObstacle(old(view), c, radius))
    {
      if radius <= 0 {
        return;
      }
      var src := occ;
      ghost var m := view;
      for y := 0 to height
        invariant Valid()
        invariant InflatedUpTo(m, radius, view, 0, y)
      {
        for x := 0 to width
          invariant Valid()
          invariant InflatedUpTo(m, radius, view, x, y)
        {
          ghost var before := view;
          if src[Index(width, height, Cell(x, y))] {
            Stamp(Cell(x, y), radius);
          }
          InflateStep(m, radius, before, view, x, y);
        }
        InflateRow(m, radius, view, y);
      }
      InflateDone(m, radius, view);
      forall c | view.InBounds(c)
        ensures c in view.blocked <==> c in m.blocked || NearObstacle(m, c, radius)
      {
        InflatedBlocked(m, radius, c);
      }
    }
  }

  /** The sources before (x, y) in scan order have been stamped, and nothing else has. */
  ghost predicate InflatedUpTo(m: Occupancy, r: int, v: Occupancy, x: int, y: int) {
    && v.width == m.width && v.height == m.height
    && m.blocked <= v.blocked <= Inflated(m, r).blocked
    && forall a :: a in m.blocked && m.InBounds(a) && (a.y < y || (a.y == y && a.x < x))
                   ==> Disc(m.width, m.height, a, r) <= v.blocked
  }

  lemma InflateStep(m: Occupancy, r: int, v: Occupancy, v': Occupancy, x: int, y: int)
    requires r > 0 && m.InBounds(Cell(x, y))
    requires InflatedUpTo(m, r, v, x, y)
    requires v' == if Cell(x, y) in m.blocked
                   then v.(blocked := v.blocked + Disc(m.width, m.height, Cell(x, y), r)) else v
    ensures InflatedUpTo(m, r, v', x + 1, y)
  {
    if Cell(x, y) in m.blocked {
      forall c | c in Disc(m.width, m.height, Cell(x, y), r) ensures c in Inflated(m, r).blocked {
        assert NearObstacle(m, c, r);
      }
    }
    forall a | a in m.blocked && m.InBounds(a) && (a.y < y || (a.y == y && a.x < x + 1))
      ensures Disc(m.width, m.height, a, r) <= v'.blocked
    {
      assert a.y < y || (a.y == y && a.x < x) || a == Cell(x, y);
    }
  }

  lemma InflateRow(m: Occupancy, r: int, v: Occupancy, y: int)
    requires InflatedUpTo(m, r, v, m.width, y)
    ensures InflatedUpTo(m, r, v, 0, y + 1)
  {
  }

  lemma InflateDone(m: Occupancy, r: int, v: Occupancy)
    requires r > 0 && forall a :: a in m.blocked ==> m.InBounds(a)
    requires InflatedUpTo(m, r, v, 0, m.height)
    ensures v == Inflated(m, r)
  {
    forall c | c in Inflated(m, r).blocked ensures c in v.blocked {
      if c !in m.blocked {
        var a :| a in m.blocked && Near(a, c, r);
        assert c in Disc(m.width, m.height, a, r);
      }
    }
  }

  lemma NearBound(a: Cell, b: Cell, r: int)
    requires r > 0 && Near(a, b, r)
    ensures -r <= b.x - a.x <= r && -r <= b.y - a.y <= r
  {
    SquareBound(b.x - a.x, b.y - a.y, r);
    SquareBound(b.y - a.y, b.x - a.x, r);
  }

  lemma SquareGrows(d: int, r: int)
    requires 0 <= r < d
    ensures r * r < d * d
  {
    assert r * r <= r * d;
    assert r * d < d * d;
  }

  lemma SquareBound(d: int, e: int, r: int)
    requires r > 0 && d * d + e * e <= r * r
    ensures -r <= d <= r
  {
    assert e * e >= 0;
    if d > r {
      SquareGrows(d, r);
    } else if d < -r {
      SquareGrows(-d, r);
    }
  }
}
