/** The downsampling grid: its cells, and what a downsampled insertion does to them. */
module Cells {
  import opened Geometry
  import opened Knn
  import opened Folding

  datatype Cell = Cell(i: int, j: int, k: int)

  /** The grid cell of a point, for a positive cell size. */
  function CellOf(p: Point, size: int): Cell
    requires size > 0
  {
    Cell(p.x / size, p.y / size, p.z / size)
  }

  function CellBox(c: Cell, size: int): Box {
    Box(Point(c.i * size, c.j * size, c.k * size),
        Point(c.i * size + size, c.j * size + size, c.k * size + size))
  }

  /** Four times the squared distance to the centre of a box, exact in fixed-point coordinates. */
  function CentreDist(p: Point, b: Box): int {
    Square(2 * p.x - (b.min.x + b.max.x)) + Square(2 * p.y - (b.min.y + b.max.y))
    + Square(2 * p.z - (b.min.z + b.max.z))
  }

  /** It is the distance from twice the point to the sum of the corners, that is, to twice the midpoint. */
  lemma {:induction false} CentreDistMeaning(p: Point, b: Box)
    ensures CentreDist(p, b) == Dist(Point(2 * p.x, 2 * p.y, 2 * p.z),
                                     Point(b.min.x + b.max.x, b.min.y + b.max.y, b.min.z + b.max.z))
  {
  }

  /** The squared distance of a point from the middle of the cell of side `size` with least corner `lo`. */
  function FromMiddle(p: Point, lo: Point, size: int): real {
    var h := size as real / 2.0;
    var dx, dy, dz := p.x as real - (lo.x as real + h), p.y as real - (lo.y as real + h),
                      p.z as real - (lo.z as real + h);
    dx * dx + dy * dy + dz * dz
  }

  lemma {:induction false} CentreDistFromMiddle(p: Point, lo: Point, size: int)
    ensures CentreDist(p, CellFrom(lo, size)) as real == 4.0 * FromMiddle(p, lo, size)
  {
    HalfSquare(p.x, lo.x, size);
    HalfSquare(p.y, lo.y, size);
    HalfSquare(p.z, lo.z, size);
  }

  lemma {:induction false} HalfSquare(p: int, lo: int, size: int)
    ensures var d := p as real - (lo as real + size as real / 2.0);
            Square(2 * p - (lo + (lo + size))) as real == 4.0 * (d * d)
  {
    var e := 2 * p - (lo + (lo + size));
    var d := p as real - (lo as real + size as real / 2.0);
    assert e as real == 2.0 * d;
    assert Square(e) as real == e as real * e as real;
  }

  /** The cell of side `size` with least corner `lo`. */
  function CellFrom(lo: Point, size: int): Box {
    Box(lo, Point(lo.x + size, lo.y + size, lo.z + size))
  }

  lemma {:induction false} FloorCell(x: int, c: int, size: int)
    requires size > 0
    ensures c * size <= x < c * size + size <==> x / size == c
  {
    var d := x / size;
    assert x == d * size + x % size;
    if d < c {
      assert (d + 1) * size <= c * size;
    } else if d > c {
      assert (c + 1) * size <= d * size;
    }
  }

  /** The half-open box of a cell holds exactly the points of the cell. */
  lemma {:induction false} InsideCell(p: Point, c: Cell, size: int)
    requires size > 0
    ensures Inside(CellBox(c, size), p) <==> CellOf(p, size) == c
  {
    FloorCell(p.x, c.i, size);
    FloorCell(p.y, c.j, size);
    FloorCell(p.z, c.k, size);
  }

  /**
    Downsampled insertion of `p`: its cell ends up with exactly one point `r`, one nearest the centre
    among the old points of the cell and `p`; nothing else changes.
   */
  ghost predicate Downsampled(S: multiset<Point>, p: Point, T: multiset<Point>, size: int)
    requires size > 0
  {
    var b := CellBox(CellOf(p, size), size);
    exists r :: NearestCentre(r, Within(S, b) + multiset{p}, b) && T == Outside(S, b) + multiset{r}
  }

  ghost predicate NearestCentre(r: Point, C: multiset<Point>, b: Box) {
    r in C && forall c :: c in C ==> CentreDist(r, b) <= CentreDist(c, b)
  }

  /** The least corner of the cell of a point is the grid point at or below it on every axis. */
  lemma {:induction false} CellCorner(p: Point, size: int, lo: Point)
    requires size > 0 && lo.x % size == 0 && lo.y % size == 0 && lo.z % size == 0
    requires lo.x <= p.x < lo.x + size && lo.y <= p.y < lo.y + size && lo.z <= p.z < lo.z + size
    ensures CellBox(CellOf(p, size), size) == CellFrom(lo, size)
  {
    GridPoint(p.x, lo.x, size);
    GridPoint(p.y, lo.y, size);
    GridPoint(p.z, lo.z, size);
  }

  lemma {:induction false} GridPoint(x: int, lo: int, size: int)
    requires size > 0 && lo % size == 0 && lo <= x < lo + size
    ensures x / size * size == lo
  {
    FloorCell(x, lo / size, size);
  }

  /** The cell with least corner `lo` comes to hold `r` alone, and nothing else changes. */
  ghost predicate HoldsAlone(r: Point, S: multiset<Point>, T: multiset<Point>, lo: Point, size: int) {
    forall q :: T[q] == (if Inside(CellFrom(lo, size), q) then 0 else S[q]) + (if q == r then 1 else 0)
  }

  lemma {:induction false} HoldsAloneMeaning(r: Point, S: multiset<Point>, T: multiset<Point>, lo: Point, size: int)
    ensures HoldsAlone(r, S, T, lo, size) <==> T == Outside(S, CellFrom(lo, size)) + multiset{r}
  {
  }

  /** No old point of the cell, nor `p`, is nearer the middle than `r`, which is one of them. */
  ghost predicate NearestMiddle(r: Point, S: multiset<Point>, p: Point, lo: Point, size: int) {
    && (r == p || (r in S && Inside(CellFrom(lo, size), r)))
    && forall c :: c == p || (c in S && Inside(CellFrom(lo, size), c)) ==>
         FromMiddle(r, lo, size) <= FromMiddle(c, lo, size)
  }

  lemma {:induction false} NearestCentreMeaning(r: Point, S: multiset<Point>, p: Point, lo: Point, size: int)
    ensures var b := CellFrom(lo, size);
            NearestCentre(r, Within(S, b) + multiset{p}, b) <==> NearestMiddle(r, S, p, lo, size)
  {
    forall c ensures CentreDist(c, CellFrom(lo, size)) as real == 4.0 * FromMiddle(c, lo, size) {
      CentreDistFromMiddle(c, lo, size);
    }
  }

  /** A downsampled insertion in coordinates: the grid cell around the new point, and the middle of that cell. */
  lemma {:induction false} DownsampledMeaning(S: multiset<Point>, p: Point, T: multiset<Point>, size: int, lo: Point)
    requires size > 0 && lo.x % size == 0 && lo.y % size == 0 && lo.z % size == 0
    requires lo.x <= p.x < lo.x + size && lo.y <= p.y < lo.y + size && lo.z <= p.z < lo.z + size
    ensures Downsampled(S, p, T, size) <==>
              exists r :: NearestMiddle(r, S, p, lo, size) && HoldsAlone(r, S, T, lo, size)
  {
    CellCorner(p, size, lo);
    var b := CellFrom(lo, size);
    if Downsampled(S, p, T, size) {
      var r :| NearestCentre(r, Within(S, b) + multiset{p}, b) && T == Outside(S, b) + multiset{r};
      NearestCentreMeaning(r, S, p, lo, size);
      HoldsAloneMeaning(r, S, T, lo, size);
    }
    if r :| NearestMiddle(r, S, p, lo, size) && HoldsAlone(r, S, T, lo, size) {
      NearestCentreMeaning(r, S, p, lo, size);
      HoldsAloneMeaning(r, S, T, lo, size);
    }
  }

  /** The map is edited unless the cell holds a single point, and that one nearer the middle. */
  lemma {:induction false} NeedsEditMeaning(S: multiset<Point>, p: Point, size: int, lo: Point)
    requires size > 0 && lo.x % size == 0 && lo.y % size == 0 && lo.z % size == 0
    requires lo.x <= p.x < lo.x + size && lo.y <= p.y < lo.y + size && lo.z <= p.z < lo.z + size
    ensures NeedsEdit(S, p, size) <==>
              |Within(S, CellFrom(lo, size))| > 1 || NearestMiddle(p, S, p, lo, size)
  {
    CellCorner(p, size, lo);
    NearestCentreMeaning(p, S, p, lo, size);
    assert OpenEdit(0);
  }

  ghost predicate OnePerCell(S: multiset<Point>, size: int)
    requires size > 0
  {
    forall c :: AtMostOne(S, c, size)
  }

  ghost predicate AtMostOne(S: multiset<Point>, c: Cell, size: int) {
    |Within(S, CellBox(c, size))| <= 1
  }

  /** The cell of the new point holds one point afterwards and every other cell is as before. */
  lemma {:induction false} DownsampledCells(S: multiset<Point>, p: Point, T: multiset<Point>, size: int, c: Cell)
    requires size > 0 && Downsampled(S, p, T, size)
    ensures if c == CellOf(p, size) then |Within(T, CellBox(c, size))| == 1
            else Within(T, CellBox(c, size)) == Within(S, CellBox(c, size))
  {
    var cp := CellOf(p, size);
    var own := CellBox(cp, size);
    var r :| NearestCentre(r, Within(S, own) + multiset{p}, own) && T == Outside(S, own) + multiset{r};
    InsideCell(p, cp, size);
    assert Inside(own, r);
    InsideCell(r, cp, size);
    InsideCell(r, c, size);
    forall q ensures c != cp ==> !(Inside(own, q) && Inside(CellBox(c, size), q)) {
      InsideCell(q, c, size);
      InsideCell(q, cp, size);
    }
    ReplacedWithin(S, own, r, T, CellBox(c, size), c == cp);
  }

  lemma {:induction false} ReplacedWithin(S: multiset<Point>, own: Box, r: Point, T: multiset<Point>, b: Box,
                                          same: bool)
    requires T == Outside(S, own) + multiset{r} && Inside(own, r)
    requires if same then b == own else forall q :: !(Inside(own, q) && Inside(b, q))
    ensures if same then |Within(T, b)| == 1 else Within(T, b) == Within(S, b)
  {
    if same {
      assert Within(T, b) == multiset{r};
    }
  }

  lemma {:induction false} DownsampledKeepsOnePerCell(S: multiset<Point>, p: Point, T: multiset<Point>, size: int)
    requires size > 0 && OnePerCell(S, size) && Downsampled(S, p, T, size)
    ensures OnePerCell(T, size)
  {
    forall c ensures AtMostOne(T, c, size) {
      assert AtMostOne(S, c, size);
      DownsampledCells(S, p, T, size, c);
    }
  }

  lemma {:induction false} SubsetCard(A: multiset<Point>, B: multiset<Point>)
    requires forall p :: A[p] <= B[p]
    ensures |A| <= |B|
  {
    assert B == A + (B - A);
  }

  lemma {:induction false} DeleteKeepsOnePerCell(S: multiset<Point>, b: Box, size: int)
    requires size > 0 && OnePerCell(S, size)
    ensures OnePerCell(Outside(S, b), size)
  {
    forall c ensures AtMostOne(Outside(S, b), c, size) {
      assert AtMostOne(S, c, size);
      SubsetCard(Within(Outside(S, b), CellBox(c, size)), Within(S, CellBox(c, size)));
    }
  }

  /** `b` is the box of the cell of `p`. */
  ghost predicate IsCellOf(b: Box, p: Point, size: int)
    requires size > 0
  {
    forall k :: OpenEdit(k) ==> forall q :: Inside(b, q) <==> CellOf(q, size) == CellOf(p, size)
  }

  /** The box around the cell of a point: what lies inside it is what shares the cell. */
  method FindCell(p: Point, size: int) returns (b: Box)
    requires size > 0
    ensures IsCellOf(b, p, size)
  {
    var min := Point(p.x / size * size, p.y / size * size, p.z / size * size);
    b := Box(min, Point(min.x + size, min.y + size, min.z + size));
    forall q ensures Inside(b, q) <==> CellOf(q, size) == CellOf(p, size) {
      InsideCell(q, CellOf(p, size), size);
    }
  }

  /** There is only one such box. */
  lemma {:induction false} OneCellBox(b: Box, p: Point, size: int)
    requires size > 0 && IsCellOf(b, p, size)
    ensures b == CellBox(CellOf(p, size), size)
  {
    var c := CellBox(CellOf(p, size), size);
    forall q ensures Inside(b, q) <==> Inside(c, q) {
      assert OpenEdit(0);
      InsideCell(q, CellOf(p, size), size);
    }
    SameInside(b, c);
  }

  lemma {:induction false} SameInside(b: Box, c: Box)
    requires c.min.x < c.max.x && c.min.y < c.max.y && c.min.z < c.max.z
    requires forall q :: Inside(b, q) <==> Inside(c, q)
    ensures b == c
  {
    var last := Point(c.max.x - 1, c.max.y - 1, c.max.z - 1);
    assert Inside(b, c.min) && Inside(b, last);
    assert !Inside(c, c.min.(x := c.min.x - 1)) && !Inside(c, c.min.(y := c.min.y - 1))
        && !Inside(c, c.min.(z := c.min.z - 1));
    assert !Inside(c, last.(x := c.max.x)) && !Inside(c, last.(y := c.max.y)) && !Inside(c, last.(z := c.max.z));
  }

  /** One edit of the map: a downsampled insertion or a box delete. */
  datatype Edit = Insert(p: Point) | DeleteBox(b: Box)

  ghost predicate EditStep(S: multiset<Point>, e: Edit, T: multiset<Point>, size: int)
    requires size > 0
  {
    forall k :: OpenEdit(k) ==>
      match e
      case Insert(p) => Downsampled(S, p, T, size)
      case DeleteBox(b) => T == Outside(S, b)
  }

  /** The states of a run of edits, one more than the edits. */
  ghost predicate EditRun(states: seq<multiset<Point>>, edits: seq<Edit>, size: int)
    requires size > 0
  {
    |states| == |edits| + 1 && forall i :: 0 <= i < |edits| ==> EditAt(states, edits, i, size)
  }

  ghost predicate EditAt(states: seq<multiset<Point>>, edits: seq<Edit>, i: nat, size: int)
    requires size > 0 && i < |edits| && i + 1 < |states|
  {
    EditStep(states[i], edits[i], states[i + 1], size)
  }

  lemma {:induction false} StepKeepsOnePerCell(S: multiset<Point>, e: Edit, T: multiset<Point>, size: int)
    requires size > 0 && OnePerCell(S, size) && EditStep(S, e, T, size)
    ensures OnePerCell(T, size)
  {
    assert OpenEdit(0);
    match e
    case Insert(p) => DownsampledKeepsOnePerCell(S, p, T, size);
    case DeleteBox(b) => DeleteKeepsOnePerCell(S, b, size);
  }

  lemma {:induction false} EditAtKeepsOnePerCell(states: seq<multiset<Point>>, edits: seq<Edit>, i: nat, size: int)
    requires size > 0 && i < |edits| && i + 1 < |states| && EditAt(states, edits, i, size)
    requires OnePerCell(states[i], size)
    ensures OnePerCell(states[i + 1], size)
  {
    StepKeepsOnePerCell(states[i], edits[i], states[i + 1], size);
  }

  /** Over any run of downsampled insertions and box deletes, one point per cell stays one point per cell. */
  lemma {:induction false} RunKeepsOnePerCell(states: seq<multiset<Point>>, edits: seq<Edit>, size: int, n: nat)
    requires size > 0 && EditRun(states, edits, size) && OnePerCell(states[0], size) && n < |states|
    ensures OnePerCell(states[n], size)
  {
    if n > 0 {
      RunKeepsOnePerCell(states, edits, size, n - 1);
      assert EditAt(states, edits, n - 1, size);
      EditAtKeepsOnePerCell(states, edits, n - 1, size);
    }
  }

  function Insertions(points: seq<Point>): seq<Edit> {
    seq(|points|, i requires 0 <= i < |points| => Insert(points[i]))
  }

  lemma {:induction false} ExtendRun(states: seq<multiset<Point>>, points: seq<Point>, p: Point, T: multiset<Point>,
                                     size: int)
    requires size > 0 && EditRun(states, Insertions(points), size)
    requires EditStep(states[|points|], Insert(p), T, size)
    ensures EditRun(states + [T], Insertions(points + [p]), size)
  {
    var edits := Insertions(points + [p]);
    forall i | 0 <= i < |edits| ensures EditAt(states + [T], edits, i, size) {
      if i < |points| {
        assert EditAt(states, Insertions(points), i, size);
      }
    }
  }

  // ---- The cases of a downsampled insertion ----

  lemma {:induction false} OutsideUntouched(S: multiset<Point>, b: Box)
    ensures Within(S, b) == multiset{} ==> Outside(S, b) == S
  {
    if Within(S, b) == multiset{} {
      forall p ensures Outside(S, b)[p] == S[p] {
        assert Within(S, b)[p] == 0;
      }
    }
  }

  /** `found` are the points of `S` in the cell `b` of `p`, and `r` is a point nearest its centre among them and `p`. */
  ghost predicate Picked(S: multiset<Point>, p: Point, found: seq<Point>, r: Point, b: Box, size: int)
    requires size > 0
  {
    forall k :: OpenEdit(k) ==>
      && IsCellOf(b, p, size) && multiset(found) == Within(S, b)
      && NearestCentre(r, multiset(found) + multiset{p}, b)
      && (r == p || (r in found && CentreDist(r, b) < CentreDist(p, b)))
  }

  /** `r` takes the place of what the cell `b` holds, if it is known to hold anything. */
  ghost predicate Replaced(S: multiset<Point>, b: Box, occupied: bool, r: Point, T: multiset<Point>) {
    forall k :: OpenEdit(k) ==> T == (if occupied then Outside(S, b) else S) + multiset{r}
  }

  lemma {:induction false} ReplacedBy(S: multiset<Point>, b: Box, occupied: bool, r: Point, M: multiset<Point>,
                                      T: multiset<Point>)
    requires M == if occupied then Outside(S, b) else S
    requires T == M + multiset{r}
    ensures Replaced(S, b, occupied, r, T)
  {
  }

  /**
    The choice between replacing the contents of the cell by `r` and leaving the map alone: it is left
    alone only when the cell holds a single point that is nearer the centre than the new one.
   */
  lemma {:induction false} PickedDownsampled(S: multiset<Point>, p: Point, found: seq<Point>, r: Point, b: Box,
                                             T: multiset<Point>, edited: bool, size: int)
    requires size > 0 && Picked(S, p, found, r, b, size)
    requires edited == (|found| > 1 || r == p)
    requires if edited then Replaced(S, b, |found| > 0, r, T) else T == S
    ensures EditStep(S, Insert(p), T, size)
  {
    assert OpenEdit(0);
    OneCellBox(b, p, size);
    if edited {
      OutsideUntouched(S, b);
      assert |found| == 0 ==> found == [];
    } else {
      LoneKept(S, found, r, b);
    }
    assert T == Outside(S, b) + multiset{r};
    assert Downsampled(S, p, T, size);
  }

  /** A cell that holds a single point is not changed by putting that point back. */
  lemma {:induction false} LoneKept(S: multiset<Point>, found: seq<Point>, r: Point, b: Box)
    requires multiset(found) == Within(S, b) && |found| <= 1 && r in found
    ensures S == Outside(S, b) + multiset{r}
  {
    assert found == [r];
    assert S == Outside(S, b) + Within(S, b);
  }

  /** Inserting `p` edits the map: its cell holds several points, or none that is nearer the centre than `p`. */
  ghost predicate NeedsEdit(S: multiset<Point>, p: Point, size: int)
    requires size > 0
  {
    forall k :: OpenEdit(k) ==>
      var b := CellBox(CellOf(p, size), size);
      |Within(S, b)| > 1 || forall c :: c in Within(S, b) ==> CentreDist(p, b) <= CentreDist(c, b)
  }

  lemma {:induction false} PickedEdits(S: multiset<Point>, p: Point, found: seq<Point>, r: Point, b: Box, size: int)
    requires size > 0 && Picked(S, p, found, r, b, size)
    ensures (|found| > 1 || r == p) <==> NeedsEdit(S, p, size)
  {
    assert OpenEdit(0);
    OneCellBox(b, p, size);
    assert |Within(S, b)| == |found|;
  }

  /** How many of the insertions edit the map. */
  ghost function EditCount(states: seq<multiset<Point>>, points: seq<Point>, size: int): nat
    requires size > 0 && |states| == |points| + 1
  {
    if points == [] then 0
    else
      var last := |points| - 1;
      EditCount(states[..last + 1], points[..last], size) + if NeedsEdit(states[last], points[last], size) then 1 else 0
  }

  lemma {:induction false} EditCountStep(states: seq<multiset<Point>>, points: seq<Point>, p: Point,
                                         T: multiset<Point>, size: int)
    requires size > 0 && |states| == |points| + 1
    ensures EditCount(states + [T], points + [p], size)
         == EditCount(states, points, size) + if NeedsEdit(states[|points|], p, size) then 1 else 0
  {
    assert (states + [T])[..|points| + 1] == states && (points + [p])[..|points|] == points;
  }

  /** Inserting `points` one after another leads from `S` to `T` through `states`; `count` of them edit the map. */
  ghost predicate Inserted(states: seq<multiset<Point>>, points: seq<Point>, S: multiset<Point>, T: multiset<Point>,
                           size: int, count: int)
    requires size > 0
  {
    forall k :: OpenEdit(k) ==>
      && EditRun(states, Insertions(points), size) && states[0] == S && states[|points|] == T
      && count == EditCount(states, points, size)
  }

  lemma {:induction false} InsertedNone(S: multiset<Point>, size: int)
    requires size > 0
    ensures Inserted([S], [], S, S, size, 0)
  {
  }

  lemma {:induction false} InsertedMore(states: seq<multiset<Point>>, points: seq<Point>, p: Point, S: multiset<Point>,
                                        T: multiset<Point>,
                                        U: multiset<Point>, size: int, count: int, edited: bool)
    requires size > 0 && Inserted(states, points, S, T, size, count)
    requires EditStep(T, Insert(p), U, size) && (edited <==> NeedsEdit(T, p, size))
    ensures Inserted(states + [U], points + [p], S, U, size, if edited then count + 1 else count)
  {
    assert OpenEdit(0);
    ExtendRun(states, points, p, U, size);
    EditCountStep(states, points, p, U, size);
  }

  lemma {:induction false} OpenInserted(states: seq<multiset<Point>>, points: seq<Point>, S: multiset<Point>,
                                        T: multiset<Point>,
                                        size: int, count: int)
    requires size > 0 && Inserted(states, points, S, T, size, count)
    ensures EditRun(states, Insertions(points), size) && states[0] == S && states[|points|] == T
    ensures count == EditCount(states, points, size)
  {
    assert OpenEdit(0);
  }
}
