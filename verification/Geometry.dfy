/** Points, half-open query boxes and closed bounding ranges in fixed-point coordinates. */
module Geometry {
  datatype Point = Point(x: int, y: int, z: int)

  /** A query box: closed at `min`, open at `max`. */
  datatype Box = Box(min: Point, max: Point)

  /** A cached bounding range, closed on both ends; `NoRange` is the (+inf, -inf) start value. */
  datatype Range = NoRange | Range(lo: Point, hi: Point)

  type Axis = i: int | 0 <= i < 3

  function Min(a: int, b: int): int {
    if a <= b then a else b
  }

  function Max(a: int, b: int): int {
    if a >= b then a else b
  }

  function Coord(p: Point, axis: Axis): int {
    if axis == 0 then p.x else if axis == 1 then p.y else p.z
  }

  function Join(a: Range, b: Range): Range {
    if a.NoRange? then b
    else if b.NoRange? then a
    else Range(Point(Min(a.lo.x, b.lo.x), Min(a.lo.y, b.lo.y), Min(a.lo.z, b.lo.z)),
               Point(Max(a.hi.x, b.hi.x), Max(a.hi.y, b.hi.y), Max(a.hi.z, b.hi.z)))
  }

  predicate InRange(p: Point, r: Range) {
    && r.Range?
    && r.lo.x <= p.x <= r.hi.x
    && r.lo.y <= p.y <= r.hi.y
    && r.lo.z <= p.z <= r.hi.z
  }

  predicate Inside(b: Box, p: Point) {
    && b.min.x <= p.x < b.max.x
    && b.min.y <= p.y < b.max.y
    && b.min.z <= p.z < b.max.z
  }

  /** The early-return test of the range walks: the box lies beside the range on some axis. */
  predicate Misses(b: Box, r: Range) {
    r.Range? ==>
      || b.max.x <= r.lo.x || b.min.x > r.hi.x
      || b.max.y <= r.lo.y || b.min.y > r.hi.y
      || b.max.z <= r.lo.z || b.min.z > r.hi.z
  }

  /** The whole-subtree test of the range walks. */
  predicate Covers(b: Box, r: Range) {
    r.Range? ==>
      && b.min.x <= r.lo.x && b.max.x > r.hi.x
      && b.min.y <= r.lo.y && b.max.y > r.hi.y
      && b.min.z <= r.lo.z && b.max.z > r.hi.z
  }

  function Extent(r: Range, axis: Axis): int
    requires r.Range?
  {
    Coord(r.hi, axis) - Coord(r.lo, axis)
  }

  /** `r` is the exact bounding box of `S`: it holds every point and each face is attained. */
  ghost predicate Tight(r: Range, S: multiset<Point>) {
    && r.Range?
    && (forall p :: p in S ==> InRange(p, r))
    && (forall axis: Axis :: Attained(axis, r, S))
  }

  ghost predicate Attained(axis: Axis, r: Range, S: multiset<Point>)
    requires r.Range?
  {
    && (exists p :: p in S && Coord(p, axis) == Coord(r.lo, axis))
    && (exists p :: p in S && Coord(p, axis) == Coord(r.hi, axis))
  }

  /** A multiset has at most one exact bounding box. */
  lemma TightUnique(r: Range, q: Range, S: multiset<Point>)
    requires Tight(r, S) && Tight(q, S)
    ensures r == q
  {
    forall axis: Axis
      ensures Coord(r.lo, axis) == Coord(q.lo, axis) && Coord(r.hi, axis) == Coord(q.hi, axis)
    {
      assert Attained(axis, r, S) && Attained(axis, q, S);
    }
    assert Coord(r.lo, 0) == Coord(q.lo, 0) && Coord(r.lo, 1) == Coord(q.lo, 1) && Coord(r.lo, 2) == Coord(q.lo, 2);
    assert Coord(r.hi, 0) == Coord(q.hi, 0) && Coord(r.hi, 1) == Coord(q.hi, 1) && Coord(r.hi, 2) == Coord(q.hi, 2);
  }

  lemma TightJoin(r: Range, q: Range, S: multiset<Point>, T: multiset<Point>)
    requires if S == multiset{} then r == NoRange else Tight(r, S)
    requires if T == multiset{} then q == NoRange else Tight(q, T)
    ensures if S + T == multiset{} then Join(r, q) == NoRange else Tight(Join(r, q), S + T)
  {
    if S == multiset{} {
      assert S + T == T;
    } else if T == multiset{} {
      assert S + T == S;
    } else {
      var j := Join(r, q);
      forall axis: Axis ensures Attained(axis, j, S + T) {
        assert Attained(axis, r, S) && Attained(axis, q, T);
        var a :| a in S && Coord(a, axis) == Coord(r.lo, axis);
        var b :| b in T && Coord(b, axis) == Coord(q.lo, axis);
        var c :| c in S && Coord(c, axis) == Coord(r.hi, axis);
        var d :| d in T && Coord(d, axis) == Coord(q.hi, axis);
        assert a in S + T && b in S + T && c in S + T && d in S + T;
      }
    }
  }

  lemma TightPoint(p: Point)
    ensures Tight(Range(p, p), multiset{p})
  {
    forall axis: Axis ensures Attained(axis, Range(p, p), multiset{p}) {
      assert p in multiset{p};
    }
  }

  /** A box that does not cover an exact bounding box leaves some point outside. */
  lemma NotCoveredWitness(b: Box, r: Range, S: multiset<Point>) returns (p: Point)
    requires Tight(r, S) && !Covers(b, r)
    ensures p in S && !Inside(b, p)
  {
    var axis: Axis := if Coord(b.min, 0) > Coord(r.lo, 0) || Coord(b.max, 0) <= Coord(r.hi, 0) then 0
                      else if Coord(b.min, 1) > Coord(r.lo, 1) || Coord(b.max, 1) <= Coord(r.hi, 1) then 1
                      else 2;
    assert Attained(axis, r, S);
    if Coord(b.min, axis) > Coord(r.lo, axis) {
      p :| p in S && Coord(p, axis) == Coord(r.lo, axis);
    } else {
      p :| p in S && Coord(p, axis) == Coord(r.hi, axis);
    }
  }

  /** The part of a multiset of points that lies outside a box. */
  ghost function Outside(S: multiset<Point>, b: Box): (R: multiset<Point>)
    ensures forall p :: R[p] == if Inside(b, p) then 0 else S[p]
    decreases |S|
  {
    if S == multiset{} then S
    else
      var p :| p in S;
      var rest := Outside(S - multiset{p}, b);
      if Inside(b, p) then rest else rest + multiset{p}
  }

  /** The part of a multiset of points that lies inside a box. */
  ghost function Within(S: multiset<Point>, b: Box): (R: multiset<Point>)
    ensures forall p :: R[p] == if Inside(b, p) then S[p] else 0
  {
    S - Outside(S, b)
  }

  /** A box beside the exact bounding box of some points holds none of them; one around it holds them all. */
  lemma {:induction false} BoxAndRange(r: Range, S: multiset<Point>, b: Box)
    requires Tight(r, S)
    ensures Misses(b, r) ==> Outside(S, b) == S
    ensures Covers(b, r) ==> Outside(S, b) == multiset{}
  {
    if Misses(b, r) {
      assert forall p :: p in S ==> !Inside(b, p);
    }
    if Covers(b, r) {
      assert forall p :: p in S ==> Inside(b, p);
    }
  }

  lemma {:induction false} OutsideSplit(S: multiset<Point>, T: multiset<Point>, b: Box)
    ensures Outside(S + T, b) == Outside(S, b) + Outside(T, b)
  {
  }

  lemma {:induction false} WithinSplit(S: multiset<Point>, T: multiset<Point>, b: Box)
    ensures Within(S + T, b) == Within(S, b) + Within(T, b)
  {
  }

  /** The part of a multiset of points that lies outside every box. */
  ghost function OutsideAll(S: multiset<Point>, boxes: seq<Box>): (R: multiset<Point>)
    ensures forall p :: R[p] == if exists b :: b in boxes && Inside(b, p) then 0 else S[p]
    decreases |boxes|
  {
    if boxes == [] then S
    else
      var last := |boxes| - 1;
      assert boxes == boxes[..last] + [boxes[last]];
      Outside(OutsideAll(S, boxes[..last]), boxes[last])
  }

  lemma {:induction false} OutsideAllStep(S: multiset<Point>, boxes: seq<Box>, i: nat)
    requires i < |boxes|
    ensures OutsideAll(S, boxes[..i + 1]) == Outside(OutsideAll(S, boxes[..i]), boxes[i])
  {
    assert boxes[..i + 1][..i] == boxes[..i];
  }

  lemma {:induction false} PrefixStep(s: seq<Point>, i: nat)
    requires i < |s|
    ensures s[..i + 1] == s[..i] + [s[i]] && multiset(s[..i + 1]) == multiset(s[..i]) + multiset{s[i]}
  {
    assert s[..i + 1] == s[..i] + [s[i]];
  }

  lemma {:induction false} PrefixWhole(s: seq<Point>)
    ensures s[..|s|] == s
  {
  }
}
