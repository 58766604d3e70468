/** Building a k-d tree over a range of the point storage: median split along the longest axis. */
module TreeBuilder {
  import opened Geometry
  import opened TreeModel
  import opened StaleTrees
  import opened Balance
  import opened KdNodes
  import opened Folding

  /** `axis` has the largest extent, and is the first such axis. */
  ghost predicate LongestAxis(r: Range, axis: Axis)
    requires r.Range?
  {
    forall a: Axis :: Extent(r, a) <= Extent(r, axis) && (a < axis ==> Extent(r, a) < Extent(r, axis))
  }

  ghost function Points(t: Tree): multiset<Point> {
    if t.Nil? then multiset{} else Points(t.left) + multiset{t.d.point} + Points(t.right)
  }

  /** A node with no deletion mark and no pending push. */
  predicate Unmarked(d: Data) {
    && !d.pointDeleted && !d.treeDeleted && !d.pointDownDeleted && !d.treeDownDeleted
    && !d.needLeft && !d.needRight && d.invalid == 0 && d.downDel == 0
  }

  /** The split of a node: even, ordered, and along the longest side of the exact bounding box of its points. */
  ghost predicate SplitWell(d: Data, l: Tree, r: Tree) {
    forall k :: OpenSplit(k) ==> SplitParts(d, l, r)
  }

  ghost predicate SplitParts(d: Data, l: Tree, r: Tree) {
    && d.size == 1 + Size(l) + Size(r)
    && Size(l) == (d.size - 1) / 2
    && (forall p :: p in Points(l) ==> Coord(p, d.axis) <= Coord(d.point, d.axis))
    && (forall p :: p in Points(r) ==> Coord(d.point, d.axis) <= Coord(p, d.axis))
    && d.range.Range? && d.range == LiveJoin(d, l, r)
    && LongestAxis(d.range, d.axis)
  }

  /** What BuildTree promises at every node. */
  ghost predicate WellBuilt(t: Tree) {
    t.Node? ==> Unmarked(t.d) && SplitWell(t.d, t.left, t.right) && WellBuilt(t.left) && WellBuilt(t.right)
  }

  /** A tree BuildTree may return for the points `S`. */
  ghost predicate BuiltOver(t: Tree, S: multiset<Point>) {
    forall k :: Open(k) ==> WellBuilt(t) && Points(t) == S
  }

  lemma {:induction false} OpenBuilt(t: Tree, S: multiset<Point>)
    requires BuiltOver(t, S)
    ensures WellBuilt(t) && Points(t) == S
  {
    assert Open(0);
  }

  lemma {:induction false} PointsStored(t: Tree)
    ensures forall p :: p in Stored(t) <==> p in Points(t)
  {
    if t.Node? {
      PointsStored(t.left);
      PointsStored(t.right);
    }
  }

  lemma {:induction false} OpenSplitWell(d: Data, l: Tree, r: Tree)
    requires SplitWell(d, l, r)
    ensures SplitParts(d, l, r)
  {
    assert OpenSplit(0);
  }

  lemma {:induction false} WellBuiltInv(t: Tree)
    requires WellBuilt(t)
    ensures Inv(t) && Invalid(t) == 0
  {
    if t.Node? {
      WellBuiltInv(t.left);
      WellBuiltInv(t.right);
      OpenSplitWell(t.d, t.left, t.right);
    }
  }

  lemma {:induction false} WellBuiltUsable(t: Tree)
    requires WellBuilt(t)
    ensures Usable(t)
  {
    if t.Node? {
      WellBuiltUsable(t.left);
      WellBuiltUsable(t.right);
      OpenSplitWell(t.d, t.left, t.right);
      WellBuiltInv(t);
    }
  }

  lemma {:induction false} WellBuiltMeaning(t: Tree)
    requires WellBuilt(t)
    ensures Live(t) == Points(t) && Removed(t) == multiset{}
    ensures Size(t) == |Points(t)|
  {
    if t.Node? {
      WellBuiltMeaning(t.left);
      WellBuiltMeaning(t.right);
      OpenSplitWell(t.d, t.left, t.right);
    }
  }

  lemma {:induction false} WellBuiltShape(t: Tree)
    requires WellBuilt(t)
    ensures Ordered(t) && Halved(t)
  {
    if t.Node? {
      WellBuiltShape(t.left);
      WellBuiltShape(t.right);
      PointsStored(t.left);
      PointsStored(t.right);
      OpenSplitWell(t.d, t.left, t.right);
    }
  }

  lemma {:induction false} WellBuiltLean(t: Tree, cfg: Config)
    requires WellBuilt(t)
    ensures Lean(t, cfg)
  {
    if t.Node? {
      WellBuiltLean(t.left, cfg);
      WellBuiltLean(t.right, cfg);
      assert t.d.invalid == 0;
    }
  }

  lemma {:induction false} SwapMultiset(s: seq<Point>, i: nat, j: nat)
    requires i < |s| && j < |s|
    ensures multiset(s[i := s[j]][j := s[i]]) == multiset(s)
  {
  }

  method IndexOfLeast(s: seq<Point>, from: nat, axis: Axis) returns (k: nat)
    requires from < |s|
    ensures from <= k < |s| && forall i :: from <= i < |s| ==> Coord(s[k], axis) <= Coord(s[i], axis)
  {
    k := from;
    for j := from + 1 to |s|
      invariant from <= k < j && forall i :: from <= i < j ==> Coord(s[k], axis) <= Coord(s[i], axis)
    {
      if Coord(s[j], axis) < Coord(s[k], axis) {
        k := j;
      }
    }
  }

  /** The contract of the library's selection algorithm: the element at `mid` is in its sorted place. */
  method NthElement(points: seq<Point>, mid: nat, axis: Axis) returns (s: seq<Point>)
    requires mid < |points|
    ensures |s| == |points| && multiset(s) == multiset(points)
    ensures forall i :: 0 <= i < mid ==> Coord(s[i], axis) <= Coord(s[mid], axis)
    ensures forall i :: mid <= i < |s| ==> Coord(s[mid], axis) <= Coord(s[i], axis)
  {
    s := points;
    for i := 0 to mid + 1
      invariant |s| == |points| && multiset(s) == multiset(points)
      invariant forall x, y :: 0 <= x < i && x <= y < |s| ==> Coord(s[x], axis) <= Coord(s[y], axis)
    {
      var k := IndexOfLeast(s, i, axis);
      SwapMultiset(s, i, k);
      s := s[i := s[k]][k := s[i]];
    }
  }

  method LongestAxisOf(points: seq<Point>) returns (axis: Axis, ghost box: Range)
    requires points != []
    ensures Tight(box, multiset(points)) && LongestAxis(box, axis)
    ensures var x, y, z := box.hi.x - box.lo.x, box.hi.y - box.lo.y, box.hi.z - box.lo.z;
            axis == if x >= y && x >= z then 0 else if y >= z then 1 else 2
  {
    var range := NoRange;
    for i := 0 to |points|
      invariant if i == 0 then range == NoRange else Tight(range, multiset(points[..i]))
    {
      TightPoint(points[i]);
      assert i > 0 ==> points[..i][0] in multiset(points[..i]);
      TightJoin(range, Range(points[i], points[i]), multiset(points[..i]), multiset{points[i]});
      assert points[..i + 1] == points[..i] + [points[i]];
      range := Join(range, Range(points[i], points[i]));
    }
    assert points[..|points|] == points;
    box := range;
    var x, y, z := range.hi.x - range.lo.x, range.hi.y - range.lo.y, range.hi.z - range.lo.z;
    axis := 0;
    if y > x {
      axis := 1;
    }
    if z > (if axis == 0 then x else y) {
      axis := 2;
    }
    assert Extent(box, 0) == x && Extent(box, 1) == y && Extent(box, 2) == z;
  }

  /** The range computed from the sons is the box found by scanning the points. */
  lemma {:induction false} BuiltRange(d: Data, l: Tree, r: Tree, box: Range)
    requires WellBuilt(l) && WellBuilt(r) && !d.pointDeleted
    requires Tight(box, Points(l) + multiset{d.point} + Points(r))
    ensures LiveJoin(d, l, r) == box
  {
    WellBuiltTight(l);
    WellBuiltTight(r);
    TightPoint(d.point);
    TightJoin(RangeIf(!Dead(l), RangeOf(l)), RangeIf(!Dead(r), RangeOf(r)), Points(l), Points(r));
    TightJoin(Range(d.point, d.point), Join(RangeIf(!Dead(l), RangeOf(l)), RangeIf(!Dead(r), RangeOf(r))),
              multiset{d.point}, Points(l) + Points(r));
    assert multiset{d.point} + (Points(l) + Points(r)) == Points(l) + multiset{d.point} + Points(r);
    TightUnique(LiveJoin(d, l, r), box, Points(l) + multiset{d.point} + Points(r));
  }

  lemma {:induction false} WellBuiltTight(t: Tree)
    requires WellBuilt(t)
    ensures t.Node? ==> !Dead(t) && Points(t) != multiset{} && Tight(t.d.range, Points(t))
  {
    if t.Node? {
      assert t.d.point in Points(t);
      WellBuiltMeaning(t);
      WellBuiltInv(t);
      CachedFieldsExact(t);
    }
  }

  lemma {:induction false} BuiltSplit(p: Point, axis: Axis, l: Tree, r: Tree, box: Range)
    requires WellBuilt(l) && WellBuilt(r)
    requires |Points(l)| == (|Points(l)| + |Points(r)|) / 2
    requires forall q :: q in Points(l) ==> Coord(q, axis) <= Coord(p, axis)
    requires forall q :: q in Points(r) ==> Coord(p, axis) <= Coord(q, axis)
    requires Tight(box, Points(l) + multiset{p} + Points(r)) && LongestAxis(box, axis)
    ensures SplitParts(Update(Node(FreshData(p, axis), l, r)).d, l, r)
  {
    BuiltRange(FreshData(p, axis), l, r, box);
    BuiltSize(l);
    BuiltSize(r);
    BuiltUpdate(p, axis, l, r);
  }

  lemma {:induction false} BuiltSize(t: Tree)
    requires WellBuilt(t)
    ensures Size(t) == |Points(t)| && Invalid(t) == 0
  {
    WellBuiltMeaning(t);
    WellBuiltInv(t);
  }

  lemma {:induction false} BuiltNode(p: Point, axis: Axis, l: Tree, r: Tree)
    requires WellBuilt(l) && WellBuilt(r)
    requires SplitParts(Update(Node(FreshData(p, axis), l, r)).d, l, r)
    ensures var u := Update(Node(FreshData(p, axis), l, r));
            WellBuilt(u) && Points(u) == Points(l) + multiset{p} + Points(r)
  {
    WellBuiltMeaning(l);
    WellBuiltMeaning(r);
    WellBuiltInv(l);
    WellBuiltInv(r);
    BuiltUpdate(p, axis, l, r);
  }

  lemma {:induction false} BuiltUpdate(p: Point, axis: Axis, l: Tree, r: Tree)
    requires WellBuilt(l) && WellBuilt(r) && Invalid(l) == 0 == Invalid(r)
    ensures var u := Update(Node(FreshData(p, axis), l, r));
            && Unmarked(u.d) && u.left == l && u.right == r && u.d.size == 1 + Size(l) + Size(r)
            && u.d.point == p && u.d.axis == axis && u.d.range == LiveJoin(FreshData(p, axis), l, r)
            && LiveJoin(u.d, l, r) == u.d.range
  {
  }

  /** The points are divided around `p` along the longest side of their exact bounding box. */
  ghost predicate SplitDone(lo: multiset<Point>, p: Point, hi: multiset<Point>, axis: Axis, box: Range) {
    forall k :: OpenSplit(k) ==>
      && |lo| == (|lo| + |hi|) / 2
      && (forall q :: q in lo ==> Coord(q, axis) <= Coord(p, axis))
      && (forall q :: q in hi ==> Coord(p, axis) <= Coord(q, axis))
      && Tight(box, lo + multiset{p} + hi) && LongestAxis(box, axis)
  }

  /** Divides the points at their middle element on the axis of largest extent. */
  method Split(points: seq<Point>)
    returns (lo: seq<Point>, p: Point, hi: seq<Point>, axis: Axis, ghost box: Range)
    requires points != []
    ensures |lo| == (|points| - 1) / 2 && |hi| == |points| - 1 - |lo|
    ensures multiset(points) == multiset(lo) + multiset{p} + multiset(hi)
    ensures SplitDone(multiset(lo), p, multiset(hi), axis, box)
  {
    axis, box := LongestAxisOf(points);
    var mid := (|points| - 1) / 2;
    var s := NthElement(points, mid, axis);
    lo, p, hi := s[..mid], s[mid], s[mid + 1..];
    assert s == lo + [p] + hi;
  }

  lemma {:induction false} BuiltOverNode(lt: Tree, rt: Tree, lo: multiset<Point>, p: Point, hi: multiset<Point>,
                                         axis: Axis, box: Range)
    requires SplitDone(lo, p, hi, axis, box) && BuiltOver(lt, lo) && BuiltOver(rt, hi)
    ensures BuiltOver(Update(Node(FreshData(p, axis), lt, rt)), lo + multiset{p} + hi)
  {
    assert OpenSplit(0);
    OpenBuilt(lt, lo);
    OpenBuilt(rt, hi);
    BuiltSplit(p, axis, lt, rt, box);
    BuiltNode(p, axis, lt, rt);
  }

  method NewFather(p: Point, axis: Axis, leftSon: KdNode?, rightSon: KdNode?,
                   ghost lo: multiset<Point>, ghost hi: multiset<Point>, ghost box: Range)
    returns (root: KdNode)
    requires leftSon != null ==> leftSon.Valid()
    requires rightSon != null ==> rightSon.Valid()
    requires leftSon != null && rightSon != null ==> leftSon.Repr !! rightSon.Repr
    requires SplitDone(lo, p, hi, axis, box) && BuiltOver(Model(leftSon), lo) && BuiltOver(Model(rightSon), hi)
    ensures root.Valid() && fresh(root) && root.Repr == {root} + ReprOf(leftSon) + ReprOf(rightSon)
    ensures BuiltOver(root.model, lo + multiset{p} + hi)
  {
    BuiltOverNode(Model(leftSon), Model(rightSon), lo, p, hi, axis, box);
    root := new KdNode(p, axis);
    root.left := leftSon;
    root.right := rightSon;
    root.Update();
  }

  lemma {:induction false} BuiltNothing()
    ensures BuiltOver(Nil, multiset{})
  {
  }

  /** Builds the tree over the points of one storage range. */
  method BuildTree(points: seq<Point>) returns (root: KdNode?)
    ensures root == null <==> points == []
    ensures root != null ==> root.Valid() && fresh(root.Repr)
    ensures BuiltOver(Model(root), multiset(points))
    decreases |points|
  {
    if points == [] {
      BuiltNothing();
      return null;
    }
    var lo, p, hi, axis, box := Split(points);
    var leftSon := BuildTree(lo);
    var rightSon := BuildTree(hi);
    root := NewFather(p, axis, leftSon, rightSon, multiset(lo), multiset(hi), box);
  }
}
