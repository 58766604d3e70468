/** Exact k-nearest-neighbour search over the partly deleted tree. */
module Knn {
  import opened Options
  import opened Geometry
  import opened TreeModel
  import opened StaleTrees
  import opened ManualHeap
  import opened KdNodes
  import opened KdSpec
  import opened Folding

  function Square(a: int): int {
    a * a
  }

  /** calc_dist: the squared distance. */
  function Dist(a: Point, b: Point): int {
    Square(a.x - b.x) + Square(a.y - b.y) + Square(a.z - b.z)
  }

  /** The squared gap between a coordinate and an interval. */
  function Gap(q: int, lo: int, hi: int): int {
    (if q < lo then Square(q - lo) else 0) + (if q > hi then Square(q - hi) else 0)
  }

  /** calc_box_dist: the squared distance to the cached range; None is infinity. */
  function BoxDist(r: Range, q: Point): Option<int> {
    if r.NoRange? then None
    else Some(Gap(q.x, r.lo.x, r.hi.x) + Gap(q.y, r.lo.y, r.hi.y) + Gap(q.z, r.lo.z, r.hi.z))
  }

  /** The squared distance, in coordinates. */
  ghost predicate IsSquaredDistance(d: int, a: Point, b: Point) {
    d == (a.x - b.x) * (a.x - b.x) + (a.y - b.y) * (a.y - b.y) + (a.z - b.z) * (a.z - b.z)
  }

  predicate AtMost(d: int, limit: Option<int>) {
    limit.None? || d <= limit.value
  }

  predicate Closer(d: Option<int>, than: int) {
    d.Some? && d.value < than
  }

  predicate NotFarther(a: Option<int>, b: Option<int>) {
    b.None? || (a.Some? && a.value <= b.value)
  }

  function ToCandidate(q: Point, p: Point): Candidate {
    Candidate(p, Dist(q, p))
  }

  /** The squared distance in coordinates; it is zero between equal points only. */
  lemma {:induction false} DistIsSquared(a: Point, b: Point)
    ensures IsSquaredDistance(Dist(a, b), a, b)
    ensures Dist(a, b) >= 0 && (Dist(a, b) == 0 <==> a == b)
  {
    SquareSign(a.x - b.x);
    SquareSign(a.y - b.y);
    SquareSign(a.z - b.z);
  }

  lemma {:induction false} SquareSign(a: int)
    ensures Square(a) == a * a >= 0 && (Square(a) == 0 <==> a == 0)
  {
  }

  lemma {:induction false} SquareMono(a: int, b: int)
    requires (0 <= a <= b) || (b <= a <= 0)
    ensures Square(a) <= Square(b) && 0 <= Square(b)
  {
  }

  lemma {:induction false} GapBound(q: int, lo: int, hi: int, p: int)
    requires lo <= p <= hi
    ensures 0 <= Gap(q, lo, hi) <= Square(q - p)
  {
    var d, e, f := q - p, q - lo, q - hi;
    SquareMono(0, d);
    if q < lo {
      SquareMono(e, d);
      assert Gap(q, lo, hi) == Square(e);
    } else if q > hi {
      SquareMono(f, d);
      assert Gap(q, lo, hi) == Square(f);
    }
  }

  /** The distance to a range never exceeds the distance to a point in it. */
  lemma {:induction false} BoxDistLower(r: Range, q: Point, p: Point)
    requires InRange(p, r)
    ensures BoxDist(r, q).Some? && BoxDist(r, q).value <= Dist(q, p)
  {
    GapBound(q.x, r.lo.x, r.hi.x, p.x);
    GapBound(q.y, r.lo.y, r.hi.y, p.y);
    GapBound(q.z, r.lo.z, r.hi.z, p.z);
  }

  function Clamp(q: int, lo: int, hi: int): int {
    if q < lo then lo else if q > hi then hi else q
  }

  /** The bound is attained: it is the distance to the point of the range nearest to `q`. */
  lemma {:induction false} BoxDistAttained(r: Range, q: Point) returns (p: Point)
    requires r.Range? && InRange(r.lo, r)
    ensures InRange(p, r) && BoxDist(r, q) == Some(Dist(q, p))
  {
    p := Point(Clamp(q.x, r.lo.x, r.hi.x), Clamp(q.y, r.lo.y, r.hi.y), Clamp(q.z, r.lo.z, r.hi.z));
  }

  // ---- What the heap holds ----

  /** Every point of `S` left out of `H` is out of the limit, or `H` is full of points that are no farther. */
  ghost predicate LeftOutFar(H: multiset<Candidate>, S: multiset<Point>, q: Point, k: nat, limit: Option<int>) {
    forall p :: S[p] > H[ToCandidate(q, p)] && AtMost(Dist(q, p), limit) ==>
      |H| == k && forall c :: c in H ==> c.dist <= Dist(q, p)
  }

  /** `H` consists of k nearest points of `S` within the limit, or of all of them when there are fewer than k. */
  ghost predicate IsNearest(H: multiset<Candidate>, S: multiset<Point>, q: Point, k: nat, limit: Option<int>) {
    && |H| <= k
    && (forall c :: c in H ==> c == ToCandidate(q, c.point) && AtMost(c.dist, limit))
    && (forall p :: H[ToCandidate(q, p)] <= S[p])
    && LeftOutFar(H, S, q, k, limit)
  }

  /** IsNearest, guarded. */
  ghost predicate Nearest(H: multiset<Candidate>, S: multiset<Point>, q: Point, k: nat, limit: Option<int>) {
    forall i :: OpenNearest(i) ==> IsNearest(H, S, q, k, limit)
  }

  lemma {:induction false} OpenIsNearest(H: multiset<Candidate>, S: multiset<Point>, q: Point, k: nat,
                                         limit: Option<int>)
    requires Nearest(H, S, q, k, limit)
    ensures IsNearest(H, S, q, k, limit)
  {
    assert OpenNearest(0);
  }

  lemma {:induction false} NearestNothing(q: Point, k: nat, limit: Option<int>)
    ensures Nearest(multiset{}, multiset{}, q, k, limit)
  {
  }

  /** Points that are out of the limit, or no nearer than a full heap, may be passed over. */
  lemma {:induction false} PassOver(H: multiset<Candidate>, S: multiset<Point>, T: multiset<Point>, q: Point, k: nat,
                                    limit: Option<int>)
    requires Nearest(H, S, q, k, limit)
    requires forall p :: p in T && AtMost(Dist(q, p), limit) ==>
               |H| == k && forall c :: c in H ==> c.dist <= Dist(q, p)
    ensures Nearest(H, S + T, q, k, limit)
  {
    OpenIsNearest(H, S, q, k, limit);
    forall p | (S + T)[p] > H[ToCandidate(q, p)] && AtMost(Dist(q, p), limit)
      ensures |H| == k && forall c :: c in H ==> c.dist <= Dist(q, p)
    {
      if S[p] <= H[ToCandidate(q, p)] {
        assert p in T;
      }
    }
    assert LeftOutFar(H, S + T, q, k, limit);
  }

  lemma {:induction false} Take(H: multiset<Candidate>, S: multiset<Point>, p: Point, q: Point, k: nat,
                                limit: Option<int>)
    requires Nearest(H, S, q, k, limit) && |H| < k && AtMost(Dist(q, p), limit)
    ensures Nearest(H + multiset{ToCandidate(q, p)}, S + multiset{p}, q, k, limit)
  {
    OpenIsNearest(H, S, q, k, limit);
    var H' := H + multiset{ToCandidate(q, p)};
    assert LeftOutFar(H', S + multiset{p}, q, k, limit);
  }

  /** A full heap swaps a farthest point for a nearer one. */
  lemma {:induction false} Replace(H: multiset<Candidate>, S: multiset<Point>, top: Candidate, p: Point, q: Point,
                                   k: nat, limit: Option<int>)
    requires Nearest(H, S, q, k, limit) && |H| == k && top in H
    requires forall c :: c in H ==> c.dist <= top.dist
    requires Dist(q, p) < top.dist && AtMost(Dist(q, p), limit)
    ensures Nearest(H - multiset{top} + multiset{ToCandidate(q, p)}, S + multiset{p}, q, k, limit)
  {
    OpenIsNearest(H, S, q, k, limit);
    var C := ToCandidate(q, p);
    var H', S' := H - multiset{top} + multiset{C}, S + multiset{p};
    assert |H'| == k;
    forall r ensures H'[ToCandidate(q, r)] <= S'[r] {
      assert H[ToCandidate(q, r)] <= S[r];
    }
    forall r | S'[r] > H'[ToCandidate(q, r)] && AtMost(Dist(q, r), limit)
      ensures forall c :: c in H' ==> c.dist <= Dist(q, r)
    {
      if S[r] <= H[ToCandidate(q, r)] {
        assert ToCandidate(q, r) == top;
      }
    }
    assert LeftOutFar(H', S', q, k, limit);
  }

  // ---- Pruning a subtree ----

  /** A subtree whose range is out of the limit, or no nearer than a full heap, may be skipped. */
  lemma {:induction false} SkipSubtree(t: Tree, H: multiset<Candidate>, S: multiset<Point>, top: Candidate, q: Point,
                                       k: nat, limit: Option<int>)
    requires Sound(t) && Nearest(H, S, q, k, limit)
    requires Dead(t)
          || (BoxDist(t.d.range, q).Some? && !AtMost(BoxDist(t.d.range, q).value, limit))
          || (|H| == k && !Closer(BoxDist(t.d.range, q), top.dist) && forall c :: c in H ==> c.dist <= top.dist)
    ensures Nearest(H, S + Live(t), q, k, limit)
  {
    OpenSound(t);
    UsableFlags(t);
    forall p | p in Live(t) && AtMost(Dist(q, p), limit)
      ensures |H| == k && forall c :: c in H ==> c.dist <= Dist(q, p)
    {
      BoxDistLower(t.d.range, q, p);
    }
    PassOver(H, S, Live(t), q, k, limit);
  }

  lemma {:induction false} GatherLeftFirst(t: Tree, H: multiset<Candidate>, S: multiset<Point>, q: Point, k: nat,
                                           limit: Option<int>)
    requires t.Node? && Nearest(H, S + Own(t.d) + Live(EffLeft(t)) + Live(EffRight(t)), q, k, limit)
    ensures Nearest(H, S + Live(t), q, k, limit)
  {
    CollectAlgebra(S, Own(t.d), Live(EffLeft(t)), Live(EffRight(t)));
  }

  lemma {:induction false} GatherRightFirst(t: Tree, H: multiset<Candidate>, S: multiset<Point>, q: Point, k: nat,
                                            limit: Option<int>)
    requires t.Node? && Nearest(H, S + Own(t.d) + Live(EffRight(t)) + Live(EffLeft(t)), q, k, limit)
    ensures Nearest(H, S + Live(t), q, k, limit)
  {
    SwapLast(S + Own(t.d), Live(EffLeft(t)), Live(EffRight(t)));
    GatherLeftFirst(t, H, S, q, k, limit);
  }

  lemma {:induction false} SwapLast(A: multiset<Point>, B: multiset<Point>, C: multiset<Point>)
    ensures A + B + C == A + C + B
  {
  }

  // ---- The search ----

  /** Offers a live point to the heap; a full heap gives up its top for a nearer point. */
  method Offer(q: Heap, point: Point, p: Point, k: nat, limit: Option<int>, ghost S: multiset<Point>)
    requires q.Valid() && q.heapSize <= k && 1 <= k <= q.cap
    requires Nearest(q.Contents(), S, point, k, limit)
    modifies q, q.heap
    ensures q.Valid() && q.heapSize <= k
    ensures Nearest(q.Contents(), S + multiset{p}, point, k, limit)
  {
    var dist := Dist(point, p);
    ghost var H := q.Contents();
    if !AtMost(dist, limit) {
      PassOver(H, S, multiset{p}, point, k, limit);
      return;
    }
    if q.heapSize < k {
      Take(H, S, p, point, k, limit);
      q.Push(Candidate(p, dist));
      return;
    }
    var top := q.Top();
    if dist < top.dist {
      Replace(H, S, top, p, point, k, limit);
      q.Pop();
      q.Push(Candidate(p, dist));
    } else {
      PassOver(H, S, multiset{p}, point, k, limit);
    }
  }

  method Search(root: KdNode?, k: nat, point: Point, q: Heap, limit: Option<int>, ghost S: multiset<Point>)
    requires root != null ==> root.Valid()
    requires Sound(Model(root))
    requires q.Valid() && q.heapSize <= k && 1 <= k <= q.cap
    requires Nearest(q.Contents(), S, point, k, limit)
    modifies ReprOf(root), q, q.heap
    ensures root != null ==> root.Valid() && root.Repr == old(root.Repr)
    ensures Walked(old(Model(root)), Model(root))
    ensures q.Valid() && q.heapSize <= k
    ensures Nearest(q.Contents(), S + old(Live(Model(root))), point, k, limit)
    decreases ReprOf(root), 4
  {
    ghost var t := Model(root);
    if root == null || root.d.treeDeleted {
      SkipSubtree(t, q.Contents(), S, Candidate(point, 0), point, k, limit);
      WalkedNowhere(t);
      return;
    }
    var curDist := BoxDist(root.d.range, point);
    if curDist.Some? && !AtMost(curDist.value, limit) {
      SkipSubtree(t, q.Contents(), S, Candidate(point, 0), point, k, limit);
      WalkedNowhere(t);
      return;
    }
    SearchNode(root, k, point, q, limit, S);
  }

  /** Looks at the point of a node and at its sons. */
  method SearchNode(root: KdNode, k: nat, point: Point, q: Heap, limit: Option<int>, ghost S: multiset<Point>)
    requires root.Valid() && Sound(root.model)
    requires q.Valid() && q.heapSize <= k && 1 <= k <= q.cap
    requires Nearest(q.Contents(), S, point, k, limit)
    modifies root.Repr, q, q.heap
    ensures root.Valid() && root.Repr == old(root.Repr) && Walked(old(root.model), root.model)
    ensures q.Valid() && q.heapSize <= k
    ensures Nearest(q.Contents(), S + old(Live(root.model)), point, k, limit)
    decreases root.Repr, 3
  {
    ghost var t := root.model;
    SonsSound(t);
    if root.d.needLeft || root.d.needRight {
      root.PushDown();
    }
    assert root.model == PushDown(t);
    OfferOwn(root.d, k, point, q, limit, S);
    SearchSons(root, k, point, q, limit, S, t);
  }

  /** Offers the point of a node, unless it is deleted. */
  method OfferOwn(d: Data, k: nat, point: Point, q: Heap, limit: Option<int>, ghost S: multiset<Point>)
    requires q.Valid() && q.heapSize <= k && 1 <= k <= q.cap
    requires Nearest(q.Contents(), S, point, k, limit)
    modifies q, q.heap
    ensures q.Valid() && q.heapSize <= k
    ensures Nearest(q.Contents(), S + Own(d), point, k, limit)
  {
    if d.pointDeleted {
      PassOver(q.Contents(), S, Own(d), point, k, limit);
    } else {
      Offer(q, point, d.point, k, limit, S);
    }
  }

  lemma {:induction false} WalkedNowhere(t: Tree)
    ensures Walked(t, t)
  {
  }

  method VisitLeft(root: KdNode, k: nat, point: Point, q: Heap, limit: Option<int>, ghost S: multiset<Point>)
    requires root.Valid() && Sound(root.model.left)
    requires q.Valid() && q.heapSize <= k && 1 <= k <= q.cap
    requires Nearest(q.Contents(), S, point, k, limit)
    modifies root.Repr, q, q.heap
    ensures root.Valid() && root.Repr == old(root.Repr) && root.d == old(root.d)
    ensures root.model == Node(root.d, root.model.left, old(root.model.right))
            && Walked(old(root.model.left), root.model.left)
    ensures q.Valid() && q.heapSize <= k
    ensures Nearest(q.Contents(), S + old(Live(root.model.left)), point, k, limit)
    decreases root.Repr, 0
  {
    VisitIfCloser(root.left, k, point, q, limit, S);
    root.model := Node(root.d, Model(root.left), Model(root.right));
  }

  method VisitRight(root: KdNode, k: nat, point: Point, q: Heap, limit: Option<int>, ghost S: multiset<Point>)
    requires root.Valid() && Sound(root.model.right)
    requires q.Valid() && q.heapSize <= k && 1 <= k <= q.cap
    requires Nearest(q.Contents(), S, point, k, limit)
    modifies root.Repr, q, q.heap
    ensures root.Valid() && root.Repr == old(root.Repr) && root.d == old(root.d)
    ensures root.model == Node(root.d, old(root.model.left), root.model.right)
            && Walked(old(root.model.right), root.model.right)
    ensures q.Valid() && q.heapSize <= k
    ensures Nearest(q.Contents(), S + old(Live(root.model.right)), point, k, limit)
    decreases root.Repr, 0
  {
    VisitIfCloser(root.right, k, point, q, limit, S);
    root.model := Node(root.d, Model(root.left), Model(root.right));
  }

  method SearchLeftRight(root: KdNode, k: nat, point: Point, q: Heap, limit: Option<int>, ghost S: multiset<Point>,
                         ghost t: Tree)
    requires root.Valid() && t.Node? && root.model == PushDown(t)
    requires Sound(root.model.left) && Sound(root.model.right)
    requires q.Valid() && q.heapSize <= k && 1 <= k <= q.cap
    requires Nearest(q.Contents(), S, point, k, limit)
    modifies root.Repr, q, q.heap
    ensures root.Valid() && root.Repr == old(root.Repr) && Walked(t, root.model)
    ensures q.Valid() && q.heapSize <= k
    ensures Nearest(q.Contents(), S + Live(EffLeft(t)) + Live(EffRight(t)), point, k, limit)
    decreases root.Repr, 1
  {
    VisitLeft(root, k, point, q, limit, S);
    VisitRight(root, k, point, q, limit, S + Live(EffLeft(t)));
    WalkLevel(t, root.model.left, root.model.right);
  }

  method SearchRightLeft(root: KdNode, k: nat, point: Point, q: Heap, limit: Option<int>, ghost S: multiset<Point>,
                         ghost t: Tree)
    requires root.Valid() && t.Node? && root.model == PushDown(t)
    requires Sound(root.model.left) && Sound(root.model.right)
    requires q.Valid() && q.heapSize <= k && 1 <= k <= q.cap
    requires Nearest(q.Contents(), S, point, k, limit)
    modifies root.Repr, q, q.heap
    ensures root.Valid() && root.Repr == old(root.Repr) && Walked(t, root.model)
    ensures q.Valid() && q.heapSize <= k
    ensures Nearest(q.Contents(), S + Live(EffRight(t)) + Live(EffLeft(t)), point, k, limit)
    decreases root.Repr, 1
  {
    VisitRight(root, k, point, q, limit, S);
    VisitLeft(root, k, point, q, limit, S + Live(EffRight(t)));
    WalkLevel(t, root.model.left, root.model.right);
  }

  /** Visits both sons, the nearer first when both may hold a needed point. */
  method SearchSons(root: KdNode, k: nat, point: Point, q: Heap, limit: Option<int>, ghost S: multiset<Point>,
                    ghost t: Tree)
    requires root.Valid() && t.Node? && root.model == PushDown(t)
    requires Sound(Model(root.left)) && Sound(Model(root.right))
    requires q.Valid() && q.heapSize <= k && 1 <= k <= q.cap
    requires Nearest(q.Contents(), S + Own(t.d), point, k, limit)
    modifies root.Repr, q, q.heap
    ensures root.Valid() && root.Repr == old(root.Repr) && Walked(t, root.model)
    ensures q.Valid() && q.heapSize <= k
    ensures Nearest(q.Contents(), S + Live(t), point, k, limit)
    decreases root.Repr, 2
  {
    var leftFirst := LeftFirst(root, k, point, q);
    if leftFirst {
      SearchLeftRight(root, k, point, q, limit, S + Own(t.d), t);
      GatherLeftFirst(t, q.Contents(), S, point, k, limit);
    } else {
      SearchRightLeft(root, k, point, q, limit, S + Own(t.d), t);
      GatherRightFirst(t, q.Contents(), S, point, k, limit);
    }
  }

  /** Both sons may hold a needed point and the right one is nearer: visit it first. */
  method LeftFirst(root: KdNode, k: nat, point: Point, q: Heap) returns (b: bool)
    requires root.Valid() && q.Valid() && 1 <= k
    ensures q.heapSize < k && root.left != null && root.right != null ==>
              (b <==> NotFarther(BoxDist(root.left.d.range, point), BoxDist(root.right.d.range, point)))
  {
    var distLeft := if root.left == null then None else BoxDist(root.left.d.range, point);
    var distRight := if root.right == null then None else BoxDist(root.right.d.range, point);
    var both := q.heapSize < k;
    if !both {
      var top := q.Top();
      both := Closer(distLeft, top.dist) && Closer(distRight, top.dist);
    }
    b := !both || NotFarther(distLeft, distRight);
  }

  /** Searches a son unless the heap is full of points that are no farther than the son's range. */
  method VisitIfCloser(son: KdNode?, k: nat, point: Point, q: Heap, limit: Option<int>, ghost S: multiset<Point>)
    requires son != null ==> son.Valid()
    requires Sound(Model(son))
    requires q.Valid() && q.heapSize <= k && 1 <= k <= q.cap
    requires Nearest(q.Contents(), S, point, k, limit)
    modifies ReprOf(son), q, q.heap
    ensures son != null ==> son.Valid() && son.Repr == old(son.Repr)
    ensures Walked(old(Model(son)), Model(son))
    ensures q.Valid() && q.heapSize <= k
    ensures Nearest(q.Contents(), S + old(Live(Model(son))), point, k, limit)
    decreases ReprOf(son), 5
  {
    if q.heapSize < k {
      Search(son, k, point, q, limit, S);
      return;
    }
    var top := q.Top();
    var dist := if son == null then None else BoxDist(son.d.range, point);
    if Closer(dist, top.dist) {
      Search(son, k, point, q, limit, S);
    } else {
      SkipSubtree(Model(son), q.Contents(), S, top, point, k, limit);
      WalkedNowhere(Model(son));
    }
  }

  /**
    `points` are k nearest points of `S` within the distance, or all of those when there are fewer than k: no
    point of `S` that is left out is nearer than any reported one.
   */
  ghost predicate AreNearest(points: seq<Point>, S: multiset<Point>, q: Point, k: nat, maxDist: Option<int>) {
    && |points| <= k && multiset(points) <= S
    && (forall i :: 0 <= i < |points| && maxDist.Some? ==> Dist(q, points[i]) <= maxDist.value * maxDist.value)
    && forall p :: S[p] > multiset(points)[p] && (maxDist.None? || Dist(q, p) <= maxDist.value * maxDist.value) ==>
         |points| == k && forall i :: 0 <= i < |points| ==> Dist(q, points[i]) <= Dist(q, p)
  }

  lemma {:induction false} CandidateCount(q: Point, points: seq<Point>, p: Point)
    ensures |Candidates(q, points)| == |points| && Candidates(q, points)[ToCandidate(q, p)] == multiset(points)[p]
  {
    if points != [] {
      var n := |points| - 1;
      var front := points[..n];
      CandidateCount(q, front, p);
      assert points == front + [points[n]];
      assert seq(|points|, i requires 0 <= i < |points| => ToCandidate(q, points[i]))
          == seq(|front|, i requires 0 <= i < |front| => ToCandidate(q, front[i])) + [ToCandidate(q, points[n])];
    }
  }

  lemma {:induction false} NearestMeaning(points: seq<Point>, S: multiset<Point>, q: Point, k: nat,
                                          maxDist: Option<int>)
    requires Nearest(Candidates(q, points), S, q, k, SquaredLimit(maxDist))
    ensures AreNearest(points, S, q, k, maxDist)
  {
    var H := Candidates(q, points);
    OpenIsNearest(H, S, q, k, SquaredLimit(maxDist));
    forall p ensures |H| == |points| && H[ToCandidate(q, p)] == multiset(points)[p] {
      CandidateCount(q, points, p);
    }
    forall i | 0 <= i < |points| ensures ToCandidate(q, points[i]) in H {
      assert points[i] in multiset(points);
    }
    forall p ensures multiset(points)[p] <= S[p] {
      assert H[ToCandidate(q, p)] <= S[p];
    }
  }

  ghost function Candidates(q: Point, points: seq<Point>): multiset<Candidate> {
    multiset(seq(|points|, i requires 0 <= i < |points| => ToCandidate(q, points[i])))
  }

  /** Searches the tree into a heap of its own and empties it, nearest first. */
  method SearchAndDrain(root: KdNode?, point: Point, k: nat, limit: Option<int>) returns (found: seq<Candidate>)
    requires root != null ==> root.Valid()
    requires Sound(Model(root)) && k >= 1
    modifies ReprOf(root)
    ensures root != null ==> root.Valid() && root.Repr == old(root.Repr)
    ensures Walked(old(Model(root)), Model(root))
    ensures NearestFirst(found) && Nearest(multiset(found), old(Live(Model(root))), point, k, limit)
  {
    var q := new Heap(2 * k);
    ghost var S := Live(Model(root));
    NearestNothing(point, k, limit);
    Search(root, k, point, q, limit, multiset{});
    assert multiset{} + S == S;
    found := Drain(q);
  }

  /**
    Nearest_Search: k nearest live points within the limit, nearest first, with their squared distances;
    every live point within the limit when there are fewer than k.
   */
  method NearestSearch(root: KdNode?, point: Point, k: nat, maxDist: Option<int>)
    returns (points: seq<Point>, dists: seq<int>)
    requires root != null ==> root.Valid()
    requires Sound(Model(root)) && k >= 1
    modifies ReprOf(root)
    ensures root != null ==> root.Valid() && root.Repr == old(root.Repr)
    ensures Walked(old(Model(root)), Model(root))
    ensures |dists| == |points| && forall i :: 0 <= i < |points| ==> IsSquaredDistance(dists[i], point, points[i])
    ensures forall i, j :: 0 <= i < j < |dists| ==> dists[i] <= dists[j]
    ensures AreNearest(points, old(Live(Model(root))), point, k, maxDist)
  {
    ghost var S := Live(Model(root));
    var found := SearchAndDrain(root, point, k, SquaredLimit(maxDist));
    points := seq(|found|, i requires 0 <= i < |found| => found[i].point);
    dists := seq(|found|, i requires 0 <= i < |found| => found[i].dist);
    Reported(found, points, dists, S, point, k, SquaredLimit(maxDist));
    NearestMeaning(points, S, point, k, maxDist);
  }

  lemma {:induction false} Reported(found: seq<Candidate>, points: seq<Point>, dists: seq<int>,
                                    S: multiset<Point>, q: Point, k: nat, limit: Option<int>)
    requires Nearest(multiset(found), S, q, k, limit)
    requires |points| == |found| == |dists|
    requires forall i :: 0 <= i < |found| ==> points[i] == found[i].point && dists[i] == found[i].dist
    ensures forall i :: 0 <= i < |points| ==> IsSquaredDistance(dists[i], q, points[i])
    ensures Nearest(Candidates(q, points), S, q, k, limit)
  {
    OpenIsNearest(multiset(found), S, q, k, limit);
    forall i | 0 <= i < |found| ensures found[i] == ToCandidate(q, points[i]) {
      assert found[i] in multiset(found);
      DistIsSquared(q, points[i]);
    }
    assert seq(|points|, i requires 0 <= i < |points| => ToCandidate(q, points[i])) == found;
  }

  function SquaredLimit(maxDist: Option<int>): Option<int> {
    if maxDist.None? then None else Some(Square(maxDist.value))
  }

  predicate NearestFirst(found: seq<Candidate>) {
    forall i, j :: 0 <= i < j < |found| ==> found[i].dist <= found[j].dist
  }

  /** `found` and `H` share out `all`, and nothing in `H` is farther than what has been found. */
  ghost predicate Shared(found: seq<Candidate>, H: multiset<Candidate>, all: multiset<Candidate>) {
    multiset(found) + H == all && NearestFirst(found)
        && (found != [] ==> forall c :: c in H ==> c.dist <= found[0].dist)
  }

  lemma {:induction false} FoundFarthest(found: seq<Candidate>, H: multiset<Candidate>, all: multiset<Candidate>,
                                         top: Candidate)
    requires Shared(found, H, all) && top in H && forall c :: c in H ==> c.dist <= top.dist
    ensures Shared([top] + found, H - multiset{top}, all)
  {
    assert H - multiset{top} + multiset{top} == H;
    forall j | 0 < j < |found| ensures found[0].dist <= found[j].dist {
    }
  }

  /** Pops the heap until it is empty, putting each popped element in front. */
  method Drain(q: Heap) returns (found: seq<Candidate>)
    requires q.Valid()
    modifies q, q.heap
    ensures multiset(found) == old(q.Contents()) && NearestFirst(found)
  {
    found := [];
    while q.heapSize > 0
      invariant q.Valid() && Shared(found, q.Contents(), old(q.Contents()))
      decreases q.heapSize
    {
      var top := q.Top();
      FoundFarthest(found, q.Contents(), old(q.Contents()), top);
      q.Pop();
      found := [top] + found;
    }
    assert q.Contents() == multiset{};
  }
}
