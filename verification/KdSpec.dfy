/**
  What the recursive methods of the tree promise, stated on tree values. Each promise is guarded by
  `Open`, and the lemmas below establish it one level of the recursion at a time.
 */
module KdSpec {
  import opened Geometry
  import opened TreeModel
  import opened TreeOps
  import opened StaleTrees
  import opened Balance
  import opened PushWalk
  import opened TreeBuilder
  import opened Folding

  /** Flags, ranges and the k-d order of the whole subtree are consistent; counters may be out of date. */
  ghost predicate Sound(t: Tree) {
    forall k :: Open(k) ==> Usable(t) && Ordered(t)
  }

  /** Where all counters are exact, they stay exact. */
  ghost predicate KeepsCounters(t: Tree, u: Tree) {
    forall k :: Open(k) ==> Inv(t) ==> Inv(u)
  }

  lemma {:induction false} CountersTrans(t: Tree, u: Tree, v: Tree)
    ensures KeepsCounters(t, t)
    ensures KeepsCounters(t, u) && KeepsCounters(u, v) ==> KeepsCounters(t, v)
  {
  }

  lemma {:induction false} OpenCounters(t: Tree, u: Tree)
    requires KeepsCounters(t, u) && Inv(t)
    ensures Inv(u)
  {
    assert Open(0);
  }

  lemma {:induction false} OpenSound(t: Tree)
    requires Sound(t)
    ensures Usable(t) && Ordered(t)
  {
    assert Open(0) && OpenAside(0);
  }

  /** `u` holds the live points of `t` and `p`, and no other stored point is new. */
  ghost predicate Added(t: Tree, p: Point, u: Tree) {
    forall k :: OpenAside(k) ==>
      && Live(u) == Live(t) + multiset{p} && Stored(u) <= Stored(t) + {p} && Size(u) <= Size(t) + 1
      && KeepsCounters(t, u)
  }

  /** `u` holds the live points of `t` outside the box; `n` is the number of live points removed. */
  ghost predicate Deleted(t: Tree, b: Box, u: Tree, n: int) {
    forall k :: Open(k) ==>
      && Live(u) == Outside(Live(t), b) && n == |Live(t)| - |Live(u)|
      && Stored(u) <= Stored(t) && Size(u) <= Size(t) && KeepsCounters(t, u)
  }

  /** `u` holds exactly the live points of `t`. */
  ghost predicate Kept(t: Tree, u: Tree) {
    forall k :: OpenAside(k) ==>
      Live(u) == Live(t) && Stored(u) <= Stored(t) && Size(u) <= Size(t) && KeepsCounters(t, u)
  }

  /** Where every node is balanced, or holds few deleted points, it stays so. */
  ghost predicate KeepsBalance(t: Tree, u: Tree, cfg: Config) {
    forall k :: Open(k) ==> (Balanced(t, cfg) ==> Balanced(u, cfg)) && (Lean(t, cfg) ==> Lean(u, cfg))
  }

  /** `after` is `before` followed by the live points of `t` in some order. */
  ghost predicate Collected(t: Tree, before: seq<Point>, after: seq<Point>) {
    forall k :: OpenAside(k) ==> multiset(after) == multiset(before) + Live(t)
  }

  /** `after` is `before` followed by the removed points of `t` in some order. */
  ghost predicate Recorded(t: Tree, before: seq<Point>, after: seq<Point>) {
    forall k :: OpenAside(k) ==> multiset(after) == multiset(before) + Removed(t)
  }

  /** `after` is `before` followed by the live points of `t` inside the box in some order. */
  ghost predicate CollectedWithin(t: Tree, b: Box, before: seq<Point>, after: seq<Point>) {
    forall k :: OpenAside(k) ==> multiset(after) == multiset(before) + Within(Live(t), b)
  }

  /** `u` differs from `t` by pushes only. */
  ghost predicate Walked(t: Tree, u: Tree) {
    forall k :: Open(k) ==> Pushes(t, u)
  }

  // ---- Rebuilding ----

  lemma {:induction false} RebuiltSound(u: Tree, S: multiset<Point>)
    requires BuiltOver(u, S)
    ensures Sound(u)
  {
    OpenBuilt(u, S);
    WellBuiltUsable(u);
    WellBuiltShape(u);
  }

  /** Rebuilding over the flattened points keeps the live points and drops the rest. */
  lemma {:induction false} RebuiltKept(t: Tree, u: Tree, points: seq<Point>)
    requires Sound(t) && Collected(t, [], points) && BuiltOver(u, multiset(points))
    ensures Kept(t, u)
    ensures Size(u) == Size(t) - Invalid(t)
  {
    OpenSound(t);
    OpenBuilt(u, multiset(points));
    assert Open(0) && OpenAside(0);
    WellBuiltMeaning(u);
    WellBuiltInv(u);
    UsableFlags(t);
    LiveWithinNodes(t);
    SizeCovers(t);
    assert multiset(points) == Live(t);
    LiveStored(t);
    PointsStored(u);
    forall p | p in Stored(u) ensures p in Stored(t) {
      assert p in Points(u);
    }
  }

  lemma {:induction false} LiveCount(t: Tree)
    requires Sound(t)
    ensures !Dead(t) ==> Size(t) - Invalid(t) > 0
  {
    OpenSound(t);
    UsableFlags(t);
  }

  lemma {:induction false} RebuiltBalanced(u: Tree, S: multiset<Point>, cfg: Config)
    requires BuiltOver(u, S)
    ensures cfg.Fair() ==> Balanced(u, cfg)
    ensures Lean(u, cfg)
  {
    OpenBuilt(u, S);
    WellBuiltShape(u);
    WellBuiltLean(u, cfg);
    if cfg.Fair() {
      HalvedBalanced(u, cfg);
    }
  }

  // ---- One level of an insertion ----

  lemma {:induction false} NewLeafAdded(p: Point, axis: Axis)
    ensures Sound(Leaf(p, axis)) && Added(Nil, p, Leaf(p, axis)) && LoneLive(Leaf(p, axis))
  {
    LeafMeaning(p, axis);
    LeafUsable(p, axis);
    assert Live(Nil) == multiset{} && Stored(Nil) == {};
  }

  lemma {:induction false} AddLevelLive(t: Tree, p: Point, son: Tree)
    requires t.Node? && Usable(t) && Usable(son)
    requires var s := if GoesLeft(t.d, p) then EffLeft(t) else EffRight(t);
             Live(son) == Live(s) + multiset{p} && (s.Nil? ==> LoneLive(son))
    ensures var u := AddBelow(PushDown(t), p, son);
            Usable(u) && !Dead(u) && Live(u) == Live(t) + multiset{p}
  {
    PushDownSettles(t);
    PushDownKeepsMeaning(t);
    PushDownKeepsUsable(t);
    AddStepUsable(PushDown(t), p, son);
    UsableFlags(AddBelow(PushDown(t), p, son));
    assert p in Live(t) + multiset{p};
  }

  lemma {:induction false} AddLevelCounters(t: Tree, p: Point, son: Tree)
    requires t.Node? && KeepsCounters(if GoesLeft(t.d, p) then EffLeft(t) else EffRight(t), son)
    requires var s := if GoesLeft(t.d, p) then EffLeft(t) else EffRight(t);
             Live(son) == Live(s) + multiset{p} && (s.Nil? ==> LoneLive(son))
    ensures KeepsCounters(t, AddBelow(PushDown(t), p, son))
  {
    if Inv(t) {
      assert Open(0);
      PushDownSettles(t);
      PushDownKeepsInv(t);
      AddStep(PushDown(t), p, son);
    }
  }

  lemma {:induction false} AddLevelShape(t: Tree, p: Point, son: Tree)
    requires t.Node? && Ordered(t) && Ordered(son) && t.d.size >= 1 + Size(EffLeft(t)) + Size(EffRight(t))
    requires var s := if GoesLeft(t.d, p) then EffLeft(t) else EffRight(t);
             Stored(son) <= Stored(s) + {p} && Size(son) <= Size(s) + 1
    ensures var u := AddBelow(PushDown(t), p, son);
            Ordered(u) && Stored(u) <= Stored(t) + {p} && Size(u) <= Size(t) + 1
  {
    PushDownSettles(t);
    PushDownKeepsShape(t);
    AddStepShape(PushDown(t), p, son);
  }

  lemma {:induction false} AddLevel(t: Tree, p: Point, son: Tree)
    requires t.Node? && Sound(t) && Sound(son)
    requires var s := if GoesLeft(t.d, p) then EffLeft(t) else EffRight(t);
             Added(s, p, son) && (s.Nil? ==> LoneLive(son))
    ensures var u := AddBelow(PushDown(t), p, son);
            Sound(u) && Added(t, p, u) && !Dead(u)
  {
    assert Open(0) && OpenAside(0);
    AddLevelLive(t, p, son);
    AddLevelShape(t, p, son);
    AddLevelCounters(t, p, son);
  }

  /** The son an insertion goes on to. */
  function SonFor(u: Tree, p: Point): Tree
    requires u.Node?
  {
    if GoesLeft(u.d, p) then u.left else u.right
  }

  lemma {:induction false} AddLevelSize(t: Tree, p: Point, u: Tree)
    requires Added(t, p, u)
    ensures Size(u) <= Size(t) + 1
  {
    assert Open(0) && OpenAside(0);
  }

  lemma {:induction false} SonsSound(t: Tree)
    requires t.Node? && Sound(t)
    ensures Sound(EffLeft(t)) && Sound(EffRight(t))
    ensures t.d.size >= 1 + Size(EffLeft(t)) + Size(EffRight(t))
    ensures Size(EffLeft(t)) >= 0 && Size(EffRight(t)) >= 0
  {
    OpenSound(t);
    EffSons(t);
    SonsUsable(t);
    SizeCovers(t.left);
    SizeCovers(t.right);
  }

  // ---- One level of a box delete ----

  lemma {:induction false} DeadDeleted(t: Tree, b: Box)
    requires Sound(t) && Dead(t)
    ensures Deleted(t, b, t, 0)
  {
    OpenSound(t);
    UsableFlags(t);
  }

  lemma {:induction false} MissedDeleted(t: Tree, b: Box)
    requires t.Node? && Sound(t) && !Dead(t) && Misses(b, t.d.range)
    ensures Sound(PushDown(t)) && Deleted(t, b, PushDown(t), 0)
  {
    OpenSound(t);
    PushedCounters(t);
    PushDownKeepsMeaning(t);
    PushDownKeepsUsable(t);
    PushDownKeepsShape(t);
    UsableFlags(t);
    BoxAndRange(t.d.range, Live(t), b);
  }

  lemma {:induction false} PushedCounters(t: Tree)
    ensures KeepsCounters(t, PushDown(t))
  {
    if Inv(t) {
      PushDownKeepsInv(t);
    }
  }

  lemma {:induction false} CoveredDeletedParts(t: Tree, b: Box, down: bool)
    requires t.Node? && Usable(t) && Ordered(t) && !Dead(t) && Covers(b, t.d.range)
    ensures var u := PushDown(t); var k := u.(d := Kill(u.d, down));
            && Usable(k) && Ordered(k) && KeepsCounters(t, k) && Live(k) == multiset{} == Outside(Live(t), b)
            && u.d.size - u.d.invalid == |Live(t)| && Stored(k) == Stored(t) && Size(k) == Size(t)
  {
    var u := PushDown(t);
    PushDownKeepsMeaning(t);
    PushDownKeepsUsable(t);
    PushDownKeepsShape(t);
    UsableFlags(t);
    UsableFlags(u);
    BoxAndRange(t.d.range, Live(t), b);
    KillUsable(u, down);
    KillOrdered(u, down);
    if Inv(t) {
      PushDownKeepsInv(t);
      KillStep(u, down);
    }
  }

  lemma {:induction false} KillOrdered(u: Tree, down: bool)
    requires u.Node? && Ordered(u)
    ensures var k := u.(d := Kill(u.d, down)); Ordered(k) && Stored(k) == Stored(u) && Size(k) == Size(u)
  {
  }

  lemma {:induction false} CoveredDeleted(t: Tree, b: Box, down: bool)
    requires t.Node? && Sound(t) && !Dead(t) && Covers(b, t.d.range)
    ensures var u := PushDown(t); var k := u.(d := Kill(u.d, down));
            Sound(k) && Deleted(t, b, k, u.d.size - u.d.invalid)
  {
    OpenSound(t);
    CoveredDeletedParts(t, b, down);
  }

  lemma {:induction false} PartlyDeletedLive(t: Tree, b: Box, down: bool, l: Tree, r: Tree)
    requires t.Node? && Usable(t) && Usable(l) && Usable(r) && !Dead(t) && !Covers(b, t.d.range)
    requires Live(l) == Outside(Live(EffLeft(t)), b) && (EffLeft(t).Nil? ==> l.Nil?)
    requires Live(r) == Outside(Live(EffRight(t)), b) && (EffRight(t).Nil? ==> r.Nil?)
    ensures var v := Update(Node(DeleteOwn(PushDown(t).d, b, down), l, r));
            Usable(v) && Live(v) == Outside(Live(t), b) && !Dead(v)
    ensures |Live(t)| - |Outside(Live(t), b)|
         == One(HitsOwn(t.d, b)) + (|Live(EffLeft(t))| - |Live(l)|) + (|Live(EffRight(t))| - |Live(r)|)
  {
    var u := PushDown(t);
    PushDownSettles(t);
    PushDownKeepsMeaning(t);
    PushDownKeepsUsable(t);
    DeleteStepUsable(u, b, down, l, r);
    PartialStepSurvivor(t, b);
    UsableFlags(Update(Node(DeleteOwn(u.d, b, down), l, r)));
  }

  lemma {:induction false} PartlyDeletedCounters(t: Tree, b: Box, down: bool, l: Tree, r: Tree)
    requires t.Node? && KeepsCounters(EffLeft(t), l) && KeepsCounters(EffRight(t), r)
    requires Live(l) == Outside(Live(EffLeft(t)), b) && (EffLeft(t).Nil? ==> l.Nil?)
    requires Live(r) == Outside(Live(EffRight(t)), b) && (EffRight(t).Nil? ==> r.Nil?)
    ensures KeepsCounters(t, Update(Node(DeleteOwn(PushDown(t).d, b, down), l, r)))
  {
    if Inv(t) {
      assert Open(0);
      PushDownSettles(t);
      PushDownKeepsInv(t);
      DeleteStep(PushDown(t), b, down, l, r);
    }
  }

  lemma {:induction false} PartlyDeletedShape(t: Tree, b: Box, down: bool, l: Tree, r: Tree)
    requires t.Node? && Ordered(t) && Ordered(l) && Ordered(r) && t.d.size >= 1 + Size(EffLeft(t)) + Size(EffRight(t))
    requires Stored(l) <= Stored(EffLeft(t)) && Stored(r) <= Stored(EffRight(t))
    requires Size(l) <= Size(EffLeft(t)) && Size(r) <= Size(EffRight(t))
    ensures var v := Update(Node(DeleteOwn(PushDown(t).d, b, down), l, r));
            Ordered(v) && Stored(v) <= Stored(t) && Size(v) <= Size(t)
  {
    PushDownSettles(t);
    PushDownKeepsShape(t);
    DeleteStepShape(PushDown(t), b, down, l, r);
  }

  lemma {:induction false} DeleteLevel(t: Tree, b: Box, down: bool, l: Tree, m: int, r: Tree, n: int)
    requires t.Node? && Sound(t) && Sound(l) && Sound(r) && !Dead(t) && !Covers(b, t.d.range)
    requires Deleted(EffLeft(t), b, l, m) && (EffLeft(t).Nil? ==> l.Nil?)
    requires Deleted(EffRight(t), b, r, n) && (EffRight(t).Nil? ==> r.Nil?)
    ensures var v := Update(Node(DeleteOwn(PushDown(t).d, b, down), l, r));
            Sound(v) && Deleted(t, b, v, One(HitsOwn(t.d, b)) + m + n) && !Dead(v)
  {
    assert Open(0) && OpenAside(0);
    PartlyDeletedLive(t, b, down, l, r);
    PartlyDeletedShape(t, b, down, l, r);
    PartlyDeletedCounters(t, b, down, l, r);
  }

  lemma {:induction false} DeleteLevelSize(t: Tree, b: Box, u: Tree, n: int)
    requires Deleted(t, b, u, n)
    ensures Size(u) <= Size(t)
  {
    assert Open(0) && OpenAside(0);
  }

  // ---- Following an operation by a rebuild ----

  lemma {:induction false} KeptSelf(t: Tree)
    ensures Kept(t, t)
  {
  }

  lemma {:induction false} AddedThenKept(t: Tree, p: Point, u: Tree, v: Tree)
    requires Added(t, p, u) && Kept(u, v)
    ensures Added(t, p, v)
  {
    assert Open(0) && OpenAside(0);
  }

  lemma {:induction false} DeletedThenKept(t: Tree, b: Box, u: Tree, n: int, v: Tree)
    requires Deleted(t, b, u, n) && Kept(u, v)
    ensures Deleted(t, b, v, n)
  {
    assert Open(0) && OpenAside(0);
  }

  // ---- Balance ----

  /** After the recursion into the sons, before the check at the node itself. */
  ghost predicate SonsKeepBalance(t: Tree, u: Tree, cfg: Config) {
    forall k :: Open(k) ==>
      && u.Node?
      && (Balanced(t, cfg) ==>
            Balanced(u.left, cfg) && Balanced(u.right, cfg) && u.d.size == 1 + Size(u.left) + Size(u.right))
      && (Lean(t, cfg) ==> Lean(EffLeft(u), cfg) && Lean(EffRight(u), cfg))
  }

  lemma {:induction false} KeepsBalanceSelf(t: Tree, cfg: Config)
    ensures KeepsBalance(t, t, cfg)
  {
  }

  lemma {:induction false} KeepsBalanceTrans(t: Tree, u: Tree, v: Tree, cfg: Config)
    ensures KeepsBalance(t, u, cfg) && KeepsBalance(u, v, cfg) ==> KeepsBalance(t, v, cfg)
  {
  }

  lemma {:induction false} OpenBalance(t: Tree, u: Tree, cfg: Config)
    requires KeepsBalance(t, u, cfg)
    ensures Balanced(t, cfg) ==> Balanced(u, cfg)
    ensures Lean(t, cfg) ==> Lean(u, cfg)
  {
    assert Open(0) && OpenAside(0);
  }

  lemma {:induction false} LeafKeepsBalance(p: Point, axis: Axis, cfg: Config)
    ensures KeepsBalance(Nil, Leaf(p, axis), cfg)
  {
    LeafMeaning(p, axis);
    LoneLiveLean(Leaf(p, axis), cfg);
  }

  lemma {:induction false} AddLevelLean(t: Tree, p: Point, son: Tree, cfg: Config)
    requires t.Node? && Lean(t, cfg)
    requires var s := if GoesLeft(t.d, p) then EffLeft(t) else EffRight(t);
             (Lean(s, cfg) ==> Lean(son, cfg)) && (s.Nil? ==> LoneLive(son))
    ensures var u := AddBelow(PushDown(t), p, son); Lean(EffLeft(u), cfg) && Lean(EffRight(u), cfg)
  {
    var u := AddBelow(PushDown(t), p, son);
    PushDownSettles(t);
    if LoneLive(son) {
      LoneLiveMeaning(son, u.d);
      LoneLiveLean(Pushed(u.d, son), cfg);
    }
  }

  lemma {:induction false} AddLevelBalance(t: Tree, p: Point, son: Tree, cfg: Config)
    requires t.Node?
    requires var s := if GoesLeft(t.d, p) then EffLeft(t) else EffRight(t);
             KeepsBalance(s, son, cfg) && (s.Nil? ==> LoneLive(son))
    ensures SonsKeepBalance(t, AddBelow(PushDown(t), p, son), cfg)
  {
    assert Open(0) && OpenAside(0);
    if Balanced(t, cfg) {
      PushDownBalanced(t, cfg);
    }
    if Lean(t, cfg) {
      AddLevelLean(t, p, son, cfg);
    }
  }

  lemma {:induction false} DeleteLevelLean(t: Tree, b: Box, down: bool, l: Tree, r: Tree, cfg: Config)
    requires t.Node? && (EffLeft(t).Nil? ==> l.Nil?) && (EffRight(t).Nil? ==> r.Nil?)
    requires Lean(l, cfg) && Lean(r, cfg)
    ensures var u := Update(Node(DeleteOwn(PushDown(t).d, b, down), l, r));
            Lean(EffLeft(u), cfg) && Lean(EffRight(u), cfg)
  {
    PushDownSettles(t);
  }

  lemma {:induction false} DeleteLevelBalance(t: Tree, b: Box, down: bool, l: Tree, r: Tree, cfg: Config)
    requires t.Node? && KeepsBalance(EffLeft(t), l, cfg) && KeepsBalance(EffRight(t), r, cfg)
    requires (EffLeft(t).Nil? ==> l.Nil?) && (EffRight(t).Nil? ==> r.Nil?)
    ensures SonsKeepBalance(t, Update(Node(DeleteOwn(PushDown(t).d, b, down), l, r)), cfg)
  {
    assert Open(0) && OpenAside(0);
    if Balanced(t, cfg) {
      PushDownBalanced(t, cfg);
    }
    if Lean(t, cfg) {
      DeleteLevelLean(t, b, down, l, r, cfg);
    }
  }

  /** Without rebuilding, one level of a partial box delete is exactly the walk on values. */
  lemma {:induction false} DeleteLevelExact(t: Tree, b: Box, down: bool, l: Tree, m: int, r: Tree, n: int)
    requires t.Node? && (l, m) == Delete(EffLeft(t), b, down) && (r, n) == Delete(EffRight(t), b, down)
    ensures DeleteInside(t, b, down)
            == (Update(Node(DeleteOwn(PushDown(t).d, b, down), l, r)), One(HitsOwn(t.d, b)) + m + n)
  {
  }

  /**
    `v` and `count` are what one level of a partial delete makes of the pushed-down node `u` and the results for its
    sons.
   */
  ghost predicate DeletedLevel(t: Tree, u: Tree, b: Box, down: bool, l: Tree, m: int, r: Tree, n: int, v: Tree,
                               count: int)
    requires u.Node?
  {
    forall k :: Open(k) ==>
      && u == PushDown(t) && v == Update(Node(DeleteOwn(u.d, b, down), l, r))
      && count == One(HitsOwn(u.d, b)) + m + n
  }

  lemma {:induction false} DeletedLevelSound(t: Tree, u: Tree, b: Box, down: bool, l: Tree, m: int, r: Tree, n: int,
                                             v: Tree, count: int)
    requires t.Node? && u.Node? && DeletedLevel(t, u, b, down, l, m, r, n, v, count)
    requires Sound(t) && Sound(l) && Sound(r) && !Dead(t) && !Covers(b, t.d.range)
    requires Deleted(u.left, b, l, m) && (u.left.Nil? ==> l.Nil?)
    requires Deleted(u.right, b, r, n) && (u.right.Nil? ==> r.Nil?)
    ensures Sound(v) && Deleted(t, b, v, count) && !Dead(v) && Size(v) <= Size(t)
  {
    assert Open(0) && OpenAside(0);
    DeleteLevel(t, b, down, l, m, r, n);
    DeleteLevelSize(t, b, v, count);
  }

  lemma {:induction false} DeletedLevelBalanced(t: Tree, u: Tree, b: Box, down: bool, l: Tree, m: int, r: Tree, n: int,
                                                v: Tree, count: int, cfg: Config)
    requires t.Node? && u.Node? && DeletedLevel(t, u, b, down, l, m, r, n, v, count)
    requires KeepsBalance(u.left, l, cfg) && KeepsBalance(u.right, r, cfg)
    requires (u.left.Nil? ==> l.Nil?) && (u.right.Nil? ==> r.Nil?)
    ensures SonsKeepBalance(t, v, cfg)
  {
    assert Open(0) && OpenAside(0);
    DeleteLevelBalance(t, b, down, l, r, cfg);
  }

  lemma {:induction false} DeletedLevelExact(t: Tree, u: Tree, b: Box, down: bool, l: Tree, m: int, r: Tree, n: int,
                                             v: Tree, count: int)
    requires t.Node? && u.Node? && DeletedLevel(t, u, b, down, l, m, r, n, v, count)
    requires (l, m) == Delete(u.left, b, down) && (r, n) == Delete(u.right, b, down)
    ensures (v, count) == DeleteInside(t, b, down)
  {
    assert Open(0) && OpenAside(0);
    DeleteLevelExact(t, b, down, l, m, r, n);
  }

  lemma {:induction false} UnsplitDeleteBalance(t: Tree, down: bool, cfg: Config)
    requires t.Node?
    ensures KeepsBalance(t, PushDown(t), cfg)
    ensures var u := PushDown(t); KeepsBalance(t, u.(d := Kill(u.d, down)), cfg)
  {
    if Balanced(t, cfg) {
      PushDownBalanced(t, cfg);
      KillBalanced(PushDown(t), down, cfg);
    }
    KillLean(PushDown(t), down, cfg);
    if Lean(t, cfg) {
      PushDownLean(t, cfg);
    }
  }

  /** The check at the node, or the rebuild it asks for, restores balance at the node. */
  lemma {:induction false} CheckedBalance(t: Tree, u: Tree, v: Tree, S: multiset<Point>, cfg: Config)
    requires u.Node? && SonsKeepBalance(t, u, cfg)
    requires if NeedsRebuild(u, cfg) then BuiltOver(v, S) && cfg.Fair() else v == u
    ensures KeepsBalance(t, v, cfg)
  {
    assert Open(0) && OpenAside(0);
    if NeedsRebuild(u, cfg) {
      RebuiltBalanced(v, S, cfg);
    } else {
      if Balanced(t, cfg) {
        PassedCheckBalanced(u, cfg);
      }
      if Lean(t, cfg) {
        PassedCheckLean(u, cfg);
      }
    }
  }

  // ---- Collecting points ----

  lemma {:induction false} CollectNothing(t: Tree, s: seq<Point>)
    requires t.Nil?
    ensures Collected(t, s, s) && Recorded(t, s, s) && Walked(t, t)
  {
  }

  lemma {:induction false} CollectLevel(t: Tree, s: seq<Point>, a: seq<Point>, b: seq<Point>)
    requires t.Node?
    requires Collected(EffLeft(t), if t.d.pointDeleted then s else s + [t.d.point], a)
    requires Collected(EffRight(t), a, b)
    ensures Collected(t, s, b)
  {
    assert Open(0) && OpenAside(0);
    assert multiset(b) == multiset(if t.d.pointDeleted then s else s + [t.d.point]) + Live(EffLeft(t))
        + Live(EffRight(t));
    CollectAlgebra(multiset(s), Own(t.d), Live(EffLeft(t)), Live(EffRight(t)));
  }

  lemma {:induction false} CollectAlgebra(S: multiset<Point>, A: multiset<Point>, B: multiset<Point>,
                                          C: multiset<Point>)
    ensures S + A + B + C == S + (A + B + C)
    ensures S + B + C + A == S + (A + B + C)
  {
  }

  lemma {:induction false} RecordLevel(t: Tree, s: seq<Point>, a: seq<Point>, b: seq<Point>)
    requires t.Node? && Recorded(EffLeft(t), s, a) && Recorded(EffRight(t), a, b)
    ensures Recorded(t, s, if t.d.pointDeleted && !t.d.pointDownDeleted then b + [t.d.point] else b)
  {
    assert Open(0) && OpenAside(0);
    CollectAlgebra(multiset(s), OwnRemoved(t.d), Removed(EffLeft(t)), Removed(EffRight(t)));
  }

  /** A traversal records exactly the deleted points that downsampling did not delete. */
  lemma {:induction false} RecordedCount(t: Tree, before: seq<Point>, after: seq<Point>)
    requires Inv(t) && Recorded(t, before, after)
    ensures |after| == |before| + Invalid(t) - DownDel(t)
  {
    assert Open(0) && OpenAside(0);
    CachedFieldsExact(t);
    assert |multiset(after)| == |after| && |multiset(before)| == |before|;
  }

  lemma {:induction false} WalkLevel(t: Tree, l: Tree, r: Tree)
    requires t.Node? && Walked(EffLeft(t), l) && Walked(EffRight(t), r)
    ensures Walked(t, Node(PushDown(t).d, l, r))
  {
    assert Open(0) && OpenAside(0);
    PushesBelow(t, l, r);
  }

  lemma {:induction false} WalkKeeps(t: Tree, u: Tree, cfg: Config)
    requires Walked(t, u)
    ensures Kept(t, u) && (Sound(t) ==> Sound(u)) && KeepsBalance(t, u, cfg)
    ensures t.Node? <==> u.Node?
    ensures Size(u) == Size(t) && Dead(u) == Dead(t)
  {
    assert Open(0) && OpenAside(0);
    PushesKeepMeaning(t, u);
    PushesKeepOrder(t, u);
    PushesKeepBalance(t, u, cfg);
    PushesKeepLean(t, u, cfg);
    PushesRoot(t, u);
    if Sound(t) {
      PushesKeepUsable(t, u);
    }
    if Inv(t) {
      PushesKeepInv(t, u);
    }
  }

  // ---- Unfolding for the callers of the tree ----

  lemma {:induction false} LiveCountExact(t: Tree)
    requires Sound(t)
    ensures |Live(t)| == Size(t) - Invalid(t)
  {
    OpenSound(t);
    UsableFlags(t);
  }

  lemma {:induction false} OpenAdded(t: Tree, p: Point, u: Tree)
    requires Added(t, p, u)
    ensures Live(u) == Live(t) + multiset{p} && Size(u) <= Size(t) + 1 && KeepsCounters(t, u)
  {
    assert Open(0) && OpenAside(0);
  }

  lemma {:induction false} OpenDeleted(t: Tree, b: Box, u: Tree, n: int)
    requires Deleted(t, b, u, n)
    ensures Live(u) == Outside(Live(t), b) && n == |Live(t)| - |Live(u)| && Size(u) <= Size(t) && KeepsCounters(t, u)
  {
    assert Open(0) && OpenAside(0);
  }

  lemma {:induction false} OpenWithin(t: Tree, b: Box, before: seq<Point>, after: seq<Point>)
    requires CollectedWithin(t, b, before, after)
    ensures multiset(after) == multiset(before) + Within(Live(t), b)
  {
    assert Open(0) && OpenAside(0);
  }

  lemma {:induction false} SearchKeeps(t: Tree, u: Tree, cfg: Config)
    requires Walked(t, u)
    ensures Live(u) == Live(t) && Size(u) == Size(t) && (t.Node? <==> u.Node?)
    ensures Sound(t) ==> Sound(u)
    ensures KeepsBalance(t, u, cfg) && KeepsCounters(t, u)
  {
    WalkKeeps(t, u, cfg);
    assert Open(0) && OpenAside(0);
  }
}
