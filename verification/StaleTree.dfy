/**
  Trees whose counters may be out of date. Putting a rebuilt subtree in place drops dead nodes without
  telling every node above it, so TreeSize may overstate there until the next Update, and the counters of
  deleted points with it. Flags, boxes and the difference TreeSize - invalid_point_num stay exact, and they
  are all that searches and edits rely on.
 */
module StaleTrees {
  import opened Geometry
  import opened TreeModel
  import opened TreeOps
  import opened PushWalk

  /** Local, with `size` an upper bound and of the counters of deleted points only what is left of it. */
  ghost predicate LocalFlags(d: Data, l: Tree, r: Tree) {
    && d.size >= 1 + Size(l) + Size(r)
    && d.size - d.invalid == One(!d.pointDeleted) + ValidNum(l) + ValidNum(r)
    && (d.treeDeleted <==> d.pointDeleted && Dead(l) && Dead(r))
    && (d.treeDownDeleted ==> d.treeDeleted)
    && (d.pointDownDeleted ==> d.pointDeleted)
    && d.range.Range?
    && (!d.treeDeleted ==> d.range == LiveJoin(d, l, r))
  }

  /** The number of live points, as the counters have it. */
  function ValidNum(t: Tree): int {
    Size(t) - Invalid(t)
  }

  /** What every critical section of either thread keeps, at every node, pushes pending above it or not. */
  ghost predicate Usable(t: Tree) {
    t.Node? ==>
      && LocalFlags(t.d, EffLeft(t), EffRight(t)) && PendingOk(t)
      && Usable(t.left) && Usable(t.right)
  }

  // ---- Push_Down ----

  lemma {:induction false} PushKeepsUsable(p: Data, t: Tree)
    requires Usable(t) && p.treeDeleted
    ensures Usable(Pushed(p, t))
  {
  }

  /** A leftover push leaves a lone live node usable. */
  lemma {:induction false} LonePushKeepsUsable(p: Data, t: Tree)
    requires Usable(t) && LoneLive(t) && !p.treeDeleted && !p.treeDownDeleted
    ensures Usable(Pushed(p, t))
  {
    LoneLiveMeaning(t, p);
  }

  lemma {:induction false} SonUsable(p: Data, pending: bool, son: Tree)
    requires Usable(son) && (p.treeDownDeleted ==> p.treeDeleted)
    requires pending && son.Node? && !p.treeDeleted ==> LoneLive(son)
    ensures Usable(if pending then Pushed(p, son) else son)
  {
    if pending && son.Node? {
      if p.treeDeleted {
        PushKeepsUsable(p, son);
      } else {
        LonePushKeepsUsable(p, son);
      }
    }
  }

  lemma {:induction false} SonsUsable(t: Tree)
    requires t.Node? && Usable(t)
    ensures Usable(EffLeft(t)) && Usable(EffRight(t))
  {
    SonUsable(t.d, t.d.needLeft, t.left);
    SonUsable(t.d, t.d.needRight, t.right);
  }

  lemma {:induction false} PushDownKeepsUsable(t: Tree)
    requires Usable(t)
    ensures Usable(PushDown(t))
  {
    if t.Node? {
      SonsUsable(t);
      EffSons(t);
    }
  }

  // ---- What can be relied on ----

  /** The delete flag, the box and the number of live points are exact, however stale the counters are. */
  lemma {:induction false} UsableFlags(t: Tree)
    requires Usable(t)
    ensures |Live(t)| == Size(t) - Invalid(t)
    ensures Dead(t) <==> Live(t) == multiset{}
    ensures !Dead(t) ==> Tight(t.d.range, Live(t))
    decreases Nodes(t)
  {
    if t.Node? {
      var l, r := EffLeft(t), EffRight(t);
      SonsUsable(t);
      UsableFlags(l);
      UsableFlags(r);
      assert Live(t) == Own(t.d) + (Live(l) + Live(r));
      if !t.d.treeDeleted {
        JoinExact(t, l, r);
      }
    }
  }

  /** TreeSize never understates. */
  lemma {:induction false} SizeCovers(t: Tree)
    requires Usable(t)
    ensures Size(t) >= Nodes(t)
  {
    if t.Node? {
      SizeCovers(t.left);
      SizeCovers(t.right);
      EffSons(t);
    }
  }

  lemma {:induction false} LiveWithinNodes(t: Tree)
    ensures |Live(t)| <= Nodes(t)
    decreases Nodes(t)
  {
    if t.Node? {
      LiveWithinNodes(EffLeft(t));
      LiveWithinNodes(EffRight(t));
      EffNodes(t);
    }
  }

  // ---- Update ----

  lemma {:induction false} FlagsUnderPush(d: Data, l: Tree, r: Tree, l': Tree, r': Tree)
    requires LocalFlags(d, l, r)
    requires l' == l || (LoneLive(l) && l' == l.(d := l.d.(needLeft := true, needRight := true)))
    requires r' == r || (LoneLive(r) && r' == r.(d := r.d.(needLeft := true, needRight := true)))
    ensures LocalFlags(d, l', r')
  {
  }

  /** Update over usable sons, even under a leftover push flag above a lone live son. */
  lemma {:induction false} UpdateUsable(t: Tree)
    requires t.Node? && Usable(t.left) && Usable(t.right)
    requires t.d.needLeft ==> t.left.Nil? || LoneLive(t.left)
    requires t.d.needRight ==> t.right.Nil? || LoneLive(t.right)
    requires t.d.pointDownDeleted ==> t.d.pointDeleted
    ensures Usable(Update(t))
    ensures Live(Update(t)) == Own(t.d) + Live(t.left) + Live(t.right)
  {
    var u := Update(t);
    if t.d.needLeft && t.left.Node? {
      LoneLiveMeaning(t.left, u.d);
    }
    if t.d.needRight && t.right.Node? {
      LoneLiveMeaning(t.right, u.d);
    }
    assert LocalFlags(u.d, t.left, t.right);
    FlagsUnderPush(u.d, t.left, t.right, EffLeft(u), EffRight(u));
  }

  // ---- Insertion ----

  lemma {:induction false} LeafUsable(p: Point, axis: Axis)
    ensures var t := Leaf(p, axis); Usable(t) && LoneLive(t) && Live(t) == multiset{p} && Nodes(t) == 1
  {
    UpdateUsable(Node(FreshData(p, axis), Nil, Nil));
    assert Live(Nil) == multiset{};
  }

  lemma {:induction false} AddStepUsable(u: Tree, p: Point, son: Tree)
    requires Settled(u) && Usable(u) && Usable(son)
    requires var s := if GoesLeft(u.d, p) then u.left else u.right;
             Live(son) == Live(s) + multiset{p} && (s.Nil? ==> LoneLive(son))
    ensures Usable(AddBelow(u, p, son)) && Live(AddBelow(u, p, son)) == Live(u) + multiset{p}
  {
    SettledMeaning(u);
    if GoesLeft(u.d, p) {
      UpdateUsable(Node(u.d, son, u.right));
      Regroup(Own(u.d), Live(u.left), Live(u.right), multiset{p});
    } else {
      UpdateUsable(Node(u.d, u.left, son));
      Regroup(Own(u.d), Live(u.left), Live(u.right), multiset{p});
    }
  }

  lemma {:induction false} EffNodes(t: Tree)
    requires t.Node?
    ensures Nodes(EffLeft(t)) == Nodes(t.left) && Nodes(EffRight(t)) == Nodes(t.right)
  {
  }

  lemma {:induction false} AddNodes(t: Tree, p: Point, fatherAxis: Axis)
    ensures Nodes(Add(t, p, fatherAxis)) == Nodes(t) + 1
    decreases Nodes(t)
  {
    if t.Node? {
      EffNodes(t);
      AddNodes(if GoesLeft(t.d, p) then EffLeft(t) else EffRight(t), p, t.d.axis);
    }
  }

  lemma {:induction false} HoldsPoint(u: Tree, S: multiset<Point>, p: Point)
    requires Usable(u) && Live(u) == S + multiset{p}
    ensures !Dead(u)
  {
    UsableFlags(u);
    assert p in Live(u);
  }

  /** An insertion adds exactly its point, however stale the counters are. */
  lemma {:induction false} AddKeepsUsable(t: Tree, p: Point, fatherAxis: Axis)
    requires Usable(t)
    ensures var u := Add(t, p, fatherAxis);
            Usable(u) && u.Node? && !Dead(u) && Live(u) == Live(t) + multiset{p} && (t.Nil? ==> LoneLive(u))
    decreases Nodes(t)
  {
    if t.Nil? {
      LeafUsable(p, NextAxis(fatherAxis));
      assert Live(t) == multiset{};
    } else {
      var son := if GoesLeft(t.d, p) then EffLeft(t) else EffRight(t);
      SonsUsable(t);
      AddKeepsUsable(son, p, t.d.axis);
      PushDownSettles(t);
      PushDownKeepsMeaning(t);
      PushDownKeepsUsable(t);
      AddStepUsable(PushDown(t), p, Add(son, p, t.d.axis));
      HoldsPoint(Add(t, p, fatherAxis), Live(t), p);
    }
  }

  // ---- Box delete ----

  lemma {:induction false} KillUsable(u: Tree, down: bool)
    requires u.Node? && Usable(u)
    ensures var k := u.(d := Kill(u.d, down)); Usable(k) && Live(k) == multiset{} && Nodes(k) == Nodes(u)
  {
    var p := u.d.(treeDeleted := true, treeDownDeleted := down);
    assert Kill(u.d, down) == PushOnto(p, u.d);
    PushKeepsUsable(p, u);
    PushKills(p, u);
  }

  lemma {:induction false} DeleteStepUsable(u: Tree, b: Box, down: bool, l: Tree, r: Tree)
    requires Settled(u) && Usable(u) && Usable(l) && Usable(r)
    requires Live(l) == Outside(Live(u.left), b) && (u.left.Nil? ==> l.Nil?)
    requires Live(r) == Outside(Live(u.right), b) && (u.right.Nil? ==> r.Nil?)
    ensures var v := Update(Node(DeleteOwn(u.d, b, down), l, r)); Usable(v) && Live(v) == Outside(Live(u), b)
    ensures |Live(u)| - |Outside(Live(u), b)|
         == One(HitsOwn(u.d, b)) + (|Live(u.left)| - |Live(l)|) + (|Live(u.right)| - |Live(r)|)
  {
    SettledMeaning(u);
    UpdateUsable(Node(DeleteOwn(u.d, b, down), l, r));
    OwnOutside(u.d, b, down);
    OutsideSplit3(Own(u.d), Live(u.left), Live(u.right), b);
  }

  /** When the box does not cover the cached range, some live point survives the delete. */
  lemma {:induction false} PartialStepSurvivor(t: Tree, b: Box)
    requires Usable(t) && t.Node? && !Dead(t) && !Covers(b, t.d.range)
    ensures Outside(Live(t), b) != multiset{}
  {
    UsableFlags(t);
    var p := NotCoveredWitness(b, t.d.range, Live(t));
    assert Outside(Live(t), b)[p] == Live(t)[p] > 0;
  }

  lemma {:induction false} DeleteNodes(t: Tree, b: Box, down: bool)
    ensures var u := Delete(t, b, down).0; Nodes(u) == Nodes(t) && (u.Nil? <==> t.Nil?)
    decreases Nodes(t)
  {
    if !Dead(t) {
      EffNodes(t);
      DeleteNodes(EffLeft(t), b, down);
      DeleteNodes(EffRight(t), b, down);
    }
  }

  /**
    A box delete removes exactly the live points in the box and returns their number, however stale the counters are.
   */
  lemma {:induction false} DeleteKeepsUsable(t: Tree, b: Box, down: bool)
    requires Usable(t)
    ensures var (u, n) := Delete(t, b, down); Usable(u) && Live(u) == Outside(Live(t), b) && n == |Live(t)| - |Live(u)|
    decreases Nodes(t), 1
  {
    UsableFlags(t);
    if !Dead(t) {
      var u := PushDown(t);
      PushDownKeepsMeaning(t);
      PushDownKeepsUsable(t);
      PushDownSettles(t);
      BoxAndRange(t.d.range, Live(t), b);
      if !Misses(b, u.d.range) {
        if Covers(b, u.d.range) {
          KillUsable(u, down);
          UsableFlags(u);
        } else {
          DeleteInsideUsable(t, u, b, down);
        }
      }
    }
  }

  /** A node that a box delete updates is left alive. */
  lemma {:induction false} CutAlive(t: Tree, b: Box, down: bool)
    requires Usable(t) && Cuts(t, b)
    ensures var u := Delete(t, b, down).0; u.Node? && !Dead(u)
  {
    DeleteKeepsUsable(t, b, down);
    DeleteNodes(t, b, down);
    PartialStepSurvivor(t, b);
    UsableFlags(Delete(t, b, down).0);
  }

  lemma {:induction false} DeleteInsideUsable(t: Tree, u: Tree, b: Box, down: bool)
    requires t.Node? && Usable(t) && u == PushDown(t) && Settled(u) && Usable(u)
    requires u.left == EffLeft(t) && u.right == EffRight(t)
    ensures var (v, n) := DeleteInside(t, b, down);
            Usable(v) && Live(v) == Outside(Live(u), b) && n == |Live(u)| - |Live(v)|
    decreases Nodes(t), 0
  {
    DeleteKeepsUsable(u.left, b, down);
    DeleteKeepsUsable(u.right, b, down);
    DeleteNodes(u.left, b, down);
    DeleteNodes(u.right, b, down);
    DeleteStepUsable(u, b, down, Delete(u.left, b, down).0, Delete(u.right, b, down).0);
  }

  // ---- Walks that only push ----

  lemma {:induction false} FlagsSameCache(d: Data, l: Tree, r: Tree, e: Data, l': Tree, r': Tree)
    requires LocalFlags(d, l, r) && SameCache(l, l') && SameCache(r, r')
    requires e == d.(needLeft := e.needLeft, needRight := e.needRight)
    ensures LocalFlags(e, l', r')
  {
  }

  lemma {:induction false} PushesKeepUsable(t: Tree, u: Tree)
    requires Pushes(t, u) && Usable(t)
    ensures Usable(u) && Nodes(u) == Nodes(t)
    decreases Nodes(t)
  {
    if u != t {
      SonsUsable(t);
      PushesSons(t, u);
      PushesKeepUsable(EffLeft(t), u.left);
      PushesKeepUsable(EffRight(t), u.right);
      PushesRoot(EffLeft(t), u.left);
      PushesRoot(EffRight(t), u.right);
      FlagsSameCache(t.d, EffLeft(t), EffRight(t), u.d, u.left, u.right);
      EffNodes(t);
    }
  }

  // ---- The k-d order ----

  lemma {:induction false} UpdateStored(d: Data, l: Tree, r: Tree)
    ensures Stored(Update(Node(d, l, r))) == {d.point} + Stored(l) + Stored(r)
  {
  }

  lemma {:induction false} PushDownStored(t: Tree)
    requires t.Node?
    ensures PushDown(t).d.point == t.d.point
    ensures Stored(t) == {t.d.point} + Stored(EffLeft(t)) + Stored(EffRight(t))
  {
    EffSons(t);
  }

  lemma {:induction false} AddStored(t: Tree, p: Point, fatherAxis: Axis)
    ensures Stored(Add(t, p, fatherAxis)) == Stored(t) + {p}
    decreases Nodes(t)
  {
    if t.Node? {
      var d := PushDown(t).d;
      PushDownStored(t);
      if GoesLeft(t.d, p) {
        AddStored(EffLeft(t), p, t.d.axis);
        UpdateStored(d, Add(EffLeft(t), p, t.d.axis), EffRight(t));
      } else {
        AddStored(EffRight(t), p, t.d.axis);
        UpdateStored(d, EffLeft(t), Add(EffRight(t), p, t.d.axis));
      }
    } else {
      UpdateStored(FreshData(p, NextAxis(fatherAxis)), Nil, Nil);
    }
  }

  /** An insertion keeps the k-d order. */
  lemma {:induction false} AddKeepsOrder(t: Tree, p: Point, fatherAxis: Axis)
    requires Ordered(t)
    ensures Ordered(Add(t, p, fatherAxis))
    decreases Nodes(t)
  {
    if t.Node? {
      var son := if GoesLeft(t.d, p) then EffLeft(t) else EffRight(t);
      EffSons(t);
      PushDownSettles(t);
      PushDownKeepsShape(t);
      AddKeepsOrder(son, p, t.d.axis);
      AddStored(son, p, t.d.axis);
      AddStepShape(PushDown(t), p, Add(son, p, t.d.axis));
    }
  }

  /** The walk goes on into the sons. */
  predicate Cuts(t: Tree, b: Box) {
    !Dead(t) && !Misses(b, t.d.range) && !Covers(b, t.d.range)
  }

  lemma {:induction false} UncutShape(t: Tree, b: Box, down: bool)
    requires !Cuts(t, b)
    ensures var u := Delete(t, b, down).0; Stored(u) == Stored(t) && (Ordered(t) ==> Ordered(u))
  {
    PushDownKeepsShape(t);
  }

  lemma {:induction false} CutIsInside(t: Tree, b: Box, down: bool)
    requires Cuts(t, b)
    ensures var l, r := Delete(EffLeft(t), b, down).0, Delete(EffRight(t), b, down).0;
            Delete(t, b, down).0 == Update(Node(DeleteOwn(PushDown(t).d, b, down), l, r))
  {
  }

  lemma {:induction false} DeleteStored(t: Tree, b: Box, down: bool)
    ensures Stored(Delete(t, b, down).0) == Stored(t)
    decreases Nodes(t)
  {
    if Cuts(t, b) {
      var l, r := Delete(EffLeft(t), b, down).0, Delete(EffRight(t), b, down).0;
      CutIsInside(t, b, down);
      PushDownStored(t);
      DeleteStored(EffLeft(t), b, down);
      DeleteStored(EffRight(t), b, down);
      UpdateStored(DeleteOwn(PushDown(t).d, b, down), l, r);
    } else {
      UncutShape(t, b, down);
    }
  }

  /** A box delete keeps the k-d order. */
  lemma {:induction false} DeleteKeepsOrder(t: Tree, b: Box, down: bool)
    requires Ordered(t)
    ensures Ordered(Delete(t, b, down).0)
    decreases Nodes(t)
  {
    if Cuts(t, b) {
      var l, r := Delete(EffLeft(t), b, down).0, Delete(EffRight(t), b, down).0;
      CutIsInside(t, b, down);
      EffSons(t);
      PushDownSettles(t);
      PushDownKeepsShape(t);
      DeleteKeepsOrder(EffLeft(t), b, down);
      DeleteKeepsOrder(EffRight(t), b, down);
      DeleteStored(EffLeft(t), b, down);
      DeleteStored(EffRight(t), b, down);
      DeleteStepShape(PushDown(t), b, down, l, r);
    } else {
      UncutShape(t, b, down);
    }
  }
}
