/** The point insertion and box deletion walks on tree values, without rebuilding, and what one step of each keeps. */
module TreeOps {
  import opened Geometry
  import opened TreeModel

  /** A node as Push_Down leaves it: a flag remains only above a missing son. */
  predicate Settled(t: Tree) {
    && t.Node?
    && (t.d.needLeft ==> t.left.Nil?)
    && (t.d.needRight ==> t.right.Nil?)
  }

  predicate GoesLeft(d: Data, p: Point) {
    Coord(p, d.axis) < Coord(d.point, d.axis)
  }

  function NextAxis(axis: Axis): Axis {
    (axis + 1) % 3
  }

  /** Add_by_point with rebuilding disallowed. */
  function Add(t: Tree, p: Point, fatherAxis: Axis): Tree
    decreases Nodes(t)
  {
    if t.Nil? then Leaf(p, NextAxis(fatherAxis))
    else
      AddBelow(PushDown(t), p,
               if GoesLeft(t.d, p) then Add(EffLeft(t), p, t.d.axis) else Add(EffRight(t), p, t.d.axis))
  }

  function AddBelow(u: Tree, p: Point, son: Tree): Tree
    requires u.Node?
  {
    Update(if GoesLeft(u.d, p) then Node(u.d, son, u.right) else Node(u.d, u.left, son))
  }

  /** The flags of a node whose whole subtree is deleted. */
  function Kill(d: Data, down: bool): Data {
    var e := d.(treeDeleted := true, pointDeleted := true, needLeft := true, needRight := true, invalid := d.size);
    if down then e.(treeDownDeleted := true, pointDownDeleted := true, downDel := d.size) else e
  }

  /** The node's own point under a box delete that covers the node only in part. */
  predicate HitsOwn(d: Data, b: Box) {
    !d.pointDeleted && Inside(b, d.point)
  }

  function DeleteOwn(d: Data, b: Box, down: bool): Data {
    if HitsOwn(d, b) then d.(pointDeleted := true, pointDownDeleted := down || d.pointDownDeleted) else d
  }

  /** Delete_by_range with rebuilding disallowed: the new tree and the number of points deleted. */
  function Delete(t: Tree, b: Box, down: bool): (Tree, int)
    decreases Nodes(t), 1
  {
    if Dead(t) then (t, 0)
    else
      var u := PushDown(t);
      if Misses(b, u.d.range) then (u, 0)
      else if Covers(b, u.d.range) then (u.(d := Kill(u.d, down)), u.d.size - u.d.invalid)
      else DeleteInside(t, b, down)
  }

  /** The delete of a box that covers the cached range only in part. */
  function DeleteInside(t: Tree, b: Box, down: bool): (Tree, int)
    requires t.Node?
    decreases Nodes(t), 0
  {
    var u := PushDown(t);
    var (l, m) := Delete(EffLeft(t), b, down);
    var (r, n) := Delete(EffRight(t), b, down);
    (Update(Node(DeleteOwn(u.d, b, down), l, r)), One(HitsOwn(u.d, b)) + m + n)
  }

  // ---- Single steps ----

  lemma {:induction false} PushDownSettles(t: Tree)
    requires t.Node?
    ensures Settled(PushDown(t))
    ensures PushDown(t).left == EffLeft(t) && PushDown(t).right == EffRight(t)
    ensures Inv(t) ==> Inv(PushDown(t).left) && Inv(PushDown(t).right)
    ensures Live(t) == Own(t.d) + Live(PushDown(t).left) + Live(PushDown(t).right)
  {
  }

  lemma {:induction false} SettledMeaning(t: Tree)
    requires Settled(t)
    ensures EffLeft(t) == t.left && EffRight(t) == t.right
    ensures Live(t) == Own(t.d) + Live(t.left) + Live(t.right)
    ensures Inv(t) ==> Inv(t.left) && Inv(t.right) && (t.d.pointDownDeleted ==> t.d.pointDeleted)
  {
  }

  lemma {:induction false} LeafMeaning(p: Point, axis: Axis)
    ensures var t := Leaf(p, axis); Inv(t) && LoneLive(t) && Live(t) == multiset{p} && Stored(t) == {p} && Ordered(t)
  {
    var n := Node(FreshData(p, axis), Nil, Nil);
    UpdateRepairs(n);
    UpdateKeepsShape(n);
    assert Live(Nil) == multiset{};
  }

  /** Update over a settled node one of whose sons was replaced, the other kept. */
  lemma {:induction false} UpdateSons(d: Data, l: Tree, r: Tree)
    requires Inv(l) && Inv(r) && (d.pointDownDeleted ==> d.pointDeleted)
    requires d.needLeft ==> l.Nil? || LoneLive(l)
    requires d.needRight ==> r.Nil? || LoneLive(r)
    ensures Inv(Update(Node(d, l, r))) && Live(Update(Node(d, l, r))) == Own(d) + Live(l) + Live(r)
  {
    UpdateRepairs(Node(d, l, r));
  }

  lemma {:induction false} Regroup(A: multiset<Point>, B: multiset<Point>, C: multiset<Point>, D: multiset<Point>)
    ensures A + (B + D) + C == A + B + C + D
    ensures A + B + (C + D) == A + B + C + D
  {
  }

  lemma {:induction false} AddStepLeft(u: Tree, p: Point, l: Tree)
    requires Settled(u) && Inv(u) && Inv(l)
    requires Live(l) == Live(u.left) + multiset{p} && (u.left.Nil? ==> LoneLive(l))
    ensures Inv(Update(Node(u.d, l, u.right)))
    ensures Live(Update(Node(u.d, l, u.right))) == Live(u) + multiset{p}
  {
    SettledMeaning(u);
    UpdateSons(u.d, l, u.right);
    Regroup(Own(u.d), Live(u.left), Live(u.right), multiset{p});
  }

  lemma {:induction false} AddStepRight(u: Tree, p: Point, r: Tree)
    requires Settled(u) && Inv(u) && Inv(r)
    requires Live(r) == Live(u.right) + multiset{p} && (u.right.Nil? ==> LoneLive(r))
    ensures Inv(Update(Node(u.d, u.left, r)))
    ensures Live(Update(Node(u.d, u.left, r))) == Live(u) + multiset{p}
  {
    SettledMeaning(u);
    UpdateSons(u.d, u.left, r);
    Regroup(Own(u.d), Live(u.left), Live(u.right), multiset{p});
  }

  /** One level of an insertion: the chosen son gained the point, so the node does. */
  lemma {:induction false} AddStep(u: Tree, p: Point, son: Tree)
    requires Settled(u) && Inv(u) && Inv(son)
    requires GoesLeft(u.d, p) ==> Live(son) == Live(u.left) + multiset{p} && (u.left.Nil? ==> LoneLive(son))
    requires !GoesLeft(u.d, p) ==> Live(son) == Live(u.right) + multiset{p} && (u.right.Nil? ==> LoneLive(son))
    ensures Inv(AddBelow(u, p, son)) && !Dead(AddBelow(u, p, son))
    ensures Live(AddBelow(u, p, son)) == Live(u) + multiset{p}
  {
    if GoesLeft(u.d, p) {
      AddStepLeft(u, p, son);
    } else {
      AddStepRight(u, p, son);
    }
    NotDead(AddBelow(u, p, son), p);
  }

  lemma {:induction false} NotDead(t: Tree, p: Point)
    requires Inv(t) && p in Live(t)
    ensures !Dead(t)
  {
    CachedFieldsExact(t);
  }

  lemma {:induction false} AddStepShape(u: Tree, p: Point, son: Tree)
    requires Settled(u) && Ordered(u) && Ordered(son)
    requires Stored(son) <= Stored(if GoesLeft(u.d, p) then u.left else u.right) + {p}
    ensures Ordered(AddBelow(u, p, son))
    ensures Stored(AddBelow(u, p, son)) <= Stored(u) + {p}
  {
    UpdateKeepsShape(if GoesLeft(u.d, p) then Node(u.d, son, u.right) else Node(u.d, u.left, son));
  }

  lemma {:induction false} KillStep(u: Tree, down: bool)
    requires u.Node? && Inv(u)
    ensures var k := u.(d := Kill(u.d, down)); Inv(k) && Live(k) == multiset{} && Stored(k) == Stored(u)
    ensures Ordered(u) ==> Ordered(u.(d := Kill(u.d, down)))
  {
    var p := u.d.(treeDeleted := true, treeDownDeleted := down);
    assert Kill(u.d, down) == PushOnto(p, u.d);
    PushKeepsInv(p, u);
    PushKills(p, u);
  }

  lemma {:induction false} OwnOutside(d: Data, b: Box, down: bool)
    ensures Own(DeleteOwn(d, b, down)) == Outside(Own(d), b)
    ensures One(HitsOwn(d, b)) == |Own(d)| - |Own(DeleteOwn(d, b, down))|
  {
  }

  lemma {:induction false} OutsideSplit3(A: multiset<Point>, B: multiset<Point>, C: multiset<Point>, b: Box)
    ensures Outside(A + B + C, b) == Outside(A, b) + Outside(B, b) + Outside(C, b)
  {
    OutsideSplit(A, B, b);
    OutsideSplit(A + B, C, b);
  }

  /** One level of a partial box delete. */
  lemma {:induction false} DeleteStep(u: Tree, b: Box, down: bool, l: Tree, r: Tree)
    requires Settled(u) && Inv(u)
    requires Inv(l) && Live(l) == Outside(Live(u.left), b) && (u.left.Nil? ==> l.Nil?)
    requires Inv(r) && Live(r) == Outside(Live(u.right), b) && (u.right.Nil? ==> r.Nil?)
    ensures var v := Update(Node(DeleteOwn(u.d, b, down), l, r)); Inv(v) && Live(v) == Outside(Live(u), b)
    ensures |Live(u)| - |Outside(Live(u), b)|
         == One(HitsOwn(u.d, b)) + (|Live(u.left)| - |Live(l)|) + (|Live(u.right)| - |Live(r)|)
  {
    SettledMeaning(u);
    UpdateRepairs(Node(DeleteOwn(u.d, b, down), l, r));
    OwnOutside(u.d, b, down);
    OutsideSplit3(Own(u.d), Live(u.left), Live(u.right), b);
  }

  lemma {:induction false} DeleteStepShape(u: Tree, b: Box, down: bool, l: Tree, r: Tree)
    requires Settled(u) && Ordered(u) && Ordered(l) && Ordered(r)
    requires Stored(l) <= Stored(u.left) && Stored(r) <= Stored(u.right)
    ensures var v := Update(Node(DeleteOwn(u.d, b, down), l, r)); Ordered(v) && Stored(v) <= Stored(u)
  {
    UpdateKeepsShape(Node(DeleteOwn(u.d, b, down), l, r));
  }

  // ---- Whole operations ----

  /** Inserting a point adds exactly that point to the live points. */
  lemma {:induction false} AddMeaning(t: Tree, p: Point, fatherAxis: Axis)
    requires Inv(t)
    ensures var u := Add(t, p, fatherAxis);
            Inv(u) && !Dead(u) && Live(u) == Live(t) + multiset{p} && (t.Nil? ==> LoneLive(u))
    decreases Nodes(t)
  {
    if t.Nil? {
      LeafMeaning(p, NextAxis(fatherAxis));
      assert Live(t) == multiset{};
    } else {
      PushDownSettles(t);
      PushDownKeepsMeaning(t);
      PushDownKeepsInv(t);
      var son := if GoesLeft(t.d, p) then EffLeft(t) else EffRight(t);
      AddMeaning(son, p, t.d.axis);
      AddStep(PushDown(t), p, Add(son, p, t.d.axis));
    }
  }

  lemma {:induction false} AddSize(t: Tree, p: Point, fatherAxis: Axis)
    requires Inv(t)
    ensures Size(Add(t, p, fatherAxis)) == Size(t) + 1
    decreases Nodes(t)
  {
    if t.Node? {
      AddSize(if GoesLeft(t.d, p) then EffLeft(t) else EffRight(t), p, t.d.axis);
    }
  }

  lemma {:induction false} DeleteSize(t: Tree, b: Box, down: bool)
    requires Inv(t)
    ensures var u := Delete(t, b, down).0; Size(u) == Size(t) && (u.Nil? <==> t.Nil?)
    decreases Nodes(t)
  {
    if !Dead(t) {
      DeleteSize(EffLeft(t), b, down);
      DeleteSize(EffRight(t), b, down);
    }
  }

  lemma {:induction false} DeadMeaning(t: Tree, b: Box)
    requires Inv(t) && Dead(t)
    ensures Live(t) == multiset{} == Outside(Live(t), b)
  {
    CachedFieldsExact(t);
  }

  /** Deleting a box removes exactly the live points in the half-open box and counts them. */
  lemma {:induction false} DeleteMeaning(t: Tree, b: Box, down: bool)
    requires Inv(t)
    ensures var u := Delete(t, b, down).0; Inv(u) && Live(u) == Outside(Live(t), b)
    ensures Delete(t, b, down).1 == |Live(t)| - |Outside(Live(t), b)|
    decreases Nodes(t)
  {
    if Dead(t) {
      DeadMeaning(t, b);
    } else {
      var u := PushDown(t);
      PushDownSettles(t);
      PushDownKeepsMeaning(t);
      PushDownKeepsInv(t);
      if Misses(b, u.d.range) {
        CachedFieldsExact(u);
        BoxAndRange(u.d.range, Live(u), b);
      } else if Covers(b, u.d.range) {
        CachedFieldsExact(u);
        BoxAndRange(u.d.range, Live(u), b);
        KillStep(u, down);
      } else {
        DeletePartial(t, u, b, down);
      }
    }
  }

  lemma {:induction false} DeletePartial(t: Tree, u: Tree, b: Box, down: bool)
    requires t.Node? && Inv(t) && u == PushDown(t) && Settled(u) && Inv(u)
    requires Inv(u.left) && Inv(u.right) && u.left == EffLeft(t) && u.right == EffRight(t)
    ensures var (v, n) := DeleteInside(t, b, down);
            Inv(v) && Live(v) == Outside(Live(u), b) && n == |Live(u)| - |Outside(Live(u), b)|
    decreases Nodes(t), 0
  {
    DeleteMeaning(u.left, b, down);
    DeleteMeaning(u.right, b, down);
    DeleteSize(u.left, b, down);
    DeleteSize(u.right, b, down);
    DeleteStep(u, b, down, Delete(u.left, b, down).0, Delete(u.right, b, down).0);
  }

  lemma {:induction false} DownDeadIsDead(t: Tree)
    requires Inv(t) && DownDead(t)
    ensures Dead(t)
    decreases Nodes(t)
  {
    if t.Node? {
      DownDeadIsDead(EffLeft(t));
      DownDeadIsDead(EffRight(t));
    }
  }

  /**
    A push that Push_Down really performs onto a subtree of two or more points always carries a
    whole-subtree delete; leftovers of earlier deletes reach lone live nodes only.
   */
  lemma {:induction false} PendingPushIsDelete(t: Tree)
    requires Inv(t) && t.Node?
    ensures t.d.needLeft && Size(t.left) > 1 ==> t.d.treeDeleted
    ensures t.d.needRight && Size(t.right) > 1 ==> t.d.treeDeleted
    ensures t.d.treeDownDeleted ==> t.d.treeDeleted
  {
    if t.d.treeDownDeleted {
      DownDeadIsDead(t);
    }
  }

  // ---- Where the operations put a point ----

  /** A new node hangs below the last node on its way, left of it only for a strictly smaller coordinate. */
  lemma {:induction false} AddPlaces(t: Tree, p: Point, fatherAxis: Axis)
    ensures var u := Add(t, p, fatherAxis);
            && u.Node?
            && (t.Nil? ==>
                  && u.d.point == p && u.left.Nil? && u.right.Nil?
                  && u.d.axis == if fatherAxis == 0 then 1 else if fatherAxis == 1 then 2 else 0)
            && (t.Node? ==>
                  && u.d.point == t.d.point && u.d.axis == t.d.axis
                  && (if Coord(p, t.d.axis) < Coord(t.d.point, t.d.axis)
                      then u.left == Add(EffLeft(t), p, t.d.axis) && u.right == EffRight(t)
                      else u.left == EffLeft(t) && u.right == Add(EffRight(t), p, t.d.axis)))
  {
  }

  // ---- What the operations do to the points recorded as removed ----

  lemma {:induction false} DownDeadRecords(t: Tree)
    requires Inv(t) && DownDead(t)
    ensures Removed(t) == multiset{} == Live(t)
  {
    DownDeadCounts(t);
    CachedFieldsExact(t);
    DownDeadIsDead(t);
  }

  lemma {:induction false} Mix(A: multiset<Point>, a: multiset<Point>, B: multiset<Point>, b: multiset<Point>,
                               C: multiset<Point>, c: multiset<Point>)
    ensures (A + a) + (B + b) + (C + c) == (A + B + C) + (a + b + c)
  {
  }

  /** A pushed delete records every live point below it, one by downsampling none at all. */
  lemma {:induction false} PushRecords(p: Data, t: Tree)
    requires Inv(t) && p.treeDeleted
    ensures Removed(Pushed(p, t)) == if p.treeDownDeleted then multiset{} else Removed(t) + Live(t)
    decreases Nodes(t), 1
  {
    if t.Node? {
      PushRecordsBelow(p, t);
      if t.d.treeDownDeleted {
        DownDeadRecords(t);
      } else if !p.treeDownDeleted {
        var l, r := EffLeft(t), EffRight(t);
        PushedOwn(p, t);
        Mix(OwnRemoved(t.d), Own(t.d), Removed(l), Live(l), Removed(r), Live(r));
      }
    }
  }

  lemma {:induction false} PushedOwn(p: Data, t: Tree)
    requires Inv(t) && t.Node? && p.treeDeleted && !p.treeDownDeleted && !t.d.treeDownDeleted
    ensures OwnRemoved(PushOnto(p, t.d)) == OwnRemoved(t.d) + Own(t.d)
  {
  }

  lemma {:induction false} PushRecordsBelow(p: Data, t: Tree)
    requires t.Node? && Inv(t) && p.treeDeleted
    ensures var u, l, r := PushOnto(p, t.d), EffLeft(t), EffRight(t);
            Removed(Pushed(p, t)) == if u.treeDownDeleted then multiset{}
                                     else OwnRemoved(u) + (Removed(l) + Live(l)) + (Removed(r) + Live(r))
    decreases Nodes(t), 0
  {
    var u := Pushed(p, t);
    var l, r := EffLeft(t), EffRight(t);
    PushTwice(u.d, t.d, t.left);
    PushTwice(u.d, t.d, t.right);
    assert EffLeft(u) == Pushed(u.d, l) && EffRight(u) == Pushed(u.d, r);
    PushRecords(u.d, l);
    PushRecords(u.d, r);
    RemovedParts(u);
  }

  lemma {:induction false} RemovedParts(t: Tree)
    requires t.Node?
    ensures Removed(t) == OwnRemoved(t.d) + Removed(EffLeft(t)) + Removed(EffRight(t))
  {
  }

  /** Deleting a whole subtree records its live points; a delete by downsampling withdraws what was recorded there. */
  lemma {:induction false} KillRecords(u: Tree, down: bool)
    requires u.Node? && Inv(u) && !Dead(u)
    ensures Removed(u.(d := Kill(u.d, down))) == if down then multiset{} else Removed(u) + Live(u)
  {
    PendingPushIsDelete(u);
    var p := u.d.(treeDeleted := true, treeDownDeleted := down);
    assert Kill(u.d, down) == PushOnto(p, u.d);
    PushRecords(p, u);
  }

  lemma {:induction false} OwnRecords(d: Data, b: Box, down: bool)
    requires d.pointDownDeleted ==> d.pointDeleted
    ensures OwnRemoved(DeleteOwn(d, b, down)) == OwnRemoved(d) + if down then multiset{} else Within(Own(d), b)
  {
  }

  lemma {:induction false} DeleteStepRecords(u: Tree, b: Box, down: bool, l: Tree, r: Tree)
    requires Settled(u) && (u.left.Nil? ==> l.Nil?) && (u.right.Nil? ==> r.Nil?)
    ensures Removed(Update(Node(DeleteOwn(u.d, b, down), l, r)))
         == OwnRemoved(DeleteOwn(u.d, b, down)) + Removed(l) + Removed(r)
  {
    var v := Update(Node(DeleteOwn(u.d, b, down), l, r));
    RemovedParts(v);
    assert EffLeft(v) == l && EffRight(v) == r;
  }

  /** A box delete records exactly the live points it removes; one by downsampling records nothing. */
  lemma {:induction false} DeleteRecords(t: Tree, b: Box, down: bool)
    requires Inv(t)
    ensures var v := Delete(t, b, down).0;
            if down then Removed(v) <= Removed(t) else Removed(v) == Removed(t) + Within(Live(t), b)
    decreases Nodes(t)
  {
    if Dead(t) {
      DeadMeaning(t, b);
    } else {
      var u := PushDown(t);
      PushDownKeepsMeaning(t);
      PushDownKeepsInv(t);
      if Misses(b, u.d.range) {
        MissedRecords(u, b);
      } else if Covers(b, u.d.range) {
        CoveredRecords(u, b);
        KillRecords(u, down);
      } else {
        DeleteInsideRecords(t, b, down);
      }
    }
  }

  lemma {:induction false} MissedRecords(u: Tree, b: Box)
    requires u.Node? && Inv(u) && !Dead(u) && Misses(b, u.d.range)
    ensures Within(Live(u), b) == multiset{}
  {
    CachedFieldsExact(u);
    BoxAndRange(u.d.range, Live(u), b);
  }

  lemma {:induction false} CoveredRecords(u: Tree, b: Box)
    requires u.Node? && Inv(u) && !Dead(u) && Covers(b, u.d.range)
    ensures Within(Live(u), b) == Live(u)
  {
    CachedFieldsExact(u);
    BoxAndRange(u.d.range, Live(u), b);
  }

  lemma {:induction false} DeleteInsideRecords(t: Tree, b: Box, down: bool)
    requires t.Node? && Inv(t)
    ensures var v := DeleteInside(t, b, down).0;
            if down then Removed(v) <= Removed(t) else Removed(v) == Removed(t) + Within(Live(t), b)
    decreases Nodes(t), 0
  {
    var u := PushDown(t);
    PushDownSettles(t);
    PushDownKeepsInv(t);
    DeleteRecords(u.left, b, down);
    DeleteRecords(u.right, b, down);
    DeleteSize(u.left, b, down);
    DeleteSize(u.right, b, down);
    PushDownKeepsMeaning(t);
    DeletePartsRecords(u, b, down, Delete(u.left, b, down).0, Delete(u.right, b, down).0);
  }

  lemma {:induction false} WithinParts(u: Tree, b: Box)
    requires Settled(u) && Inv(u)
    ensures Within(Live(u), b) == Within(Own(u.d), b) + Within(Live(u.left), b) + Within(Live(u.right), b)
    ensures Removed(u) == OwnRemoved(u.d) + Removed(u.left) + Removed(u.right)
    ensures u.d.pointDownDeleted ==> u.d.pointDeleted
  {
    SettledMeaning(u);
    WithinSplit3(Own(u.d), Live(u.left), Live(u.right), b);
  }

  lemma {:induction false} DeletePartsRecords(u: Tree, b: Box, down: bool, l: Tree, r: Tree)
    requires Settled(u) && Inv(u)
    requires (u.left.Nil? ==> l.Nil?) && (u.right.Nil? ==> r.Nil?)
    requires if down then Removed(l) <= Removed(u.left) else Removed(l) == Removed(u.left) + Within(Live(u.left), b)
    requires if down then Removed(r) <= Removed(u.right) else Removed(r) == Removed(u.right) + Within(Live(u.right), b)
    ensures var v := Update(Node(DeleteOwn(u.d, b, down), l, r));
            if down then Removed(v) <= Removed(u) else Removed(v) == Removed(u) + Within(Live(u), b)
  {
    WithinParts(u, b);
    DeleteStepRecords(u, b, down, l, r);
    OwnRecords(u.d, b, down);
    SumRecords(down, OwnRemoved(u.d), Within(Own(u.d), b), OwnRemoved(DeleteOwn(u.d, b, down)),
               Removed(u.left), Within(Live(u.left), b), Removed(l), Removed(u.right), Within(Live(u.right), b),
               Removed(r));
  }

  lemma {:induction false} SumRecords(down: bool, A: multiset<Point>, a: multiset<Point>, A': multiset<Point>,
                                      B: multiset<Point>, b: multiset<Point>, B': multiset<Point>,
                                      C: multiset<Point>, c: multiset<Point>, C': multiset<Point>)
    requires A' == A + if down then multiset{} else a
    requires if down then B' <= B else B' == B + b
    requires if down then C' <= C else C' == C + c
    ensures if down then A' + B' + C' <= A + B + C else A' + B' + C' == (A + B + C) + (a + b + c)
  {
  }

  lemma {:induction false} WithinSplit3(A: multiset<Point>, B: multiset<Point>, C: multiset<Point>, b: Box)
    ensures Within(A + B + C, b) == Within(A, b) + Within(B, b) + Within(C, b)
  {
    WithinSplit(A, B, b);
    WithinSplit(A + B, C, b);
  }

  /** An insertion records nothing. */
  lemma {:induction false} AddRecords(t: Tree, p: Point, fatherAxis: Axis)
    requires Inv(t)
    ensures Removed(Add(t, p, fatherAxis)) == Removed(t)
    decreases Nodes(t)
  {
    if t.Nil? {
      LeafMeaning(p, NextAxis(fatherAxis));
    } else {
      PushDownSettles(t);
      PushDownKeepsMeaning(t);
      var son := if GoesLeft(t.d, p) then EffLeft(t) else EffRight(t);
      AddMeaning(son, p, t.d.axis);
      AddRecords(son, p, t.d.axis);
      AddStepRecords(PushDown(t), p, Add(son, p, t.d.axis));
    }
  }

  lemma {:induction false} AddStepRecords(u: Tree, p: Point, son: Tree)
    requires Settled(u)
    requires var s := if GoesLeft(u.d, p) then u.left else u.right;
             Removed(son) == Removed(s) && (s.Nil? ==> LoneLive(son))
    ensures Removed(AddBelow(u, p, son)) == Removed(u)
  {
    var v := AddBelow(u, p, son);
    SettledMeaning(u);
    if LoneLive(son) {
      LoneLiveMeaning(son, v.d);
    }
  }
}
