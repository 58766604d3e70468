/**
  Where the two threads do not keep the map: an Update that meets a delete pending over a living son brings
  points back, and a subtree whose TreeSize overstates can lose its designation in the middle of a rebuild.
 */
module RebuildLimits {
  import opened Options
  import opened Geometry
  import opened TreeModel
  import opened TreeOps
  import opened StaleTrees
  import opened TreeWays
  import opened Operations
  import opened MapWalks
  import opened BackgroundRebuild
  import opened PushWalk
  import opened TreeBuilder

  // ---- Update after a swap ----

  /** No push is pending at the nodes on the way. */
  predicate ClearWay(t: Tree, way: Way)
    requires Leads(t, way)
  {
    match way
    case Here => true
    case ToLeft(rest) => !t.d.needLeft && ClearWay(t.left, rest)
    case ToRight(rest) => !t.d.needRight && ClearWay(t.right, rest)
  }

  lemma {:induction false} PlugChangesLive(t: Tree, way: Way, u: Tree)
    requires Leads(t, way) && ClearWay(t, way)
    ensures Live(Plug(t, way, u)) == Live(t) <==> Live(u) == Live(At(t, way))
    decreases way
  {
    match way
    case Here =>
    case ToLeft(rest) =>
      PlugChangesLive(t.left, rest, u);
      OnePartChanges(Own(t.d), Live(t.left), Live(Plug(t.left, rest, u)), Live(EffRight(t)));
    case ToRight(rest) =>
      PlugChangesLive(t.right, rest, u);
      OnePartChanges(Own(t.d) + Live(EffLeft(t)), Live(t.right), Live(Plug(t.right, rest, u)), multiset{});
  }

  lemma {:induction false} OnePartChanges(A: multiset<Point>, B: multiset<Point>, C: multiset<Point>,
                                          D: multiset<Point>)
    ensures A + B + D == A + C + D <==> B == C
  {
    if A + B + D == A + C + D {
      forall p: Point ensures B[p] == C[p] {
        assert (A + B + D)[p] == (A + C + D)[p];
      }
    }
  }

  /**
    With no push pending above it, Update of a node somewhere in the map keeps the points of the map if and
    only if no delete is pending at the node over a living son.
   */
  lemma {:induction false} RefreshExact(t: Tree, way: Way)
    requires Usable(t) && Leads(t, way) && ClearWay(t, way)
    ensures Live(Plug(t, way, Update(At(t, way)))) == Live(t) <==> Harmless(At(t, way))
  {
    AboveIsLarger(t, way);
    UpdateExact(At(t, way));
    PlugChangesLive(t, way, Update(At(t, way)));
  }

  // ---- Runs of the machine ----

  /** The steps lead from `s` to `s'`. */
  ghost predicate Reaches(s: State, steps: seq<Step>, s': State, threshold: nat) {
    if steps == [] then s' == s
    else
      var last := |steps| - 1;
      exists m :: Reaches(s, steps[..last], m, threshold) && Next(m, steps[last], s', threshold)
  }

  lemma {:induction false} ReachOn(s: State, steps: seq<Step>, m: State, step: Step, s': State, threshold: nat)
    requires Reaches(s, steps, m, threshold) && Next(m, step, s', threshold)
    ensures Reaches(s, steps + [step], s', threshold)
  {
    assert (steps + [step])[..|steps|] == steps;
  }

  lemma {:induction false} ReachTwo(s: State, a: Step, m: State, b: Step, s': State, threshold: nat)
    requires Next(s, a, m, threshold) && Next(m, b, s', threshold)
    ensures Reaches(s, [a, b], s', threshold)
  {
    assert Reaches(s, [], s, threshold);
    ReachOn(s, [], s, a, m, threshold);
    assert [] + [a] == [a] && [a] + [b] == [a, b];
    ReachOn(s, [a], m, b, s', threshold);
  }

  lemma {:induction false} ReachBoth(s: State, a: seq<Step>, m: State, b: seq<Step>, s': State, threshold: nat)
    requires Reaches(s, a, m, threshold) && Reaches(m, b, s', threshold)
    ensures Reaches(s, a + b, s', threshold)
    decreases |b|
  {
    if b == [] {
      assert a + b == a;
    } else {
      var last := |b| - 1;
      var n :| Reaches(m, b[..last], n, threshold) && Next(n, b[last], s', threshold);
      ReachBoth(s, a, m, b[..last], n, threshold);
      ReachOn(s, a + b[..last], n, b[last], s', threshold);
      assert a + b[..last] + [b[last]] == a + b;
    }
  }

  lemma {:induction false} PlugSame(t: Tree, w: Way)
    requires Leads(t, w)
    ensures Plug(t, w, At(t, w)) == t
  {
    match w
    case Here =>
    case ToLeft(rest) => PlugSame(t.left, rest);
    case ToRight(rest) => PlugSame(t.right, rest);
  }

  /** No rebuild is under way and none is asked for. */
  predicate Idle(s: State) {
    s.tree.Node? && s.pointer.None? && !s.rebuildFlag && s.log == [] && s.phase.Waiting?
  }

  /** The state behind the snapshot of the subtree at `w`. */
  function Snapped(s: State, w: Way, snapshot: seq<Point>): State {
    State(s.tree, Some(w), true, [], Building(snapshot))
  }

  lemma {:induction false} SnapRun(s: State, w: Way, snapshot: seq<Point>, threshold: nat)
    requires Idle(s) && Leads(s.tree, w) && Size(At(s.tree, w)) >= threshold
             && multiset(snapshot) == Live(At(s.tree, w))
    ensures Reaches(s, [Register(w), Snapshot], Snapped(s, w, snapshot), threshold)
  {
    var r := s.(pointer := Some(w));
    SnapNext(r, w, snapshot, threshold);
    ReachTwo(s, Register(w), r, Snapshot, Snapped(s, w, snapshot), threshold);
  }

  lemma {:induction false} SnapNext(r: State, w: Way, snapshot: seq<Point>, threshold: nat)
    requires r == State(r.tree, Some(w), false, [], Waiting)
    requires Leads(r.tree, w) && multiset(snapshot) == Live(At(r.tree, w))
    ensures Next(r, Snapshot, Snapped(r, w, snapshot), threshold)
  {
    PlugSame(r.tree, w);
    assert Pushes(At(r.tree, w), At(r.tree, w));
  }

  /** From behind the snapshot, with nothing logged, to behind the swap. */
  lemma {:induction false} SwapRun(s: State, w: Way, snapshot: seq<Point>, rebuilt: Tree, threshold: nat)
    requires s.tree.Node? && s == State(s.tree, Some(w), true, [], Building(snapshot)) && Leads(s.tree, w)
    requires snapshot != [] && BuiltOver(rebuilt, multiset(snapshot))
    ensures Reaches(s, [Build, Swap], State(Plug(s.tree, w, rebuilt), None, false, [], Waiting), threshold)
  {
    var r := s.(phase := Replaying(rebuilt, []));
    ReachTwo(s, Build, r, Swap, State(Plug(s.tree, w, rebuilt), None, false, [], Waiting), threshold);
  }

  // ---- Update brings deleted points back ----

  /** The map after a delete of the whole of it and an insertion on the right. */
  function DeletedThenAdded(t: Tree, b: Box, p: Point): Tree
    requires Delete(t, b, false).0.Node?
  {
    var k := Delete(t, b, false).0;
    Add(k, p, k.d.axis)
  }

  lemma {:induction false} DeleteWhole(t: Tree, b: Box)
    requires t.Node? && Usable(t) && !Dead(t) && Covers(b, t.d.range)
    ensures Delete(t, b, false).0 == PushDown(t).(d := Kill(PushDown(t).d, false))
    ensures Outside(Live(t), b) == multiset{}
  {
    UsableFlags(t);
    BoxAndRange(t.d.range, Live(t), b);
    var c :| c in Live(t);
    assert InRange(c, t.d.range) && !Misses(b, t.d.range);
  }

  lemma {:induction false} AddOnRight(t: Tree, p: Point, axis: Axis)
    requires t.Node? && !GoesLeft(t.d, p)
    ensures var u := Add(t, p, axis); u.Node? && u.left == EffLeft(t) && u.d.needLeft == PushDown(t).d.needLeft
  {
  }

  /** The insertion has pushed the delete on to the left son, and no further. */
  lemma {:induction false} DeletedThenAddedSons(t: Tree, b: Box, p: Point)
    requires t.Node? && Usable(t) && !Dead(t) && Covers(b, t.d.range) && !GoesLeft(t.d, p) && t.left.Node?
    ensures Delete(t, b, false).0.Node?
    ensures var a := DeletedThenAdded(t, b, p);
            && a.Node? && Usable(a) && Live(a) == multiset{p} && !a.d.needLeft
            && a.left.Node? && a.left.d.treeDeleted && a.left.d.needLeft && a.left.left == t.left.left
  {
    var u := PushDown(t);
    var k := u.(d := Kill(u.d, false));
    DeleteWhole(t, b);
    PushDownKeepsUsable(t);
    KillUsable(u, false);
    AddKeepsUsable(k, p, k.d.axis);
    AddOnRight(k, p, k.d.axis);
  }

  lemma {:induction false} PlugBelowSon(a: Tree, rebuilt: Tree)
    requires a.Node? && a.left.Node? && a.left.left.Node?
    ensures Leads(a, ToLeft(ToLeft(Here))) && At(a, ToLeft(ToLeft(Here))) == a.left.left
    ensures var s := Plug(a, ToLeft(ToLeft(Here)), rebuilt);
            s.Node? && s.d == a.d && s.left.Node? && s.left.d == a.left.d && s.left.left == rebuilt
  {
    assert Leads(a.left, ToLeft(Here)) && Leads(a.left.left, Here);
    assert At(a.left, ToLeft(Here)) == At(a.left.left, Here);
    assert Plug(a.left, ToLeft(Here), rebuilt) == a.left.(left := Plug(a.left.left, Here, rebuilt));
  }

  lemma {:induction false} RevivedBelow(s: Tree)
    requires s.Node? && Usable(s) && !s.d.needLeft && s.left.Node?
    requires s.left.d.treeDeleted && s.left.d.needLeft && !Dead(s.left.left)
    ensures Leads(s, ToLeft(Here)) && Live(Plug(s, ToLeft(Here), Update(At(s, ToLeft(Here))))) != Live(s)
  {
    assert Leads(s.left, Here) && ClearWay(s.left, Here);
    RefreshExact(s, ToLeft(Here));
  }

  lemma {:induction false} RevivedAfterSwap(a: Tree, rebuilt: Tree)
    requires a.Node? && Usable(a) && !a.d.needLeft && a.left.Node? && a.left.left.Node?
    requires a.left.d.treeDeleted && a.left.d.needLeft
    requires MayReplace(rebuilt, a.left.left) && !Dead(rebuilt)
    ensures Leads(a, ToLeft(ToLeft(Here)))
    ensures var s := Plug(a, ToLeft(ToLeft(Here)), rebuilt);
            && Live(s) == Live(a) && s.Node?
            && Leads(s, ToLeft(Here)) && Live(Plug(s, ToLeft(Here), Update(At(s, ToLeft(Here))))) != Live(a)
  {
    PlugBelowSon(a, rebuilt);
    PlugKeepsUsable(a, ToLeft(ToLeft(Here)), rebuilt);
    RevivedBelow(Plug(a, ToLeft(ToLeft(Here)), rebuilt));
  }

  /** Both edits pass the left-left subtree by, so nothing is logged. */
  lemma {:induction false} EditsRun(s: State, snapshot: seq<Point>, b: Box, p: Point, threshold: nat)
    requires var t := s.tree;
             && t.Node? && Usable(t) && !Dead(t) && Covers(b, t.d.range) && !GoesLeft(t.d, p)
             && t.left.Node? && t.left.left.Node? && Size(t.left.left) >= threshold
    requires s == Snapped(s, ToLeft(ToLeft(Here)), snapshot)
    ensures Delete(s.tree, b, false).0.Node?
    ensures Reaches(s, [Edit(DeleteBox(b)), Edit(AddPoint(p))], s.(tree := DeletedThenAdded(s.tree, b, p)), threshold)
  {
    var k := Delete(s.tree, b, false).0;
    KilledSons(s.tree, b);
    PassedBy(s, DeleteBox(b), threshold);
    PassedBy(s.(tree := k), AddPoint(p), threshold);
    ReachTwo(s, Edit(DeleteBox(b)), s.(tree := k), Edit(AddPoint(p)), s.(tree := DeletedThenAdded(s.tree, b, p)),
        threshold);
  }

  lemma {:induction false} KilledSons(t: Tree, b: Box)
    requires t.Node? && Usable(t) && !Dead(t) && Covers(b, t.d.range) && t.left.Node? && t.left.left.Node?
    ensures var k := Delete(t, b, false).0;
            && k.Node? && k.d.point == t.d.point && k.d.axis == t.d.axis
            && k.left.Node? && k.left.left == t.left.left
  {
    DeleteWhole(t, b);
  }

  /** An edit that does not go on to the left leaves the left-left subtree alone. */
  lemma {:induction false} PassedBy(s: State, e: Operation, threshold: nat)
    requires s.tree.Node? && IsEdit(e) && !Visits(s.tree.d, e, true) && s.tree.left.Node? && s.tree.left.left.Node?
    requires s.pointer == Some(ToLeft(ToLeft(Here))) && Size(s.tree.left.left) >= threshold
    ensures Next(s, Edit(e), s.(tree := RunOperation(s.tree, e)), threshold)
  {
    var way := ToLeft(ToLeft(Here));
    PlugBelowSon(s.tree, s.tree.left.left);
    WalkAt(s.tree, way, e);
    if Enters(s.tree, e) {
      SonWalkOps(s.tree, way, e);
    }
    assert WalkOps(s.tree, way, e) == [];
    assert s.log + [] == s.log;
  }

  /** The steps of the run below. */
  function RevivingSteps(b: Box, p: Point): seq<Step> {
    var w := ToLeft(ToLeft(Here));
    [Register(w), Snapshot] + [Edit(DeleteBox(b)), Edit(AddPoint(p))] + [Build, Swap] + [Refresh(ToLeft(Here))]
  }

  /**
    A box delete kills the whole map while its left-left subtree is being rebuilt; an insertion on the right
    then pushes the delete on to the left son, and no further. After the swap, Update of the left son sees
    the new subtree alive, clears the delete flag, and deleted points are back.
   */
  lemma {:induction false} UpdateRevives(s: State, b: Box, p: Point, snapshot: seq<Point>, rebuilt: Tree,
                                         threshold: nat)
    returns (s': State)
    requires Idle(s) && Usable(s.tree) && Ordered(s.tree)
    requires var t := s.tree;
             && !Dead(t) && Covers(b, t.d.range) && !GoesLeft(t.d, p)
             && t.left.Node? && t.left.left.Node? && !Dead(t.left.left) && Size(t.left.left) >= threshold
             && multiset(snapshot) == Live(t.left.left) && BuiltOver(rebuilt, multiset(snapshot))
    ensures Reaches(s, RevivingSteps(b, p), s', threshold)
    ensures OpsLive(Live(s.tree), [DeleteBox(b), AddPoint(p)]) == multiset{p} && Live(s'.tree) != multiset{p}
  {
    RevivedTree(s.tree, b, p, snapshot, rebuilt);
    var swapped := Plug(DeletedThenAdded(s.tree, b, p), ToLeft(ToLeft(Here)), rebuilt);
    var m := State(swapped, None, false, [], Waiting);
    s' := m.(tree := Plug(swapped, ToLeft(Here), Update(At(swapped, ToLeft(Here)))));
    RevivingRun(s, b, p, snapshot, rebuilt, m, s', threshold);
    DeletedThenOne(Live(s.tree), b, p);
    DeleteWhole(s.tree, b);
  }

  lemma {:induction false} RevivedTree(t: Tree, b: Box, p: Point, snapshot: seq<Point>, rebuilt: Tree)
    requires t.Node? && Usable(t) && Ordered(t)
    requires !Dead(t) && Covers(b, t.d.range) && !GoesLeft(t.d, p)
    requires t.left.Node? && t.left.left.Node? && !Dead(t.left.left)
    requires multiset(snapshot) == Live(t.left.left) && BuiltOver(rebuilt, multiset(snapshot))
    ensures Delete(t, b, false).0.Node?
    ensures var a, w := DeletedThenAdded(t, b, p), ToLeft(ToLeft(Here)); Leads(a, w)
    ensures var swapped := Plug(DeletedThenAdded(t, b, p), ToLeft(ToLeft(Here)), rebuilt);
            && swapped.Node? && Leads(swapped, ToLeft(Here))
            && Live(Plug(swapped, ToLeft(Here), Update(At(swapped, ToLeft(Here))))) != multiset{p}
  {
    DeletedThenAddedSons(t, b, p);
    RebuiltLiving(t.left.left, t.left, t, rebuilt);
    RevivedAfterSwap(DeletedThenAdded(t, b, p), rebuilt);
  }

  lemma {:induction false} RebuiltLiving(v: Tree, father: Tree, t: Tree, rebuilt: Tree)
    requires t.Node? && Usable(t) && Ordered(t) && father == t.left && father.Node? && v == father.left
    requires v.Node? && !Dead(v) && BuiltOver(rebuilt, Live(v))
    ensures MayReplace(rebuilt, v) && !Dead(rebuilt)
  {
    BuiltStandsFor(rebuilt, v);
    UsableFlags(v);
    UsableFlags(rebuilt);
  }

  lemma {:induction false} RevivingRun(s: State, b: Box, p: Point, snapshot: seq<Point>, rebuilt: Tree, m: State,
                                       s': State, threshold: nat)
    requires Idle(s) && Usable(s.tree)
    requires var t := s.tree;
             && !Dead(t) && Covers(b, t.d.range) && !GoesLeft(t.d, p)
             && t.left.Node? && t.left.left.Node? && !Dead(t.left.left) && Size(t.left.left) >= threshold
             && multiset(snapshot) == Live(t.left.left) && BuiltOver(rebuilt, multiset(snapshot))
    requires Delete(s.tree, b, false).0.Node?
    requires var a, w := DeletedThenAdded(s.tree, b, p), ToLeft(ToLeft(Here));
             Leads(a, w) && m == State(Plug(a, w, rebuilt), None, false, [], Waiting)
    requires Next(m, Refresh(ToLeft(Here)), s', threshold)
    ensures Reaches(s, RevivingSteps(b, p), s', threshold)
  {
    var w := ToLeft(ToLeft(Here));
    var first, second := [Register(w), Snapshot], [Edit(DeleteBox(b)), Edit(AddPoint(p))];
    var r := Snapped(s, w, snapshot);
    var n := r.(tree := DeletedThenAdded(s.tree, b, p));
    PlugBelowSon(s.tree, s.tree.left.left);
    UsableFlags(s.tree);
    SnapRun(s, w, snapshot, threshold);
    EditsRun(r, snapshot, b, p, threshold);
    LivingSnapshot(s.tree.left.left, snapshot, s.tree);
    SwapRun(n, w, snapshot, rebuilt, threshold);
    ReachBoth(s, first, r, second, n, threshold);
    ReachBoth(s, first + second, n, [Build, Swap], m, threshold);
    ReachOn(s, first + second + [Build, Swap], m, Refresh(ToLeft(Here)), s', threshold);
  }

  lemma {:induction false} LivingSnapshot(v: Tree, snapshot: seq<Point>, t: Tree)
    requires Usable(t) && t.Node? && t.left.Node? && v == t.left.left && !Dead(v) && multiset(snapshot) == Live(v)
    ensures snapshot != []
  {
    UsableFlags(v);
  }

  lemma {:induction false} DeletedThenOne(S: multiset<Point>, b: Box, p: Point)
    ensures OpsLive(S, [DeleteBox(b), AddPoint(p)]) == Outside(S, b) + multiset{p}
  {
    var ops := [DeleteBox(b), AddPoint(p)];
    assert ops[1..] == [AddPoint(p)] && ops[1..][1..] == [];
    assert OpsLive(S, ops) == OpsLive(Outside(S, b), ops[1..]);
    assert OpsLive(Outside(S, b), ops[1..]) == OpsLive(Outside(S, b) + multiset{p}, ops[1..][1..]);
  }

  lemma {:induction false} Listing(S: multiset<Point>) returns (points: seq<Point>)
    ensures multiset(points) == S
    decreases |S|
  {
    if S == multiset{} {
      points := [];
    } else {
      var p :| p in S;
      var rest := Listing(S - multiset{p});
      points := [p] + rest;
    }
  }

  /** Every map built over enough points can be led there: at least four times the threshold and three. */
  lemma {:induction false} BuiltMapsRevive(t: Tree, S: multiset<Point>, threshold: nat) returns (b: Box, p: Point,
                                           s': State)
    requires BuiltOver(t, S) && |S| >= 4 * threshold + 3 && threshold > 1
    ensures t.Node?
    ensures var s := State(t, None, false, [], Waiting);
            Initial(s, S) && Reaches(s, RevivingSteps(b, p), s', threshold)
    ensures OpsLive(S, [DeleteBox(b), AddPoint(p)]) == multiset{p} && Live(s'.tree) != multiset{p}
  {
    BuiltHolds(t, S);
    OpenHolds(t, S);
    OpenBuilt(t, S);
    CountedSize(t);
    BuiltLeftLeft(t, threshold);
    UsableFlags(t);
    var r := t.d.range;
    b, p := Box(r.lo, Point(r.hi.x + 1, r.hi.y + 1, r.hi.z + 1)), t.d.point;
    var snapshot := Listing(Live(t.left.left));
    s' := UpdateRevives(State(t, None, false, [], Waiting), b, p, snapshot, t.left.left, threshold);
  }

  lemma {:induction false} BuiltLeftLeft(t: Tree, threshold: nat)
    requires WellBuilt(t) && t.Node? && Size(t) >= 4 * threshold + 3 && threshold > 0
    ensures t.left.Node? && t.left.left.Node? && Size(t.left.left) >= threshold && !Dead(t.left.left) && !Dead(t)
    ensures BuiltOver(t.left.left, Live(t.left.left))
  {
    BuiltSize(t.left);
    OpenSplitWell(t.d, t.left, t.right);
    OpenSplitWell(t.left.d, t.left.left, t.left.right);
    WellBuiltMeaning(t.left.left);
  }

  // ---- A designated subtree with an overstated size ----

  /** TreeSize as the updates of an insertion compute it, from the sizes beside its path. */
  function Recounted(t: Tree, p: Point): int {
    if t.Nil? then 1
    else 1 + if GoesLeft(t.d, p) then Recounted(t.left, p) + Size(t.right) else Size(t.left) + Recounted(t.right, p)
  }

  lemma {:induction false} RecountedPushed(d: Data, t: Tree, p: Point)
    ensures Recounted(Pushed(d, t), p) == Recounted(t, p)
  {
  }

  lemma {:induction false} RecountedSize(t: Tree, p: Point, fatherAxis: Axis)
    ensures Size(Add(t, p, fatherAxis)) == Recounted(t, p)
    decreases Nodes(t)
  {
    if t.Node? {
      EffSons(t);
      RecountedPushed(t.d, t.left, p);
      RecountedPushed(t.d, t.right, p);
      RecountedSize(if GoesLeft(t.d, p) then EffLeft(t) else EffRight(t), p, t.d.axis);
    }
  }

  /** Pushes, and then the insertion. */
  predicate EndsInInsertion(ops: seq<Operation>, p: Point) {
    ops != [] && ops[|ops| - 1] == AddPoint(p) && forall i :: 0 <= i < |ops| - 1 ==> ops[i].PushDownFlags?
  }

  lemma {:induction false} RunSize(t: Tree, ops: seq<Operation>, p: Point)
    requires t.Node? && EndsInInsertion(ops, p)
    ensures Size(RunAll(t, ops)) == Recounted(t, p)
    decreases |ops|
  {
    var u := RunOperation(t, ops[0]);
    if |ops| == 1 {
      assert ops[1..] == [];
      RecountedSize(t, p, t.d.axis);
    } else {
      PushDownFlagsIsPush(t, ops[0].treeDeleted, ops[0].treeDownDeleted);
      RecountedPushed(t.d.(treeDeleted := ops[0].treeDeleted, treeDownDeleted := ops[0].treeDownDeleted), t, p);
      RunSize(u, ops[1..], p);
    }
  }

  /** An insertion that gets to the designated subtree withdraws Rebuild_Ptr if and only if it counts too few nodes. */
  lemma {:induction false} WithdrawnExactly(s: State, p: Point, s': State, threshold: nat)
    requires Next(s, Edit(AddPoint(p)), s', threshold) && PointsInto(s)
    requires AddPoint(p) in Reaching(s, Edit(AddPoint(p)))
    ensures s'.phase == s.phase && (s'.pointer.None? <==> Recounted(Visible(s), p) < threshold)
  {
    WalkAt(s.tree, s.pointer.value, AddPoint(p));
    WalkOnePush(s.tree, s.pointer.value, AddPoint(p));
    RunSize(Visible(s), Reaching(s, Edit(AddPoint(p))), p);
  }

  /** The steps of the run below. */
  function WithdrawingSteps(w: Way, top: Way, p: Point): seq<Step> {
    [Register(w), Snapshot] + [Build, Swap] + [Register(top), Snapshot] + [Edit(AddPoint(p))]
  }

  /**
    A background rebuild of one subtree leaves the sizes above it overstated. By such a size a larger subtree
    is designated; while it is being rebuilt an insertion counts its nodes, finds too few, and withdraws
    Rebuild_Ptr.
   */
  lemma {:induction false} StaleWithdrawal(s: State, w: Way, first: seq<Point>, rebuilt: Tree, top: Way,
                                           second: seq<Point>,
                                           p: Point, threshold: nat)
    returns (s': State)
    requires Idle(s) && Leads(s.tree, w) && Size(At(s.tree, w)) >= threshold
    requires multiset(first) == Live(At(s.tree, w)) && first != [] && BuiltOver(rebuilt, multiset(first))
             && rebuilt.Node?
    requires var u := Plug(s.tree, w, rebuilt);
             && Leads(u, top) && Size(At(u, top)) >= threshold && multiset(second) == Live(At(u, top))
             && AddPoint(p) in WalkOps(u, top, AddPoint(p)) && Recounted(At(u, top), p) < threshold
    ensures Reaches(s, WithdrawingSteps(w, top, p), s', threshold) && s'.pointer.None? && s'.phase.Building?
  {
    var a := Snapped(s, w, first);
    var b := State(Plug(s.tree, w, rebuilt), None, false, [], Waiting);
    var c := Snapped(b, top, second);
    var e := AddPoint(p);
    s' := Logged(c, RunOperation(c.tree, e), Reaching(c, Edit(e)), threshold);
    SnapRun(s, w, first, threshold);
    SwapRun(a, w, first, rebuilt, threshold);
    SnapRun(b, top, second, threshold);
    WithdrawnExactly(c, p, s', threshold);
    ReachBoth(s, [Register(w), Snapshot], a, [Build, Swap], b, threshold);
    ReachBoth(s, [Register(w), Snapshot] + [Build, Swap], b, [Register(top), Snapshot], c, threshold);
    ReachOn(s, [Register(w), Snapshot] + [Build, Swap] + [Register(top), Snapshot], c, Edit(e), s', threshold);
  }

  // ---- A map that gets there ----

  /** Points each of which goes left of all before it. */
  function Falling(i: int): Point {
    Point(-i, -i, -i)
  }

  /** A map built over the first of them, and the others inserted one after another. */
  function ChainTree(n: nat): (t: Tree)
    ensures t.Node?
  {
    if n == 0 then Update(Node(FreshData(Falling(0), 0), Nil, Nil))
    else
      OperationNodes(ChainTree(n - 1), AddPoint(Falling(n)));
      RunOperation(ChainTree(n - 1), AddPoint(Falling(n)))
  }

  function Insertions(n: nat): seq<Step> {
    if n == 0 then [] else Insertions(n - 1) + [Edit(AddPoint(Falling(n)))]
  }

  function Quiet(t: Tree): State {
    State(t, None, false, [], Waiting)
  }

  lemma {:induction false} ChainRun(n: nat, threshold: nat)
    ensures Reaches(Quiet(ChainTree(0)), Insertions(n), Quiet(ChainTree(n)), threshold)
  {
    if n > 0 {
      ChainRun(n - 1, threshold);
      ReachOn(Quiet(ChainTree(0)), Insertions(n - 1), Quiet(ChainTree(n - 1)), Edit(AddPoint(Falling(n))),
          Quiet(ChainTree(n)), threshold);
    }
  }

  lemma {:induction false} OneBuilt(p: Point)
    ensures var t := Update(Node(FreshData(p, 0), Nil, Nil)); BuiltOver(t, multiset{p}) && t.Node? && Size(t) == 1
  {
    TightPoint(p);
    BuiltNothing();
    assert multiset{} + multiset{p} + multiset{} == multiset{p};
    BuiltOverNode(Nil, Nil, multiset{}, p, multiset{}, 0, Range(p, p));
  }

  /** Nodes for the points `k` to `k + n - 1`, each the left son of the one before it, nothing deleted or pending. */
  predicate LeftChain(t: Tree, k: nat, n: nat)
    decreases n
  {
    if n == 0 then t.Nil?
    else
      && t.Node? && t.d.point == Falling(k) && t.right.Nil? && !t.d.needLeft && !t.d.needRight && !t.d.pointDeleted
      && t.d.size == n && LeftChain(t.left, k + 1, n - 1)
  }

  lemma {:induction false} ChainGrows(t: Tree, k: nat, n: nat, fatherAxis: Axis)
    requires LeftChain(t, k, n)
    ensures LeftChain(Add(t, Falling(k + n), fatherAxis), k, n + 1)
    decreases n
  {
    if n > 0 {
      ChainGrows(t.left, k + 1, n - 1, t.d.axis);
    }
  }

  lemma {:induction false} ChainTreeIsChain(n: nat)
    ensures LeftChain(ChainTree(n), 0, n + 1) && Usable(ChainTree(n))
  {
    if n == 0 {
      ChainStarts();
    } else {
      ChainTreeIsChain(n - 1);
      ChainInserted(ChainTree(n - 1), n);
    }
  }

  lemma {:induction false} ChainStarts()
    ensures var t := Update(Node(FreshData(Falling(0), 0), Nil, Nil)); LeftChain(t, 0, 1) && Usable(t)
  {
    var t := Update(Node(FreshData(Falling(0), 0), Nil, Nil));
    OneBuilt(Falling(0));
    OpenBuilt(t, multiset{Falling(0)});
    WellBuiltUsable(t);
  }

  lemma {:induction false} ChainInserted(t: Tree, n: nat)
    requires t.Node? && LeftChain(t, 0, n) && Usable(t)
    ensures var u := RunOperation(t, AddPoint(Falling(n))); LeftChain(u, 0, n + 1) && Usable(u)
  {
    ChainGrows(t, 0, n, t.d.axis);
    AddKeepsUsable(t, Falling(n), t.d.axis);
  }

  function ChainPoints(k: nat, n: nat): multiset<Point>
    decreases n
  {
    if n == 0 then multiset{} else multiset{Falling(k)} + ChainPoints(k + 1, n - 1)
  }

  lemma {:induction false} ChainFacts(t: Tree, k: nat, n: nat)
    requires LeftChain(t, k, n)
    ensures Live(t) == ChainPoints(k, n) && Counted(t) && Nodes(t) == n
    decreases n
  {
    if n > 0 {
      ChainFacts(t.left, k + 1, n - 1);
      assert Live(t.right) == multiset{};
    }
  }

  lemma {:induction false} ChainRange(k: nat, n: nat, p: Point)
    ensures p in ChainPoints(k, n) <==> exists i :: k <= i < k + n && p == Falling(i)
    decreases n
  {
    if n > 0 {
      ChainRange(k + 1, n - 1, p);
      if i :| k <= i < k + n && p == Falling(i) {
        assert i == k || k + 1 <= i < k + n;
      }
    }
  }

  /** A box with some points of a subtree inside and some outside cuts it. */
  lemma {:induction false} CutsBetween(t: Tree, b: Box, inside: Point, outside: Point)
    requires Usable(t) && inside in Live(t) && outside in Live(t) && Inside(b, inside) && !Inside(b, outside)
    ensures Cuts(t, b)
  {
    UsableFlags(t);
    BoxAndRange(t.d.range, Live(t), b);
    assert Outside(Live(t), b)[inside] == 0 && Outside(Live(t), b)[outside] > 0;
  }

  lemma {:induction false} CutSons(t: Tree, b: Box)
    requires Cuts(t, b) && !t.d.needLeft && !t.d.needRight
    ensures var u := Delete(t, b, false).0;
            && u.Node? && u.d.point == t.d.point && u.d.axis == t.d.axis
            && u.left == Delete(t.left, b, false).0 && u.right == Delete(t.right, b, false).0
  {
    CutIsInside(t, b, false);
  }

  /** The box around the points 3 to 6. */
  function DeepBox(): Box {
    Box(Falling(6), Falling(2))
  }

  /** Of the points 2 to 6 only the first one is outside. */
  lemma {:induction false} DeepDelete()
    ensures Outside(ChainPoints(2, 5), DeepBox()) == multiset{Falling(2)}
  {
    forall p ensures Outside(ChainPoints(2, 5), DeepBox())[p] == multiset{Falling(2)}[p] {
      ChainRange(3, 4, p);
      assert ChainPoints(2, 5) == multiset{Falling(2)} + ChainPoints(3, 4);
    }
  }

  /** Seven points in a chain, the four deepest deleted. */
  lemma {:induction false} ChainDeleted(n: nat) returns (u: Tree)
    requires n == 6
    ensures u == Delete(ChainTree(n), DeepBox(), false).0
    ensures u.Node? && u.d.point == Falling(0) && u.right.Nil? && Size(u) == 7
    ensures u.left.Node? && u.left.d.point == Falling(1) && u.left.right.Nil?
    ensures u.left.left.Node? && Size(u.left.left) == 5 && Live(u.left.left) == multiset{Falling(2)}
  {
    ChainTreeIsChain(n);
    u := SevenDeleted(ChainTree(n));
  }

  lemma {:induction false} SevenDeleted(t: Tree) returns (u: Tree)
    requires LeftChain(t, 0, 7) && Usable(t)
    ensures u == Delete(t, DeepBox(), false).0
    ensures u.Node? && u.d.point == Falling(0) && u.right.Nil? && Size(u) == 7
    ensures u.left.Node? && u.left.d.point == Falling(1) && u.left.right.Nil?
    ensures u.left.left.Node? && Size(u.left.left) == 5 && Live(u.left.left) == multiset{Falling(2)}
  {
    u := Delete(t, DeepBox(), false).0;
    ChainCut(t, 0, 7);
    DeletedSize(t, 0, 7);
    ChainBelow(t, 0, 7);
    ChainCut(t.left, 1, 6);
    ChainBelow(t.left, 1, 6);
    DeepDeleted(t.left.left);
  }

  lemma {:induction false} ChainBelow(t: Tree, k: nat, n: nat)
    requires LeftChain(t, k, n) && Usable(t) && n > 1
    ensures LeftChain(t.left, k + 1, n - 1) && Usable(t.left)
  {
  }

  lemma {:induction false} DeepDeleted(t: Tree)
    requires LeftChain(t, 2, 5) && Usable(t)
    ensures var u := Delete(t, DeepBox(), false).0;
            u.Node? && Size(u) == 5 && Live(u) == multiset{Falling(2)}
  {
    ChainFacts(t, 2, 5);
    DeleteKeepsUsable(t, DeepBox(), false);
    DeleteNodes(t, DeepBox(), false);
    DeepDelete();
    DeletedSize(t, 2, 5);
  }

  lemma {:induction false} ChainCut(t: Tree, k: nat, n: nat)
    requires LeftChain(t, k, n) && Usable(t) && k <= 2 && k + n == 7
    ensures var u := Delete(t, DeepBox(), false).0;
            && u.Node? && u.d.point == Falling(k) && u.right.Nil?
            && u.left == Delete(t.left, DeepBox(), false).0
  {
    ChainFacts(t, k, n);
    ChainRange(k, n, Falling(3));
    ChainRange(k, n, Falling(k));
    CutsBetween(t, DeepBox(), Falling(3), Falling(k));
    CutSons(t, DeepBox());
  }

  lemma {:induction false} DeletedSize(t: Tree, k: nat, n: nat)
    requires LeftChain(t, k, n)
    ensures Size(Delete(t, DeepBox(), false).0) == n
  {
    ChainFacts(t, k, n);
    DeleteNodes(t, DeepBox(), false);
    DeleteCounted(t, DeepBox(), false);
    CountedSize(Delete(t, DeepBox(), false).0);
  }

  /**
    From a map built over one point, six insertions and a box delete lead to a map with which that happens,
    for a threshold of five: four nodes of the left-left subtree are dead; after the swap the sizes of the
    root and of its left son agree with each other and overstate, and the insertion counts four nodes.
   */
  lemma {:induction false} StaleWithdrawalSomewhere() returns (s: State, n: nat, steps: seq<Step>, s': State)
    ensures Initial(s, multiset{Falling(0)}) && BuiltOver(s.tree, multiset{Falling(0)})
    ensures Reaches(s, Insertions(n) + [Edit(DeleteBox(DeepBox()))] + steps, s', 5)
    ensures steps == WithdrawingSteps(ToLeft(ToLeft(Here)), Here, Falling(1))
    ensures s'.pointer.None? && s'.phase.Building?
  {
    n := 6;
    s := Quiet(Update(Node(FreshData(Falling(0), 0), Nil, Nil)));
    OneBuilt(Falling(0));
    BuiltHolds(s.tree, multiset{Falling(0)});
    steps, s' := WithdrawnAfter(n, s);
  }

  lemma {:induction false} WithdrawnAfter(n: nat, s: State) returns (steps: seq<Step>, s': State)
    requires n == 6 && s == Quiet(Update(Node(FreshData(Falling(0), 0), Nil, Nil)))
    ensures Reaches(s, Insertions(n) + [Edit(DeleteBox(DeepBox()))] + steps, s', 5)
    ensures steps == WithdrawingSteps(ToLeft(ToLeft(Here)), Here, Falling(1))
    ensures s'.pointer.None? && s'.phase.Building?
  {
    var before := Insertions(n) + [Edit(DeleteBox(DeepBox()))];
    var u := ChainDeleted(n);
    ChainDeletedRun(n, s, u);
    steps, s' := WithdrawnFrom(u);
    ReachBoth(s, before, Quiet(u), steps, s', 5);
  }

  lemma {:induction false} ChainDeletedRun(n: nat, s: State, u: Tree)
    requires s == Quiet(Update(Node(FreshData(Falling(0), 0), Nil, Nil)))
    requires u == Delete(ChainTree(n), DeepBox(), false).0
    ensures Reaches(s, Insertions(n) + [Edit(DeleteBox(DeepBox()))], Quiet(u), 5)
  {
    var m := Quiet(ChainTree(n));
    ChainRun(n, 5);
    assert Next(m, Edit(DeleteBox(DeepBox())), Quiet(u), 5);
    ReachOn(s, Insertions(n), m, Edit(DeleteBox(DeepBox())), Quiet(u), 5);
  }

  lemma {:induction false} WithdrawnFrom(u: Tree) returns (steps: seq<Step>, s': State)
    requires u.Node? && u.d.point == Falling(0) && u.right.Nil? && Size(u) == 7
    requires u.left.Node? && u.left.d.point == Falling(1) && u.left.right.Nil?
    requires u.left.left.Node? && Size(u.left.left) == 5 && Live(u.left.left) == multiset{Falling(2)}
    ensures steps == WithdrawingSteps(ToLeft(ToLeft(Here)), Here, Falling(1))
    ensures Reaches(Quiet(u), steps, s', 5) && s'.pointer.None? && s'.phase.Building?
  {
    var w, p := ToLeft(ToLeft(Here)), Falling(1);
    var rebuilt := Update(Node(FreshData(Falling(2), 0), Nil, Nil));
    var swapped := Plug(u, w, rebuilt);
    steps := WithdrawingSteps(w, Here, p);
    OneBuilt(Falling(2));
    PlugBelowSon(u, rebuilt);
    PlugBesideLeft(u, rebuilt);
    OverstatedRecount(swapped);
    var second := Listing(Live(swapped));
    assert multiset([Falling(2)]) == multiset{Falling(2)};
    s' := StaleWithdrawal(Quiet(u), w, [Falling(2)], rebuilt, Here, second, p, 5);
  }

  lemma {:induction false} PlugBesideLeft(a: Tree, rebuilt: Tree)
    requires a.Node? && a.left.Node? && a.left.left.Node? && Leads(a, ToLeft(ToLeft(Here)))
    ensures var s := Plug(a, ToLeft(ToLeft(Here)), rebuilt);
            s.Node? && s.right == a.right && s.left.Node? && s.left.right == a.left.right
  {
    assert Plug(a.left, ToLeft(Here), rebuilt).right == a.left.right;
  }

  lemma {:induction false} OverstatedRecount(t: Tree)
    requires t.Node? && t.d.point == Falling(0) && t.left.Node? && t.left.d.point == Falling(1)
    requires Size(t.left.left) == 1 && t.left.right.Nil? && t.right.Nil?
    ensures Recounted(t, Falling(1)) == 4 && AddPoint(Falling(1)) in WalkOps(t, Here, AddPoint(Falling(1)))
  {
    assert Recounted(t.left, Falling(1)) == 1 + Size(t.left.left) + Recounted(t.left.right, Falling(1));
  }
}
