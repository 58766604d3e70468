/** The operations the main thread logs for the rebuild thread, and what replaying them does to a tree. */
module Operations {
  import opened Geometry
  import opened TreeModel
  import opened TreeOps
  import opened StaleTrees
  import opened TreeBuilder
  import opened Folding

  datatype Operation =
    | AddPoint(p: Point)
    | DeleteBox(b: Box)
    | DownsampleDelete(b: Box)
    | PushDownFlags(treeDeleted: bool, treeDownDeleted: bool)

  /** run_operation on the root of a tree. */
  function RunOperation(t: Tree, op: Operation): Tree
    requires t.Node?
  {
    match op
    case AddPoint(p) => Add(t, p, t.d.axis)
    case DeleteBox(b) => Delete(t, b, false).0
    case DownsampleDelete(b) => Delete(t, b, true).0
    case PushDownFlags(del, down) =>
      var d := t.d;
      var treeDown := d.treeDownDeleted || down;
      var pointDown := d.pointDownDeleted || down;
      var treeDel := del || treeDown;
      var downDel := if down then d.size else d.downDel;
      t.(d := d.(treeDownDeleted := treeDown,
                 pointDownDeleted := pointDown,
                 treeDeleted := treeDel,
                 pointDeleted := treeDel || pointDown,
                 downDel := downDel,
                 invalid := if del then d.size else downDel,
                 needLeft := true,
                 needRight := true))
  }

  function RunAll(t: Tree, ops: seq<Operation>): Tree
    decreases ops
  {
    if ops == [] || t.Nil? then t else RunAll(RunOperation(t, ops[0]), ops[1..])
  }

  /** What an operation does to the points a subtree stands for. */
  ghost function OpLive(S: multiset<Point>, op: Operation): multiset<Point> {
    match op
    case AddPoint(p) => S + multiset{p}
    case DeleteBox(b) => Outside(S, b)
    case DownsampleDelete(b) => Outside(S, b)
    case PushDownFlags(del, _) => if del then multiset{} else S
  }

  ghost function OpsLive(S: multiset<Point>, ops: seq<Operation>): multiset<Point>
    decreases ops
  {
    if ops == [] then S else OpsLive(OpLive(S, ops[0]), ops[1..])
  }

  /** The number of nodes the operations add. */
  function Adds(ops: seq<Operation>): nat
    decreases ops
  {
    if ops == [] then 0 else One(ops[0].AddPoint?) + Adds(ops[1..])
  }

  /** The points the operations store. */
  function NewPoints(ops: seq<Operation>): set<Point>
    decreases ops
  {
    if ops == [] then {} else (if ops[0].AddPoint? then {ops[0].p} else {}) + NewPoints(ops[1..])
  }

  /** A push that may be replayed later carries a whole-subtree delete. */
  predicate Replayable(op: Operation) {
    op.PushDownFlags? ==> op.treeDeleted
  }

  predicate AllReplayable(ops: seq<Operation>) {
    forall i :: 0 <= i < |ops| ==> Replayable(ops[i])
  }

  /** The pushes Push_Down really performs: whole-subtree deletes, and leftovers onto a lone live node. */
  predicate Performed(t: Tree, op: Operation) {
    Replayable(op) || (LoneLive(t) && !op.treeDownDeleted)
  }

  predicate AllPerformed(t: Tree, ops: seq<Operation>)
    decreases ops
  {
    ops == [] || (t.Node? && Performed(t, ops[0]) && AllPerformed(RunOperation(t, ops[0]), ops[1..]))
  }

  /** A present, usable subtree in k-d order whose live points are `S`. */
  ghost predicate Holds(t: Tree, S: multiset<Point>) {
    t.Node? && forall k :: Open(k) ==> Usable(t) && Ordered(t) && Live(t) == S
  }

  lemma {:induction false} OpenHolds(t: Tree, S: multiset<Point>)
    requires Holds(t, S)
    ensures Usable(t) && Ordered(t) && Live(t) == S
  {
    assert Open(0);
  }

  // ---- Operations act on trees as they act on the points ----

  lemma {:induction false} PushDownFlagsIsPush(t: Tree, del: bool, down: bool)
    requires t.Node?
    ensures RunOperation(t, PushDownFlags(del, down))
         == Pushed(t.d.(treeDeleted := del, treeDownDeleted := down), t)
  {
  }

  lemma {:induction false} RunAddMeaning(t: Tree, p: Point, S: multiset<Point>)
    requires Holds(t, S)
    ensures Holds(RunOperation(t, AddPoint(p)), S + multiset{p})
  {
    OpenHolds(t, S);
    AddKeepsUsable(t, p, t.d.axis);
    AddKeepsOrder(t, p, t.d.axis);
  }

  lemma {:induction false} RunDeleteMeaning(t: Tree, b: Box, down: bool, S: multiset<Point>)
    requires Holds(t, S)
    ensures Holds(Delete(t, b, down).0, Outside(S, b))
  {
    OpenHolds(t, S);
    DeleteKeepsUsable(t, b, down);
    DeleteKeepsOrder(t, b, down);
    DeleteNodes(t, b, down);
  }

  lemma {:induction false} PushedOrdered(p: Data, t: Tree)
    requires Ordered(t)
    ensures Ordered(Pushed(p, t))
  {
  }

  lemma {:induction false} RunPushMeaning(t: Tree, del: bool, down: bool, S: multiset<Point>)
    requires Holds(t, S) && Performed(t, PushDownFlags(del, down))
    ensures Holds(RunOperation(t, PushDownFlags(del, down)), if del then multiset{} else S)
  {
    OpenHolds(t, S);
    var p := t.d.(treeDeleted := del, treeDownDeleted := down);
    PushDownFlagsIsPush(t, del, down);
    PushedOrdered(p, t);
    if del {
      PushKeepsUsable(p, t);
      PushKills(p, t);
    } else {
      LonePushKeepsUsable(p, t);
      LoneLiveMeaning(t, p);
    }
  }

  /** Running an operation on a tree does to its live points what the operation stands for. */
  lemma {:induction false} OperationMeaning(t: Tree, op: Operation, S: multiset<Point>)
    requires Holds(t, S) && Performed(t, op)
    ensures Holds(RunOperation(t, op), OpLive(S, op))
  {
    match op
    case AddPoint(p) => RunAddMeaning(t, p, S);
    case DeleteBox(b) => RunDeleteMeaning(t, b, false, S);
    case DownsampleDelete(b) => RunDeleteMeaning(t, b, true, S);
    case PushDownFlags(del, down) => RunPushMeaning(t, del, down, S);
  }

  lemma {:induction false} OperationNodes(t: Tree, op: Operation)
    requires t.Node?
    ensures RunOperation(t, op).Node? && Nodes(RunOperation(t, op)) == Nodes(t) + One(op.AddPoint?)
  {
    match op
    case AddPoint(p) => AddNodes(t, p, t.d.axis);
    case DeleteBox(b) => DeleteNodes(t, b, false);
    case DownsampleDelete(b) => DeleteNodes(t, b, true);
    case PushDownFlags(del, down) =>
  }

  lemma {:induction false} RunAllMeaning(t: Tree, ops: seq<Operation>, S: multiset<Point>)
    requires Holds(t, S) && AllPerformed(t, ops)
    ensures Holds(RunAll(t, ops), OpsLive(S, ops))
    decreases ops
  {
    if ops != [] {
      OperationMeaning(t, ops[0], S);
      RunAllMeaning(RunOperation(t, ops[0]), ops[1..], OpLive(S, ops[0]));
    }
  }

  lemma {:induction false} RunAllNodes(t: Tree, ops: seq<Operation>)
    requires t.Node?
    ensures RunAll(t, ops).Node? && Nodes(RunAll(t, ops)) == Nodes(t) + Adds(ops)
    decreases ops
  {
    if ops != [] {
      OperationNodes(t, ops[0]);
      RunAllNodes(RunOperation(t, ops[0]), ops[1..]);
    }
  }

  lemma {:induction false} OperationStored(t: Tree, op: Operation)
    requires t.Node?
    ensures Stored(RunOperation(t, op)) == Stored(t) + if op.AddPoint? then {op.p} else {}
  {
    match op
    case AddPoint(p) => AddStored(t, p, t.d.axis);
    case DeleteBox(b) => DeleteStored(t, b, false);
    case DownsampleDelete(b) => DeleteStored(t, b, true);
    case PushDownFlags(del, down) =>
  }

  lemma {:induction false} RunAllStored(t: Tree, ops: seq<Operation>)
    requires t.Node?
    ensures Stored(RunAll(t, ops)) == Stored(t) + NewPoints(ops)
    decreases ops
  {
    if ops != [] {
      OperationNodes(t, ops[0]);
      OperationStored(t, ops[0]);
      RunAllStored(RunOperation(t, ops[0]), ops[1..]);
    }
  }

  lemma {:induction false} NewPointsConcat(a: seq<Operation>, b: seq<Operation>)
    ensures NewPoints(a + b) == NewPoints(a) + NewPoints(b)
    decreases a
  {
    if a == [] {
      assert a + b == b;
    } else {
      assert (a + b)[0] == a[0] && (a + b)[1..] == a[1..] + b;
      NewPointsConcat(a[1..], b);
    }
  }

  lemma {:induction false} RunAllConcat(t: Tree, a: seq<Operation>, b: seq<Operation>)
    requires t.Node?
    ensures RunAll(t, a + b) == RunAll(RunAll(t, a), b)
    ensures AllPerformed(t, a) && AllPerformed(RunAll(t, a), b) ==> AllPerformed(t, a + b)
    decreases a
  {
    if a == [] {
      assert a + b == b;
    } else {
      assert (a + b)[0] == a[0] && (a + b)[1..] == a[1..] + b;
      OperationNodes(t, a[0]);
      RunAllConcat(RunOperation(t, a[0]), a[1..], b);
    }
  }

  lemma {:induction false} OpsLiveConcat(S: multiset<Point>, a: seq<Operation>, b: seq<Operation>)
    ensures OpsLive(S, a + b) == OpsLive(OpsLive(S, a), b)
    ensures Adds(a + b) == Adds(a) + Adds(b)
    decreases a
  {
    if a == [] {
      assert a + b == b;
    } else {
      assert (a + b)[0] == a[0] && (a + b)[1..] == a[1..] + b;
      OpsLiveConcat(OpLive(S, a[0]), a[1..], b);
    }
  }

  // ---- Exact sizes ----

  /** TreeSize counts the nodes, in the whole subtree. */
  predicate Counted(t: Tree) {
    t.Node? ==> t.d.size == 1 + Size(t.left) + Size(t.right) && Counted(t.left) && Counted(t.right)
  }

  lemma {:induction false} CountedSize(t: Tree)
    requires Counted(t)
    ensures Size(t) == Nodes(t)
  {
    if t.Node? {
      CountedSize(t.left);
      CountedSize(t.right);
    }
  }

  lemma {:induction false} AddCounted(t: Tree, p: Point, fatherAxis: Axis)
    requires Counted(t)
    ensures Counted(Add(t, p, fatherAxis))
    decreases Nodes(t)
  {
    if t.Node? {
      AddCounted(if GoesLeft(t.d, p) then EffLeft(t) else EffRight(t), p, t.d.axis);
    }
  }

  lemma {:induction false} UpdateCounted(d: Data, l: Tree, r: Tree)
    requires Counted(l) && Counted(r)
    ensures Counted(Update(Node(d, l, r)))
  {
  }

  lemma {:induction false} DeleteCounted(t: Tree, b: Box, down: bool)
    requires Counted(t)
    ensures Counted(Delete(t, b, down).0)
    decreases Nodes(t)
  {
    if !Dead(t) && !Misses(b, t.d.range) && !Covers(b, t.d.range) {
      var l, r := Delete(EffLeft(t), b, down).0, Delete(EffRight(t), b, down).0;
      DeleteCounted(EffLeft(t), b, down);
      DeleteCounted(EffRight(t), b, down);
      UpdateCounted(DeleteOwn(PushDown(t).d, b, down), l, r);
    }
  }

  lemma {:induction false} OperationCounted(t: Tree, op: Operation)
    requires t.Node? && Counted(t)
    ensures Counted(RunOperation(t, op))
  {
    match op
    case AddPoint(p) => AddCounted(t, p, t.d.axis);
    case DeleteBox(b) => DeleteCounted(t, b, false);
    case DownsampleDelete(b) => DeleteCounted(t, b, true);
    case PushDownFlags(del, down) =>
  }

  /** A tree built over some points holds them, with exact sizes. */
  lemma {:induction false} BuiltHolds(t: Tree, S: multiset<Point>)
    requires BuiltOver(t, S) && S != multiset{}
    ensures Holds(t, S) && Counted(t) && Nodes(t) == |S|
    ensures forall p :: p in Stored(t) ==> p in S
  {
    OpenBuilt(t, S);
    WellBuiltUsable(t);
    WellBuiltMeaning(t);
    WellBuiltShape(t);
    PointsStored(t);
    BuiltCounted(t);
    CountedSize(t);
  }

  lemma {:induction false} BuiltCounted(t: Tree)
    requires WellBuilt(t)
    ensures Counted(t)
  {
    if t.Node? {
      BuiltCounted(t.left);
      BuiltCounted(t.right);
      OpenSplitWell(t.d, t.left, t.right);
    }
  }

  /** What an operation does to the points recorded as removed, on a tree with exact counters. */
  lemma {:induction false} OperationRecords(t: Tree, op: Operation)
    requires t.Node? && Inv(t)
    ensures var R := Removed(RunOperation(t, op));
            match op
            case AddPoint(_) => R == Removed(t)
            case DeleteBox(b) => R == Removed(t) + Within(Live(t), b)
            case DownsampleDelete(_) => R <= Removed(t)
            case PushDownFlags(del, down) => del ==> R == if down then multiset{} else Removed(t) + Live(t)
  {
    match op
    case AddPoint(p) => AddRecords(t, p, t.d.axis);
    case DeleteBox(b) => DeleteRecords(t, b, false);
    case DownsampleDelete(b) => DeleteRecords(t, b, true);
    case PushDownFlags(del, down) =>
      PushDownFlagsIsPush(t, del, down);
      if del {
        PushRecords(t.d.(treeDeleted := del, treeDownDeleted := down), t);
      }
  }
}
