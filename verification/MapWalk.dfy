/** What a walk over the whole map does to the subtree at one place in it: the operations that reach it. */
module MapWalks {
  import opened Options
  import opened TreeModel
  import opened TreeOps
  import opened StaleTrees
  import opened TreeWays
  import opened Operations
  import opened Geometry

  // ---- The push above the place ----

  /** The push onto a son, if the place is that son. */
  function PushOps(d: Data, pending: bool, rest: Way): seq<Operation> {
    if rest.Here? && pending then [PushDownFlags(d.treeDeleted, d.treeDownDeleted)] else []
  }

  lemma {:induction false} PushedAt(d: Data, pending: bool, son: Tree, rest: Way)
    requires Leads(son, rest)
    ensures var e := if pending then Pushed(d, son) else son;
            Leads(e, rest) && At(e, rest) == RunAll(At(son, rest), PushOps(d, pending, rest))
  {
    var ops := PushOps(d, pending, rest);
    if ops != [] {
      PushDownFlagsIsPush(son, d.treeDeleted, d.treeDownDeleted);
      assert ops[1..] == [];
      assert RunAll(son, ops) == RunAll(RunOperation(son, ops[0]), []);
    }
  }

  lemma {:induction false} PushPerformed(d: Data, pending: bool, son: Tree, rest: Way)
    requires Leads(son, rest) && (pending && !d.treeDeleted ==> LoneLive(son)) && (d.treeDownDeleted ==> d.treeDeleted)
    ensures AllPerformed(At(son, rest), PushOps(d, pending, rest))
  {
    var ops := PushOps(d, pending, rest);
    if ops != [] {
      assert ops[1..] == [];
    }
  }

  // ---- Insertions and box deletes ----

  predicate IsEdit(e: Operation) {
    !e.PushDownFlags?
  }

  /** The walk pushes down at the node and goes on; a delete returns at once from a dead subtree. */
  predicate Enters(t: Tree, e: Operation)
    requires t.Node?
  {
    e.AddPoint? || !t.d.treeDeleted
  }

  /** The walk goes on into the son. */
  predicate Visits(d: Data, e: Operation, left: bool) {
    match e
    case AddPoint(p) => GoesLeft(d, p) == left
    case DeleteBox(b) => !Misses(b, d.range) && !Covers(b, d.range)
    case DownsampleDelete(b) => !Misses(b, d.range) && !Covers(b, d.range)
    case PushDownFlags(_, _) => false
  }

  /** The operations that reach the subtree at the place: a push from its father, and the edit itself. */
  function WalkOps(t: Tree, way: Way, e: Operation): seq<Operation>
    requires Leads(t, way)
    decreases way
  {
    match way
    case Here => [e]
    case ToLeft(rest) =>
      if !Enters(t, e) then []
      else
        PushedAt(t.d, t.d.needLeft, t.left, rest);
        PushOps(t.d, t.d.needLeft, rest) + if Visits(t.d, e, true) then WalkOps(EffLeft(t), rest, e) else []
    case ToRight(rest) =>
      if !Enters(t, e) then []
      else
        PushedAt(t.d, t.d.needRight, t.right, rest);
        PushOps(t.d, t.d.needRight, rest) + if Visits(t.d, e, false) then WalkOps(EffRight(t), rest, e) else []
  }

  lemma {:induction false} AddSons(t: Tree, p: Point)
    requires t.Node?
    ensures var u := RunOperation(t, AddPoint(p));
            && u.Node?
            && (t.left.Node? ==> u.left == if GoesLeft(t.d, p) then RunOperation(EffLeft(t),
                AddPoint(p)) else EffLeft(t))
            && (t.right.Node? ==> u.right == if GoesLeft(t.d, p) then EffRight(t) else RunOperation(EffRight(t),
                AddPoint(p)))
  {
    AnyFatherAxis(EffLeft(t), p, t.d.axis);
    AnyFatherAxis(EffRight(t), p, t.d.axis);
  }

  lemma {:induction false} AnyFatherAxis(t: Tree, p: Point, axis: Axis)
    ensures t.Node? ==> Add(t, p, axis) == RunOperation(t, AddPoint(p))
  {
  }

  lemma {:induction false} DeleteSons(t: Tree, b: Box, down: bool)
    requires t.Node?
    ensures var u := Delete(t, b, down).0; var visits := !Misses(b, t.d.range) && !Covers(b, t.d.range);
            && u.Node?
            && (t.d.treeDeleted ==> u == t)
            && (!t.d.treeDeleted ==> u.left == if visits then Delete(EffLeft(t), b, down).0 else EffLeft(t))
            && (!t.d.treeDeleted ==> u.right == if visits then Delete(EffRight(t), b, down).0 else EffRight(t))
  {
  }

  /** One level of a walk: what becomes of the sons. */
  lemma {:induction false} WalkLevelSons(t: Tree, e: Operation)
    requires t.Node? && IsEdit(e)
    ensures var u := RunOperation(t, e);
            && u.Node?
            && (!Enters(t, e) ==> u == t)
            && (Enters(t, e) && t.left.Node? ==>
                  u.left == if Visits(t.d, e, true) then RunOperation(EffLeft(t), e) else EffLeft(t))
            && (Enters(t, e) && t.right.Node? ==>
                  u.right == if Visits(t.d, e, false) then RunOperation(EffRight(t), e) else EffRight(t))
  {
    match e
    case AddPoint(p) => AddSons(t, p);
    case DeleteBox(b) => DeleteSons(t, b, false);
    case DownsampleDelete(b) => DeleteSons(t, b, true);
  }

  lemma {:induction false} SonWalkOps(t: Tree, way: Way, e: Operation)
    requires Leads(t, way) && !way.Here?
    ensures Enters(t, e) && way.ToLeft? ==>
              && Leads(EffLeft(t), way.rest)
              && WalkOps(t, way, e) == PushOps(t.d, t.d.needLeft, way.rest)
                                       + if Visits(t.d, e, true) then WalkOps(EffLeft(t), way.rest, e) else []
    ensures Enters(t, e) && way.ToRight? ==>
              && Leads(EffRight(t), way.rest)
              && WalkOps(t, way, e) == PushOps(t.d, t.d.needRight, way.rest)
                                       + if Visits(t.d, e, false) then WalkOps(EffRight(t), way.rest, e) else []
  {
    if way.ToLeft? {
      PushedAt(t.d, t.d.needLeft, t.left, way.rest);
    } else {
      PushedAt(t.d, t.d.needRight, t.right, way.rest);
    }
  }

  /** A walk over the whole tree leaves at the place what those operations make of the subtree there. */
  lemma {:induction false} WalkAt(t: Tree, way: Way, e: Operation)
    requires Leads(t, way) && IsEdit(e)
    ensures Leads(RunOperation(t, e), way) && At(RunOperation(t, e), way) == RunAll(At(t, way), WalkOps(t, way, e))
    decreases way, 0
  {
    WalkLevelSons(t, e);
    match way
    case Here =>
      assert [e][1..] == [] && RunAll(t, [e]) == RunAll(RunOperation(t, e), []);
    case ToLeft(rest) =>
      if Enters(t, e) {
        SonWalkOps(t, way, e);
        SonWalkAt(t.d, t.d.needLeft, t.left, EffLeft(t), rest, e, Visits(t.d, e, true));
      }
    case ToRight(rest) =>
      if Enters(t, e) {
        SonWalkOps(t, way, e);
        SonWalkAt(t.d, t.d.needRight, t.right, EffRight(t), rest, e, Visits(t.d, e, false));
      }
  }

  lemma {:induction false} SonWalkAt(d: Data, pending: bool, son: Tree, eff: Tree, rest: Way, e: Operation,
                                     visits: bool)
    requires Leads(son, rest) && IsEdit(e) && eff == (if pending then Pushed(d, son) else son) && Leads(eff, rest)
    ensures var v := if visits then RunOperation(eff, e) else eff;
            && Leads(v, rest)
            && At(v, rest) == RunAll(At(son, rest), PushOps(d, pending, rest) + if visits then WalkOps(eff, rest,
                e) else [])
    decreases rest, 1
  {
    PushedAt(d, pending, son, rest);
    var first := PushOps(d, pending, rest);
    if visits {
      WalkAt(eff, rest, e);
      RunAllConcat(At(son, rest), first, WalkOps(eff, rest, e));
    } else {
      assert first + [] == first;
    }
  }

  /** Those operations are performed one after another; a push that is no delete reaches a lone live node only. */
  lemma {:induction false} WalkPerformed(t: Tree, way: Way, e: Operation)
    requires Leads(t, way) && IsEdit(e) && Usable(t)
    ensures AllPerformed(At(t, way), WalkOps(t, way, e))
    decreases way, 0
  {
    match way
    case Here =>
      assert [e][1..] == [];
    case ToLeft(rest) =>
      if Enters(t, e) {
        SonWalkOps(t, way, e);
        SonsUsable(t);
        SonPerformed(t.d, t.d.needLeft, t.left, EffLeft(t), rest, e, Visits(t.d, e, true));
      }
    case ToRight(rest) =>
      if Enters(t, e) {
        SonWalkOps(t, way, e);
        SonsUsable(t);
        SonPerformed(t.d, t.d.needRight, t.right, EffRight(t), rest, e, Visits(t.d, e, false));
      }
  }

  lemma {:induction false} SonPerformed(d: Data, pending: bool, son: Tree, eff: Tree, rest: Way, e: Operation,
                                        visits: bool)
    requires Leads(son, rest) && IsEdit(e) && eff == (if pending then Pushed(d, son) else son) && Leads(eff, rest)
    requires Usable(eff) && (pending && !d.treeDeleted ==> LoneLive(son)) && (d.treeDownDeleted ==> d.treeDeleted)
    ensures AllPerformed(At(son, rest), PushOps(d, pending, rest) + if visits then WalkOps(eff, rest, e) else [])
    decreases rest, 1
  {
    PushedAt(d, pending, son, rest);
    PushPerformed(d, pending, son, rest);
    var first := PushOps(d, pending, rest);
    if visits {
      WalkPerformed(eff, rest, e);
      RunAllConcat(At(son, rest), first, WalkOps(eff, rest, e));
    } else {
      assert first + [] == first;
    }
  }

  /** Only the first of the operations can be a push. */
  predicate OnePush(ops: seq<Operation>) {
    forall i :: 1 <= i < |ops| ==> IsEdit(ops[i])
  }

  lemma {:induction false} WalkOnePush(t: Tree, way: Way, e: Operation)
    requires Leads(t, way) && IsEdit(e)
    ensures OnePush(WalkOps(t, way, e)) && (way.Here? ==> WalkOps(t, way, e) == [e])
    ensures var ops := WalkOps(t, way, e); forall i :: 0 <= i < |ops| - 1 ==> ops[i].PushDownFlags?
    decreases way
  {
    if !way.Here? && Enters(t, e) {
      SonWalkOps(t, way, e);
      if way.ToLeft? {
        WalkOnePush(EffLeft(t), way.rest, e);
      } else {
        WalkOnePush(EffRight(t), way.rest, e);
      }
    }
  }

  // ---- Changes at another place ----

  /** What is left of `way` below `top`, if it leads through there. */
  function Below(way: Way, top: Way): Option<Way>
    decreases top
  {
    match top
    case Here => Some(way)
    case ToLeft(rest) => if way.ToLeft? then Below(way.rest, rest) else None
    case ToRight(rest) => if way.ToRight? then Below(way.rest, rest) else None
  }

  /** Replacing a subtree further down is replacing it there. */
  lemma {:induction false} PlugInside(t: Tree, way: Way, top: Way, u: Tree)
    requires Leads(t, way) && Leads(t, top) && Below(way, top).Some? && u.Node?
    ensures var x := Below(way, top).value;
            && Leads(At(t, top), x) && At(At(t, top), x) == At(t, way)
            && Leads(Plug(t, way, u), top) && At(Plug(t, way, u), top) == Plug(At(t, top), x, u)
    decreases top
  {
    match top
    case Here => PlugPresent(t, way, u);
    case ToLeft(rest) =>
      PlugInside(t.left, way.rest, rest, u);
      PlugPresent(t.left, way.rest, u);
    case ToRight(rest) =>
      PlugInside(t.right, way.rest, rest, u);
      PlugPresent(t.right, way.rest, u);
  }

  lemma {:induction false} PlugPresent(t: Tree, way: Way, u: Tree)
    requires Leads(t, way) && u.Node?
    ensures Plug(t, way, u).Node?
  {
  }

  /** Replacing a subtree above. */
  lemma {:induction false} PlugAbove(t: Tree, way: Way, top: Way, u: Tree)
    requires Leads(t, way) && Leads(t, top) && Below(way, top).Some? && Leads(u, Below(way, top).value)
    ensures var x := Below(way, top).value;
            && Leads(At(t, top), x) && At(At(t, top), x) == At(t, way)
            && Leads(Plug(t, top, u), way) && At(Plug(t, top, u), way) == At(u, x)
    decreases top
  {
    match top
    case Here =>
    case ToLeft(rest) => PlugAbove(t.left, way.rest, rest, u);
    case ToRight(rest) => PlugAbove(t.right, way.rest, rest, u);
  }

  /** Replacing a subtree beside the place. */
  lemma {:induction false} PlugBeside(t: Tree, way: Way, other: Way, u: Tree)
    requires Leads(t, way) && Leads(t, other) && Below(way, other).None? && Below(other, way).None?
    ensures Leads(Plug(t, other, u), way) && At(Plug(t, other, u), way) == At(t, way)
    decreases way
  {
    match way
    case Here =>
    case ToLeft(rest) =>
      if other.ToLeft? {
        PlugBeside(t.left, rest, other.rest, u);
      }
    case ToRight(rest) =>
      if other.ToRight? {
        PlugBeside(t.right, rest, other.rest, u);
      }
  }

  /** TreeSize grows on the way up. */
  lemma {:induction false} AboveIsLarger(t: Tree, way: Way)
    requires Usable(t) && Leads(t, way)
    ensures Usable(At(t, way)) && Size(At(t, way)) <= Size(t)
    decreases way
  {
    match way
    case Here =>
    case ToLeft(rest) =>
      AboveIsLarger(t.left, rest);
      SizeCovers(t.right);
      EffSons(t);
    case ToRight(rest) =>
      AboveIsLarger(t.right, rest);
      SizeCovers(t.left);
      EffSons(t);
  }

  // ---- A single Push_Down somewhere in the map ----

  /** The operations a Push_Down at `w` performs on the subtree at `way`, which is not above `w`. */
  function PushAtOps(t: Tree, w: Way, way: Way): seq<Operation>
    requires Leads(t, w)
  {
    match Below(way, w)
    case Some(ToLeft(rest)) => PushOps(At(t, w).d, At(t, w).d.needLeft, rest)
    case Some(ToRight(rest)) => PushOps(At(t, w).d, At(t, w).d.needRight, rest)
    case _ => []
  }

  lemma {:induction false} PushDownAt(n: Tree, x: Way)
    requires Leads(n, x) && !x.Here?
    ensures Leads(PushDown(n), x)
    ensures At(PushDown(n), x) == RunAll(At(n, x), PushAtOps(n, Here, x))
    ensures Usable(n) ==> AllPerformed(At(n, x), PushAtOps(n, Here, x))
  {
    match x
    case ToLeft(rest) =>
      PushedAt(n.d, n.d.needLeft, n.left, rest);
      if Usable(n) {
        PushPerformed(n.d, n.d.needLeft, n.left, rest);
      }
    case ToRight(rest) =>
      PushedAt(n.d, n.d.needRight, n.right, rest);
      if Usable(n) {
        PushPerformed(n.d, n.d.needRight, n.right, rest);
      }
  }

  lemma {:induction false} PushAt(t: Tree, w: Way, way: Way)
    requires Usable(t) && Leads(t, w) && Leads(t, way) && Below(w, way).None?
    ensures var u := Plug(t, w, PushDown(At(t, w)));
            && Leads(u, way) && At(u, way) == RunAll(At(t, way), PushAtOps(t, w, way))
            && AllPerformed(At(t, way), PushAtOps(t, w, way))
  {
    var n := At(t, w);
    AboveIsLarger(t, w);
    match Below(way, w)
    case None => PlugBeside(t, way, w, PushDown(n));
    case Some(x) =>
      if x.Here? {
        BelowBoth(way, w);
      }
      LeadsBelow(t, way, w);
      PushDownAt(n, x);
      PlugAbove(t, way, w, PushDown(n));
  }

  /** No push from inside the subtree at the place is a push onto it. */
  lemma {:induction false} NoOpsFromInside(t: Tree, w: Way, way: Way)
    requires Leads(t, w) && Below(w, way).Some?
    ensures PushAtOps(t, w, way) == []
    decreases way
  {
    NotBothBelow(way, w);
  }

  lemma {:induction false} NotBothBelow(way: Way, w: Way)
    requires Below(w, way).Some?
    ensures Below(way, w).None? || Below(way, w) == Some(Here)
    decreases way
  {
    match way
    case Here =>
    case ToLeft(rest) => NotBothBelow(rest, w.rest);
    case ToRight(rest) => NotBothBelow(rest, w.rest);
  }

  lemma {:induction false} BelowBoth(way: Way, w: Way)
    requires Below(way, w) == Some(Here)
    ensures Below(w, way) == Some(Here)
    decreases w
  {
    match w
    case Here =>
    case ToLeft(rest) => BelowBoth(way.rest, rest);
    case ToRight(rest) => BelowBoth(way.rest, rest);
  }

  lemma {:induction false} LeadsBelow(t: Tree, way: Way, top: Way)
    requires Leads(t, way) && Leads(t, top) && Below(way, top).Some?
    ensures Leads(At(t, top), Below(way, top).value) && At(At(t, top), Below(way, top).value) == At(t, way)
    decreases top
  {
    match top
    case Here =>
    case ToLeft(rest) => LeadsBelow(t.left, way.rest, rest);
    case ToRight(rest) => LeadsBelow(t.right, way.rest, rest);
  }
}
