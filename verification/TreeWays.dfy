/** Places inside a tree, and what replacing the subtree at one of them leaves of the whole. */
module TreeWays {
  import opened Geometry
  import opened TreeModel
  import opened StaleTrees

  /** Which son to take at each node on the way down from the root. */
  datatype Way = Here | ToLeft(rest: Way) | ToRight(rest: Way)

  predicate Leads(t: Tree, way: Way) {
    t.Node? && match way
               case Here => true
               case ToLeft(rest) => Leads(t.left, rest)
               case ToRight(rest) => Leads(t.right, rest)
  }

  function At(t: Tree, way: Way): (u: Tree)
    requires Leads(t, way)
    ensures u.Node?
  {
    match way
    case Here => t
    case ToLeft(rest) => At(t.left, rest)
    case ToRight(rest) => At(t.right, rest)
  }

  /** The son pointer at the end of the way replaced; no other field of the tree is touched. */
  function Plug(t: Tree, way: Way, u: Tree): Tree
    requires Leads(t, way)
  {
    match way
    case Here => u
    case ToLeft(rest) => t.(left := Plug(t.left, rest, u))
    case ToRight(rest) => t.(right := Plug(t.right, rest, u))
  }

  // ---- Replacing a subtree in whatever state the main thread has left the nodes above it ----

  /** What holds at every node even in the middle of a walk, before the nodes on its path are updated. */
  predicate Flags(t: Tree) {
    t.Node? ==> PendingOk(t) && (t.d.treeDownDeleted ==> t.d.treeDeleted) && Flags(t.left) && Flags(t.right)
  }

  lemma {:induction false} UsableHasFlags(t: Tree)
    requires Usable(t)
    ensures Flags(t)
  {
    if t.Node? {
      UsableHasFlags(t.left);
      UsableHasFlags(t.right);
    }
  }

  /**
    `u` may take the place of `t`: it stands for the same points, and for a lone live node under a leftover push if `t`
    does.
   */
  ghost predicate StandsFor(u: Tree, t: Tree) {
    u.Node? && t.Node? && Live(u) == Live(t) && (LoneLive(t) ==> LoneLive(u))
  }

  /** The points of a son, with the push pending above it, after its replacement. */
  lemma {:induction false} PlugSon(d: Data, pending: bool, son: Tree, son': Tree)
    requires StandsFor(son', son) && (d.treeDownDeleted ==> d.treeDeleted)
    requires pending && !d.treeDeleted ==> LoneLive(son)
    ensures Live(if pending then Pushed(d, son') else son') == Live(if pending then Pushed(d, son) else son)
  {
    if pending {
      if d.treeDeleted {
        PushKills(d, son);
        PushKills(d, son');
      } else {
        LoneLiveMeaning(son, d);
        LoneLiveMeaning(son', d);
      }
    }
  }

  /**
    Replacing a subtree by one with the same live points leaves the live points of the whole tree unchanged,
    whatever deletes are pending above it, however stale the counters, flags and boxes above it are.
   */
  lemma {:induction false} PlugKeepsLive(t: Tree, way: Way, u: Tree)
    requires Flags(t) && Flags(u) && Leads(t, way) && StandsFor(u, At(t, way))
    ensures Flags(Plug(t, way, u)) && StandsFor(Plug(t, way, u), t)
    decreases way
  {
    match way
    case Here =>
    case ToLeft(rest) =>
      PlugKeepsLive(t.left, rest, u);
      PlugSon(t.d, t.d.needLeft, t.left, Plug(t.left, rest, u));
    case ToRight(rest) =>
      PlugKeepsLive(t.right, rest, u);
      PlugSon(t.d, t.d.needRight, t.right, Plug(t.right, rest, u));
  }

  // ---- Replacing a subtree between two walks ----

  /**
    What a node relies on in a son: the delete flag, the box and number of live points, and a size that has not grown.
   */
  predicate LooksLike(s: Tree, t: Tree) {
    Size(s) <= Size(t) && ValidNum(s) == ValidNum(t) && (Dead(s) <==> Dead(t))
        && (!Dead(t) ==> RangeOf(s) == RangeOf(t))
  }

  lemma {:induction false} SamePointsLookAlike(u: Tree, t: Tree)
    requires Usable(t) && Usable(u) && StandsFor(u, t) && Size(u) <= Size(t)
    ensures LooksLike(u, t)
  {
    UsableFlags(t);
    UsableFlags(u);
    if !Dead(t) {
      TightUnique(t.d.range, u.d.range, Live(t));
    }
  }

  lemma {:induction false} PushedLooksLike(d: Data, pending: bool, son: Tree, son': Tree)
    requires StandsFor(son', son) && LooksLike(son', son) && (d.treeDownDeleted ==> d.treeDeleted)
    requires pending && !d.treeDeleted ==> LoneLive(son)
    ensures LooksLike(if pending then Pushed(d, son') else son', if pending then Pushed(d, son) else son)
  {
  }

  lemma {:induction false} FlagsOfAlike(d: Data, l: Tree, r: Tree, l': Tree, r': Tree)
    requires LocalFlags(d, l, r) && LooksLike(l', l) && LooksLike(r', r)
    ensures LocalFlags(d, l', r')
  {
  }

  /** Replacing a subtree by one with the same live points and no more nodes keeps the whole tree usable. */
  lemma {:induction false} PlugKeepsUsable(t: Tree, way: Way, u: Tree)
    requires Usable(t) && Usable(u) && Leads(t, way) && StandsFor(u, At(t, way)) && Size(u) <= Size(At(t, way))
    ensures Usable(Plug(t, way, u)) && StandsFor(Plug(t, way, u), t) && Size(Plug(t, way, u)) <= Size(t)
    ensures !way.Here? ==> Plug(t, way, u).d == t.d
    decreases way
  {
    UsableHasFlags(t);
    UsableHasFlags(u);
    PlugKeepsLive(t, way, u);
    match way
    case Here =>
    case ToLeft(rest) =>
      var son := Plug(t.left, rest, u);
      PlugKeepsUsable(t.left, rest, u);
      SamePointsLookAlike(son, t.left);
      PushedLooksLike(t.d, t.d.needLeft, t.left, son);
      FlagsOfAlike(t.d, EffLeft(t), EffRight(t), if t.d.needLeft then Pushed(t.d, son) else son, EffRight(t));
    case ToRight(rest) =>
      var son := Plug(t.right, rest, u);
      PlugKeepsUsable(t.right, rest, u);
      SamePointsLookAlike(son, t.right);
      PushedLooksLike(t.d, t.d.needRight, t.right, son);
      FlagsOfAlike(t.d, EffLeft(t), EffRight(t), EffLeft(t), if t.d.needRight then Pushed(t.d, son) else son);
  }

  lemma {:induction false} AtOrdered(t: Tree, way: Way)
    requires Ordered(t) && Leads(t, way)
    ensures Ordered(At(t, way))
  {
    match way
    case Here =>
    case ToLeft(rest) => AtOrdered(t.left, rest);
    case ToRight(rest) => AtOrdered(t.right, rest);
  }

  /** Replacing a subtree by one that stores no other points keeps the k-d order. */
  lemma {:induction false} PlugKeepsOrder(t: Tree, way: Way, u: Tree)
    requires Ordered(t) && Leads(t, way) && Ordered(u) && Stored(u) <= Stored(At(t, way))
    ensures Ordered(Plug(t, way, u)) && Stored(Plug(t, way, u)) <= Stored(t)
  {
    match way
    case Here =>
    case ToLeft(rest) => PlugKeepsOrder(t.left, rest, u);
    case ToRight(rest) => PlugKeepsOrder(t.right, rest, u);
  }

  lemma {:induction false} PlugStored(t: Tree, way: Way, u: Tree)
    requires Leads(t, way) && Stored(u) == Stored(At(t, way))
    ensures Stored(Plug(t, way, u)) == Stored(t)
  {
    match way
    case Here =>
    case ToLeft(rest) => PlugStored(t.left, rest, u);
    case ToRight(rest) => PlugStored(t.right, rest, u);
  }

  lemma {:induction false} PlugNodes(t: Tree, way: Way, u: Tree)
    requires Leads(t, way) && Nodes(u) == Nodes(At(t, way))
    ensures Nodes(Plug(t, way, u)) == Nodes(t)
  {
    match way
    case Here =>
    case ToLeft(rest) => PlugNodes(t.left, rest, u);
    case ToRight(rest) => PlugNodes(t.right, rest, u);
  }

  /** All that is asked of a subtree that takes the place of `t` between two walks. */
  ghost predicate MayReplace(u: Tree, t: Tree) {
    && Usable(u) && StandsFor(u, t) && Size(u) <= Size(t)
    && Ordered(u) && Stored(u) <= Stored(t)
  }

  // ---- Update of a node above a replaced subtree ----

  /** No whole-subtree delete is pending over a son that the son's own flags do not show. */
  predicate Harmless(t: Tree)
    requires t.Node?
  {
    t.d.treeDeleted ==> (t.d.needLeft ==> Dead(t.left)) && (t.d.needRight ==> Dead(t.right))
  }

  /** A push without a delete onto a subtree that is not dead leaves something alive. */
  lemma {:induction false} PushLeavesAlive(p: Data, s: Tree)
    requires Usable(s) && !Dead(s) && !p.treeDeleted && !p.treeDownDeleted
    ensures Live(Pushed(p, s)) != multiset{}
    decreases s
  {
    var u := Pushed(p, s);
    if s.d.pointDownDeleted {
      if !Dead(EffLeft(s)) {
        PushLeavesAlive(u.d, s.left);
        assert Live(EffLeft(u)) <= Live(u);
      } else {
        PushLeavesAlive(u.d, s.right);
        assert Live(EffRight(u)) <= Live(u);
      }
    } else {
      assert s.d.point in Own(u.d);
    }
  }

  lemma {:induction false} UpdateDead(t: Tree)
    requires t.Node? && Usable(t) && Harmless(t) && Dead(t)
    ensures Usable(Update(t)) && Dead(Update(t))
  {
    var u := Update(t);
    assert Dead(t.left) && Dead(t.right) && t.d.pointDeleted;
    assert Dead(EffLeft(u)) && Dead(EffRight(u));
    UsableFlags(t.left);
    UsableFlags(t.right);
  }

  lemma {:induction false} UpdateAlive(t: Tree)
    requires t.Node? && Usable(t) && !Dead(t)
    ensures Usable(Update(t)) && Live(Update(t)) == Live(t)
  {
    UpdateUsable(t);
    SonPoints(t.d, t.d.needLeft, t.left);
    SonPoints(t.d, t.d.needRight, t.right);
  }

  lemma {:induction false} UpdateSummary(t: Tree)
    requires t.Node? && Usable(t)
    ensures Size(Update(t)) <= Size(t) && (LoneLive(t) ==> LoneLive(Update(t)))
  {
    EffSons(t);
  }

  /** Update where no delete is pending over a living son. */
  lemma {:induction false} UpdateHarmless(t: Tree)
    requires t.Node? && Usable(t) && Harmless(t)
    ensures Usable(Update(t)) && StandsFor(Update(t), t) && Size(Update(t)) <= Size(t)
  {
    UpdateSummary(t);
    UsableFlags(t);
    if Dead(t) {
      UpdateDead(t);
      UsableFlags(Update(t));
    } else {
      UpdateAlive(t);
    }
  }

  lemma {:induction false} SonPoints(d: Data, pending: bool, son: Tree)
    requires !d.treeDeleted && !d.treeDownDeleted && (pending ==> son.Nil? || LoneLive(son))
    ensures Live(if pending then Pushed(d, son) else son) == Live(son)
  {
    if pending && son.Node? {
      LoneLiveMeaning(son, d);
    }
  }

  /**
    Update of a usable node keeps its points if and only if no delete is pending over a living son;
    otherwise it clears the delete flag and points come back.
   */
  lemma {:induction false} UpdateExact(t: Tree)
    requires t.Node? && Usable(t)
    ensures Live(Update(t)) == Live(t) <==> Harmless(t)
  {
    if Harmless(t) {
      UpdateHarmless(t);
    } else {
      var u := Update(t);
      UsableFlags(t);
      if t.d.needLeft && !Dead(t.left) {
        PushLeavesAlive(u.d, t.left);
        assert Live(EffLeft(u)) <= Live(u);
      } else {
        PushLeavesAlive(u.d, t.right);
        assert Live(EffRight(u)) <= Live(u);
      }
    }
  }
}
