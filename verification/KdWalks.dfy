/** The walks that read the tree: they push pending flags down but change nothing observable. */
module KdWalks {
  import opened Geometry
  import opened TreeModel
  import opened TreeOps
  import opened StaleTrees
  import opened PushWalk
  import opened KdNodes
  import opened KdSpec
  import opened Folding

  /** Appends the live points of a subtree to `storage` and its removed points to `removed`. */
  method Flatten(root: KdNode?, storage: seq<Point>, removed: seq<Point>)
    returns (live: seq<Point>, gone: seq<Point>)
    requires root != null ==> root.Valid()
    modifies ReprOf(root)
    ensures root != null ==> root.Valid() && root.Repr == old(root.Repr)
    ensures Walked(old(Model(root)), Model(root))
    ensures Collected(old(Model(root)), storage, live)
    ensures Recorded(old(Model(root)), removed, gone)
    decreases ReprOf(root)
  {
    if root == null {
      CollectNothing(Nil, storage);
      CollectNothing(Nil, removed);
      return storage, removed;
    }
    ghost var t := root.model;
    root.PushDown();
    live, gone := storage, removed;
    if !root.d.pointDeleted {
      live := live + [root.d.point];
    }
    ghost var first := live;
    live, gone := Flatten(root.left, live, gone);
    ghost var l, live1, gone1 := Model(root.left), live, gone;
    live, gone := Flatten(root.right, live, gone);
    CollectLevel(t, storage, live1, live);
    RecordLevel(t, removed, gone1, gone);
    WalkLevel(t, l, Model(root.right));
    if root.d.pointDeleted && !root.d.pointDownDeleted {
      gone := gone + [root.d.point];
    }
    root.model := Node(root.d, Model(root.left), Model(root.right));
  }

  // ---- Box search ----

  lemma {:induction false} MissedWithin(t: Tree, b: Box, s: seq<Point>)
    requires t.Node? && Sound(t) && Misses(b, t.d.range)
    ensures CollectedWithin(t, b, s, s) && Walked(t, PushDown(t))
  {
    OpenSound(t);
    WalkedOnce(t);
    UsableFlags(t);
    if !Dead(t) {
      BoxAndRange(t.d.range, Live(t), b);
      assert Within(Live(t), b) == multiset{};
    }
  }

  lemma {:induction false} WalkedOnce(t: Tree)
    ensures Walked(t, PushDown(t))
  {
    if t.Node? {
      PushesBelow(t, EffLeft(t), EffRight(t));
    }
  }

  lemma {:induction false} WalkedTwice(t: Tree, u: Tree)
    requires Walked(PushDown(t), u)
    ensures Walked(t, u)
  {
    assert Open(0) && OpenAside(0);
    if t.Node? {
      EffSons(t);
      PushesBelow(t, EffLeft(t), EffRight(t));
      if u != PushDown(t) {
        PushDownSettles(t);
        PushesBelow(t, u.left, u.right);
      }
    }
  }

  /** A box around the cached range selects every live point; the walk then is a traversal. */
  lemma {:induction false} CoveredWithin(t: Tree, b: Box, s: seq<Point>, r: seq<Point>)
    requires t.Node? && Sound(t) && Covers(b, t.d.range) && Collected(PushDown(t), s, r)
    ensures CollectedWithin(t, b, s, r)
  {
    OpenSound(t);
    assert Open(0) && OpenAside(0);
    PushDownKeepsMeaning(t);
    UsableFlags(t);
    if !Dead(t) {
      BoxAndRange(t.d.range, Live(t), b);
    }
  }

  lemma {:induction false} WithinLevel(t: Tree, b: Box, s: seq<Point>, a: seq<Point>, r: seq<Point>)
    requires t.Node?
    requires CollectedWithin(EffLeft(t), b, if HitsOwn(t.d, b) then s + [t.d.point] else s, a)
    requires CollectedWithin(EffRight(t), b, a, r)
    ensures CollectedWithin(t, b, s, r)
  {
    assert Open(0) && OpenAside(0);
    var A, B, C := Within(Own(t.d), b), Within(Live(EffLeft(t)), b), Within(Live(EffRight(t)), b);
    WithinSplit(Own(t.d), Live(EffLeft(t)), b);
    WithinSplit(Own(t.d) + Live(EffLeft(t)), Live(EffRight(t)), b);
    assert A == if HitsOwn(t.d, b) then multiset{t.d.point} else multiset{};
    CollectAlgebra(multiset(s), A, B, C);
  }

  /** Appends the live points inside the box to `storage`. */
  method SearchByRange(root: KdNode?, b: Box, storage: seq<Point>) returns (found: seq<Point>)
    requires root != null ==> root.Valid()
    requires Sound(Model(root))
    modifies ReprOf(root)
    ensures root != null ==> root.Valid() && root.Repr == old(root.Repr)
    ensures Walked(old(Model(root)), Model(root))
    ensures CollectedWithin(old(Model(root)), b, storage, found)
    decreases ReprOf(root)
  {
    if root == null {
      NothingWithin(b, storage);
      return storage;
    }
    ghost var t := root.model;
    root.PushDown();
    if Misses(b, root.d.range) {
      MissedWithin(t, b, storage);
      return storage;
    }
    if Covers(b, root.d.range) {
      var gone;
      found, gone := Flatten(root, storage, []);
      CoveredWithin(t, b, storage, found);
      WalkedTwice(t, root.model);
      return;
    }
    found := SearchBelow(root, b, storage, t);
  }

  lemma {:induction false} NothingWithin(b: Box, s: seq<Point>)
    ensures CollectedWithin(Nil, b, s, s) && Walked(Nil, Nil)
  {
    assert Live(Nil) == multiset{};
  }

  method SearchBelow(root: KdNode, b: Box, storage: seq<Point>, ghost t: Tree) returns (found: seq<Point>)
    requires root.Valid() && t.Node? && Sound(t) && root.model == PushDown(t)
    modifies root.Repr
    ensures root.Valid() && root.Repr == old(root.Repr)
    ensures Walked(t, root.model) && CollectedWithin(t, b, storage, found)
    decreases root.Repr, 0
  {
    SonsSound(t);
    found := storage;
    if HitsOwn(root.d, b) {
      found := found + [root.d.point];
    }
    found := SearchByRange(root.left, b, found);
    ghost var l, found1 := Model(root.left), found;
    found := SearchByRange(root.right, b, found);
    WithinLevel(t, b, storage, found1, found);
    WalkLevel(t, l, Model(root.right));
    root.model := Node(root.d, Model(root.left), Model(root.right));
  }
}
