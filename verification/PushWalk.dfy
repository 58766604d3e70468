/** Trees that differ only by Push_Down steps, as the read-only walks leave them behind. */
module PushWalk {
  import opened TreeModel
  import opened Balance

  /** `u` is `t` after Push_Down at some of its nodes, always fathers before sons. */
  ghost predicate Pushes(t: Tree, u: Tree)
    decreases Nodes(t)
  {
    || u == t
    || (t.Node? && u.Node?
        && u.d == PushDown(t).d
        && Pushes(EffLeft(t), u.left)
        && Pushes(EffRight(t), u.right))
  }

  /** Equal up to the two push flags. */
  predicate SameCache(a: Tree, b: Tree) {
    if a.Node? then b.Node? && b.d == a.d.(needLeft := b.d.needLeft, needRight := b.d.needRight) else b.Nil?
  }

  lemma {:induction false} PushesRoot(t: Tree, u: Tree)
    requires Pushes(t, u)
    ensures SameCache(t, u)
  {
  }

  lemma {:induction false} LocalSameCache(d: Data, l: Tree, r: Tree, e: Data, l': Tree, r': Tree)
    requires Local(d, l, r) && SameCache(l, l') && SameCache(r, r')
    requires e == d.(needLeft := e.needLeft, needRight := e.needRight)
    ensures Local(e, l', r')
  {
  }

  /** The effective sons after a walk are the walked effective sons. */
  lemma {:induction false} PushesSons(t: Tree, u: Tree)
    requires t.Node? && u.Node? && u != t && Pushes(t, u)
    ensures EffLeft(u) == u.left && EffRight(u) == u.right && PendingOk(u)
  {
    PushesRoot(EffLeft(t), u.left);
    PushesRoot(EffRight(t), u.right);
  }

  lemma {:induction false} PushesKeepMeaning(t: Tree, u: Tree)
    requires Pushes(t, u)
    ensures Live(u) == Live(t) && Removed(u) == Removed(t)
    decreases Nodes(t)
  {
    if u != t {
      PushesSons(t, u);
      PushesKeepMeaning(EffLeft(t), u.left);
      PushesKeepMeaning(EffRight(t), u.right);
    }
  }

  lemma {:induction false} PushesKeepInv(t: Tree, u: Tree)
    requires Pushes(t, u) && Inv(t)
    ensures Inv(u)
    decreases Nodes(t)
  {
    if u != t {
      PushesSons(t, u);
      PushesKeepInv(EffLeft(t), u.left);
      PushesKeepInv(EffRight(t), u.right);
      PushesRoot(EffLeft(t), u.left);
      PushesRoot(EffRight(t), u.right);
      LocalSameCache(t.d, EffLeft(t), EffRight(t), u.d, u.left, u.right);
    }
  }

  lemma {:induction false} PushesKeepOrder(t: Tree, u: Tree)
    requires Pushes(t, u)
    ensures Stored(u) == Stored(t) && Size(u) == Size(t) && Nodes(u) == Nodes(t)
    ensures Ordered(t) ==> Ordered(u)
    decreases Nodes(t)
  {
    if u != t {
      EffSons(t);
      PushesKeepOrder(EffLeft(t), u.left);
      PushesKeepOrder(EffRight(t), u.right);
    }
  }

  lemma {:induction false} PushesKeepBalance(t: Tree, u: Tree, cfg: Config)
    requires Pushes(t, u)
    ensures Balanced(t, cfg) ==> Balanced(u, cfg)
    decreases Nodes(t)
  {
    if u != t {
      PushesKeepOrder(EffLeft(t), u.left);
      PushesKeepOrder(EffRight(t), u.right);
      PushesKeepBalance(EffLeft(t), u.left, cfg);
      PushesKeepBalance(EffRight(t), u.right, cfg);
      if Balanced(t, cfg) {
        PushDownBalanced(t, cfg);
      }
    }
  }

  lemma {:induction false} PushesKeepLean(t: Tree, u: Tree, cfg: Config)
    requires Pushes(t, u)
    ensures Lean(t, cfg) ==> Lean(u, cfg)
    decreases Nodes(t)
  {
    if u != t {
      PushesSons(t, u);
      PushesKeepLean(EffLeft(t), u.left, cfg);
      PushesKeepLean(EffRight(t), u.right, cfg);
    }
  }

  /** One level of a walk: push at the node, then walk into the sons. */
  lemma {:induction false} PushesBelow(t: Tree, l: Tree, r: Tree)
    requires t.Node? && Pushes(EffLeft(t), l) && Pushes(EffRight(t), r)
    ensures Pushes(t, Node(PushDown(t).d, l, r))
  {
  }
}
