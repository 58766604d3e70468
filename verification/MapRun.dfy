/** Whole runs of the main thread on the tree: any sequence of insertions and box deletes, with immediate rebuilds. */
module MapRuns {
  import opened Geometry
  import opened TreeModel
  import opened Balance
  import opened KdNodes
  import opened KdSpec
  import opened Accounts
  import opened Folding
  import opened Operations
  import opened KdTrees

  /** No node lies deeper than the logarithmic bound of the balance fraction allows. */
  ghost predicate Shallow(t: Tree, cfg: Config) {
    forall path, depth: nat :: Subtree(t, path).Node? && Pow(cfg.balNum, depth) * Nodes(t) < 10 * Pow(cfg.balDen, depth)
      ==> |path| < depth + 10
  }

  lemma {:induction false} BalancedShallow(t: Tree, cfg: Config)
    requires Balanced(t, cfg) && Inv(t)
    ensures Shallow(t, cfg)
  {
    CachedFieldsExact(t);
    forall path, depth: nat
      | Subtree(t, path).Node? && Pow(cfg.balNum, depth) * Nodes(t) < 10 * Pow(cfg.balDen, depth)
      ensures |path| < depth + 10
    {
      DepthBound(t, path, depth, cfg);
    }
  }

  lemma {:induction false} KeptShallow(t: Tree, u: Tree, cfg: Config)
    requires Balanced(t, cfg) && Lean(t, cfg) && Inv(t) && KeepsBalance(t, u, cfg) && KeepsCounters(t, u)
    ensures Balanced(u, cfg) && Lean(u, cfg) && Inv(u) && Shallow(u, cfg)
  {
    OpenBalance(t, u, cfg);
    OpenCounters(t, u);
    BalancedShallow(u, cfg);
  }

  /** The points that a sequence of edits inserts. */
  ghost function InsertedBy(ops: seq<Operation>): multiset<Point> {
    if ops == [] then multiset{}
    else InsertedBy(ops[..|ops| - 1]) + InsertedOnce(ops[|ops| - 1])
  }

  ghost function InsertedOnce(op: Operation): multiset<Point> {
    if op.AddPoint? then multiset{op.p} else multiset{}
  }

  /** Some of the edits delete by downsampling. */
  predicate Downsamples(ops: seq<Operation>) {
    exists i :: 0 <= i < |ops| && ops[i].DownsampleDelete?
  }

  /** The account has changed by what the first `n` edits insert. */
  ghost predicate AccountUpTo(t: Tree, P: seq<Point>, u: Tree, Q: seq<Point>, ops: seq<Operation>, n: nat) {
    forall k :: OpenEdit(k) ==>
      n <= |ops| && Conserves(t, P, u, Q, InsertedBy(ops[..n]), Downsamples(ops[..n]))
  }

  lemma {:induction false} AccountNothing(t: Tree, P: seq<Point>, ops: seq<Operation>)
    ensures AccountUpTo(t, P, t, P, ops, 0)
  {
    ConservesSelf(t, P, false);
    OpenLosesNone(t, P, t, P, false);
    assert ops[..0] == [];
  }

  lemma {:induction false} AccountMore(t: Tree, P: seq<Point>, u: Tree, Q: seq<Point>, v: Tree, R: seq<Point>,
                                       ops: seq<Operation>, i: nat)
    requires i < |ops| && AccountUpTo(t, P, u, Q, ops, i) && KeepsCounters(t, u)
    requires Conserves(u, Q, v, R, InsertedOnce(ops[i]), ops[i].DownsampleDelete?)
    ensures AccountUpTo(t, P, v, R, ops, i + 1)
  {
    assert OpenEdit(0);
    ConservesTrans(t, P, u, Q, InsertedBy(ops[..i]), v, R, InsertedOnce(ops[i]), Downsamples(ops[..i]),
                   ops[i].DownsampleDelete?);
    assert ops[..i + 1][..i] == ops[..i];
    DownsamplesMore(ops, i);
  }

  /** The edits from `n` on lead from the points `S` to `T`. */
  ghost predicate RestLeads(S: multiset<Point>, ops: seq<Operation>, n: nat, T: multiset<Point>) {
    forall k :: OpenEdit(k) ==> n <= |ops| && OpsLive(S, ops[n..]) == T
  }

  lemma {:induction false} RestWhole(S: multiset<Point>, ops: seq<Operation>)
    ensures RestLeads(S, ops, 0, OpsLive(S, ops))
  {
    assert ops[0..] == ops;
  }

  lemma {:induction false} RestStep(S: multiset<Point>, ops: seq<Operation>, n: nat, T: multiset<Point>)
    requires RestLeads(S, ops, n, T) && n < |ops|
    ensures RestLeads(OpLive(S, ops[n]), ops, n + 1, T)
  {
    assert OpenEdit(0);
    assert ops[n..][0] == ops[n] && ops[n..][1..] == ops[n + 1..];
  }

  lemma {:induction false} RestNothing(S: multiset<Point>, ops: seq<Operation>, T: multiset<Point>)
    requires RestLeads(S, ops, |ops|, T)
    ensures S == T
  {
    assert OpenEdit(0);
    assert ops[|ops|..] == [];
  }

  lemma {:induction false} DownsamplesMore(ops: seq<Operation>, i: nat)
    requires i < |ops|
    ensures Downsamples(ops[..i + 1]) <==> Downsamples(ops[..i]) || ops[i].DownsampleDelete?
  {
    if Downsamples(ops[..i]) {
      var k :| 0 <= k < i && ops[..i][k].DownsampleDelete?;
      assert ops[..i + 1][k].DownsampleDelete?;
    }
    if ops[i].DownsampleDelete? {
      assert ops[..i + 1][i].DownsampleDelete?;
    }
    if Downsamples(ops[..i + 1]) {
      var k :| 0 <= k < i + 1 && ops[..i + 1][k].DownsampleDelete?;
      assert k < i ==> ops[..i][k].DownsampleDelete?;
    }
  }

  /**
    The account of a whole run: every point of the cloud and every inserted one is in the map, marked as removed in the
    tree, or recorded as removed; only deletes by downsampling take points out of the account.
   */
  lemma {:induction false} RunAccount(t: Tree, cloud: seq<Point>, u: Tree, Q: seq<Point>, ops: seq<Operation>)
    requires Inv(t) && Live(t) == multiset(cloud) && Removed(t) == multiset{}
    requires AccountUpTo(t, [], u, Q, ops, |ops|)
    ensures if Downsamples(ops) then multiset(Q) + Removed(u) + Live(u) <= multiset(cloud) + InsertedBy(ops)
            else multiset(Q) + Removed(u) + Live(u) == multiset(cloud) + InsertedBy(ops)
  {
    assert OpenEdit(0);
    assert ops[..|ops|] == ops;
    OpenConserves(t, [], u, Q, InsertedBy(ops), Downsamples(ops));
    assert Account(t, []) == multiset(cloud);
  }

  /** One edit of the map. */
  method Perform(tree: KdTree, op: Operation)
    requires tree.Valid() && tree.rootNode != null && !op.PushDownFlags?
    modifies tree, ReprOf(tree.rootNode)
    ensures tree.Valid() && tree.rootNode != null && fresh(tree.rootNode.Repr - old(tree.rootNode.Repr))
    ensures Conserves(old(tree.rootNode.model), old(tree.pointsDeleted), tree.rootNode.model, tree.pointsDeleted,
                      InsertedOnce(op), op.DownsampleDelete?)
    ensures !op.DeleteBox? ==>
              RecordsNothing(old(tree.rootNode.model), old(tree.pointsDeleted), tree.rootNode.model, tree.pointsDeleted)
    ensures tree.Map() == OpLive(old(tree.Map()), op)
    ensures Size(tree.rootNode.model) <= old(Size(tree.rootNode.model)) + 1
    ensures KeepsCounters(old(tree.rootNode.model), tree.rootNode.model)
    ensures old(tree.Immediate(Size(tree.rootNode.model) + 1)) ==>
              tree.rebuildPtr == null && KeepsBalance(old(tree.rootNode.model), tree.rootNode.model, tree.cfg)
  {
    ghost var t, P := tree.rootNode.model, tree.pointsDeleted;
    match op {
      case AddPoint(p) =>
        tree.AddPoint(p);
        OpenGainsOne(t, P, tree.rootNode.model, tree.pointsDeleted, p);
        GainsRecordNothing(t, P, tree.rootNode.model, tree.pointsDeleted, multiset{p});
      case DeleteBox(b) =>
        var count := tree.DeleteBox(b, false);
        OpenLosesNone(t, P, tree.rootNode.model, tree.pointsDeleted, false);
      case DownsampleDelete(b) =>
        var count := tree.DeleteBox(b, true);
        OpenLosesNone(t, P, tree.rootNode.model, tree.pointsDeleted, true);
    }
  }

  /** Any sequence of edits: the map holds what they leave, and balance and exact counters are kept throughout. */
  method PerformAll(tree: KdTree, ops: seq<Operation>)
    requires tree.Valid() && tree.rootNode != null && forall op :: op in ops ==> !op.PushDownFlags?
    modifies tree, ReprOf(tree.rootNode)
    ensures tree.Valid() && tree.rootNode != null && fresh(tree.rootNode.Repr - old(tree.rootNode.Repr))
    ensures AccountUpTo(old(tree.rootNode.model), old(tree.pointsDeleted), tree.rootNode.model, tree.pointsDeleted,
                        ops, |ops|)
    ensures tree.Map() == OpsLive(old(tree.Map()), ops)
    ensures Size(tree.rootNode.model) <= old(Size(tree.rootNode.model)) + |ops|
    ensures KeepsCounters(old(tree.rootNode.model), tree.rootNode.model)
    ensures old(tree.Immediate(Size(tree.rootNode.model) + |ops|)) ==>
              tree.rebuildPtr == null && KeepsBalance(old(tree.rootNode.model), tree.rootNode.model, tree.cfg)
  {
    ghost var t := tree.rootNode.model;
    KeepsBalanceSelf(t, tree.cfg);
    CountersTrans(t, t, t);
    AccountNothing(t, tree.pointsDeleted, ops);
    ghost var T := OpsLive(tree.Map(), ops);
    RestWhole(tree.Map(), ops);
    for i := 0 to |ops|
      invariant tree.Valid() && tree.rootNode != null && fresh(tree.rootNode.Repr - old(tree.rootNode.Repr))
      invariant RestLeads(tree.Map(), ops, i, T)
      invariant Size(tree.rootNode.model) <= Size(t) + i && KeepsCounters(t, tree.rootNode.model)
      invariant AccountUpTo(t, old(tree.pointsDeleted), tree.rootNode.model, tree.pointsDeleted, ops, i)
      invariant old(tree.Immediate(Size(tree.rootNode.model) + |ops|)) ==>
                  tree.rebuildPtr == null && KeepsBalance(t, tree.rootNode.model, tree.cfg)
    {
      ghost var u, Q := tree.rootNode.model, tree.pointsDeleted;
      RestStep(tree.Map(), ops, i, T);
      Perform(tree, ops[i]);
      KeepsBalanceTrans(t, u, tree.rootNode.model, tree.cfg);
      CountersTrans(t, u, tree.rootNode.model);
      AccountMore(t, old(tree.pointsDeleted), u, Q, tree.rootNode.model, tree.pointsDeleted, ops, i);
    }
    RestNothing(tree.Map(), ops, T);
  }

  /**
    A map built over a point cloud and edited in any way, as long as every rebuild is immediate: it holds what
    the edits leave of the cloud, every node is balanced and holds few deleted points, every counter is exact, and the
    depth is logarithmic.
   */
  method BuildAndPerform(cfg: Config, downsampleSize: int, cloud: seq<Point>,
                         ops: seq<Operation>) returns (tree: KdTree)
    requires cfg.Fair() && downsampleSize > 0 && cloud != []
    requires forall op :: op in ops ==> !op.PushDownFlags?
    requires |cloud| + |ops| < cfg.rebuildThreshold
    ensures tree.Valid() && tree.cfg == cfg && tree.rootNode != null
    ensures tree.Map() == OpsLive(multiset(cloud), ops)
    ensures Balanced(tree.rootNode.model, cfg) && Lean(tree.rootNode.model, cfg)
    ensures Inv(tree.rootNode.model) && Shallow(tree.rootNode.model, cfg)
    // Every point is in the map, marked as removed in the tree, or recorded as removed, unless downsampling took it.
    ensures var account := multiset(tree.pointsDeleted) + Removed(tree.rootNode.model) + tree.Map();
            if Downsamples(ops) then account <= multiset(cloud) + InsertedBy(ops)
            else account == multiset(cloud) + InsertedBy(ops)
  {
    tree := new KdTree(cfg, downsampleSize);
    tree.Build(cloud);
    ghost var t := tree.rootNode.model;
    PerformAll(tree, ops);
    RunAccount(t, cloud, tree.rootNode.model, tree.pointsDeleted, ops);
    KeptShallow(t, tree.rootNode.model, cfg);
  }
}
