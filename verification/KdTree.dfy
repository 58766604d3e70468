/** The incremental k-d tree: flattening, rebuilding, insertion and box deletion on heap nodes. */
module KdTrees {
  import opened Options
  import opened Geometry
  import opened TreeModel
  import opened TreeOps
  import opened Balance
  import opened KdNodes
  import opened TreeBuilder
  import opened KdSpec
  import opened Accounts
  import opened KdWalks
  import opened Knn
  import opened Cells

  class KdTree {
    const cfg: Config
    const downsampleSize: int
    var rootNode: KdNode?
    /** The subtree that waits for a rebuild in the background. */
    var rebuildPtr: KdNode?
    var pointsDeleted: seq<Point>

    ghost predicate Valid()
      reads this, rootNode, ReprOf(rootNode)
    {
      && downsampleSize > 0
      && (rootNode != null ==> rootNode.Valid())
      && Sound(Model(rootNode))
    }

    /** The points the map stands for. */
    ghost function Map(): multiset<Point>
      reads this, rootNode
    {
      Live(Model(rootNode))
    }

    constructor (cfg: Config, downsampleSize: int)
      requires cfg.Valid() && downsampleSize > 0
      ensures Valid() && Map() == multiset{} && this.cfg == cfg && this.downsampleSize == downsampleSize
      ensures rootNode == null && rebuildPtr == null && pointsDeleted == []
    {
      this.cfg, this.downsampleSize := cfg, downsampleSize;
      rootNode, rebuildPtr, pointsDeleted := null, null, [];
    }

    /** Criterion_Check. */
    method CriterionCheck(root: KdNode) returns (b: bool)
      requires root.Valid()
      ensures b == NeedsRebuild(root.model, cfg)
    {
      if root.d.size <= MINIMAL_UNBALANCED_TREE_SIZE {
        return false;
      }
      var son := 0;
      if root.left != null {
        son := root.left.d.size;
      } else if root.right != null {
        son := root.right.d.size;
      }
      b := root.d.invalid * cfg.delDen > cfg.delNum * root.d.size
        || son * cfg.balDen > cfg.balNum * (root.d.size - 1)
        || son * cfg.balDen < (cfg.balDen - cfg.balNum) * (root.d.size - 1);
    }

    /** Rebuilds a small subtree at once and only registers a large one. */
    method Rebuild(root: KdNode) returns (r: KdNode?, ghost S: multiset<Point>)
      requires root.Valid() && Sound(root.model)
      modifies root.Repr, `rebuildPtr, `pointsDeleted
      ensures r != null ==> r.Valid() && fresh(r.Repr - old(root.Repr))
      ensures LosesNone(old(root.model), old(pointsDeleted), Model(r), pointsDeleted, false)
      ensures Sound(Model(r)) && Kept(old(root.model), Model(r))
      ensures old(root.d.size) >= cfg.rebuildThreshold ==>
                && r == root && r.model == old(root.model) && pointsDeleted == old(pointsDeleted)
                && rebuildPtr == if old(rebuildPtr == null || root.d.size > rebuildPtr.d.size) then root
                                 else old(rebuildPtr)
      ensures old(root.d.size) < cfg.rebuildThreshold ==>
                && BuiltOver(Model(r), S) && rebuildPtr == old(rebuildPtr)
                && Size(Model(r)) == old(root.d.size - root.d.invalid)
                && Recorded(old(root.model), old(pointsDeleted), pointsDeleted)
                && (old(Inv(root.model)) ==> |pointsDeleted| == old(|pointsDeleted| + root.d.invalid - root.d.downDel))
    {
      S := multiset{};
      if root.d.size >= cfg.rebuildThreshold {
        if rebuildPtr == null || root.d.size > rebuildPtr.d.size {
          rebuildPtr := root;
        }
        KeptSelf(root.model);
        ConservesSelf(root.model, pointsDeleted, false);
        return root, S;
      }
      ghost var t := root.model;
      var pclStorage, gone := Flatten(root, [], pointsDeleted);
      pointsDeleted := gone;
      S := multiset(pclStorage);
      r := BuildTree(pclStorage);
      RebuiltSound(Model(r), S);
      RebuiltKept(t, Model(r), pclStorage);
      RebuiltConserves(t, Model(r), old(pointsDeleted), pointsDeleted, S);
      if Inv(t) {
        RecordedCount(t, old(pointsDeleted), pointsDeleted);
      }
    }

    /** The end of every editing step: the criterion check and the rebuild it asks for. */
    method Settle(root: KdNode, allowRebuild: bool) returns (r: KdNode?, ghost S: multiset<Point>)
      requires root.Valid() && Sound(root.model)
      modifies root.Repr, `rebuildPtr, `pointsDeleted
      ensures r != null ==> r.Valid() && fresh(r.Repr - old(root.Repr))
      ensures LosesNone(old(root.model), old(pointsDeleted), Model(r), pointsDeleted, false)
      ensures Sound(Model(r)) && Kept(old(root.model), Model(r))
      ensures !old(Dead(root.model)) ==> r != null
      ensures !allowRebuild ==> r == root && r.model == old(root.model) && pointsDeleted == old(pointsDeleted)
      // A subtree that became small is withdrawn; a large one that is to be rebuilt is registered unless a larger one
      // is.
      ensures rebuildPtr ==
              if old(root.d.size) < cfg.rebuildThreshold then
                if old(rebuildPtr) == root then null else old(rebuildPtr)
              else if allowRebuild && NeedsRebuild(old(root.model), cfg)
                      && old(rebuildPtr == null || root.d.size > rebuildPtr.d.size) then root
              else old(rebuildPtr)
      ensures allowRebuild && old(root.d.size) < cfg.rebuildThreshold ==>
                if NeedsRebuild(old(root.model), cfg) then BuiltOver(Model(r), S) else Model(r) == old(root.model)
    {
      if rebuildPtr == root && root.d.size < cfg.rebuildThreshold {
        rebuildPtr := null;
      }
      var needRebuild := CriterionCheck(root);
      if allowRebuild && needRebuild {
        LiveCount(root.model);
        r, S := Rebuild(root);
      } else {
        KeptSelf(root.model);
        ConservesSelf(root.model, pointsDeleted, false);
        r, S := root, multiset{};
      }
    }

    /** Whether a recursion into `son` may rebuild: never inside the subtree that waits for the background. */
    predicate MayRebuild(allowRebuild: bool, son: KdNode?)
      reads this`rebuildPtr
    {
      allowRebuild && (rebuildPtr == null || son != rebuildPtr)
    }

    /** Nothing is registered for the background and a subtree of `size` points is small enough to rebuild at once. */
    ghost predicate Immediate(size: int)
      reads this`rebuildPtr
    {
      rebuildPtr == null && size < cfg.rebuildThreshold && cfg.Fair()
    }

    method AddByPoint(root: KdNode?, p: Point, allowRebuild: bool, fatherAxis: Axis) returns (r: KdNode?)
      requires root != null ==> root.Valid()
      requires Sound(Model(root))
      modifies ReprOf(root), `rebuildPtr, `pointsDeleted
      ensures r != null && r.Valid() && fresh(r.Repr - old(ReprOf(root)))
      ensures GainsOne(old(Model(root)), old(pointsDeleted), r.model, pointsDeleted, p)
      ensures Sound(r.model) && Added(old(Model(root)), p, r.model)
      ensures root == null ==> LoneLive(r.model)
      ensures !allowRebuild ==> r.model == Add(old(Model(root)), p, fatherAxis)
      ensures !allowRebuild ==> pointsDeleted == old(pointsDeleted)
      ensures allowRebuild && old(Immediate(Size(Model(root)) + 1)) ==>
                rebuildPtr == null && KeepsBalance(old(Model(root)), r.model, cfg)
      decreases ReprOf(root)
    {
      if root == null {
        var leaf := new KdNode(p, NextAxis(fatherAxis));
        leaf.Update();
        NewLeafAdded(p, NextAxis(fatherAxis));
        LeafKeepsBalance(p, NextAxis(fatherAxis), cfg);
        LeafConserves(p, NextAxis(fatherAxis), pointsDeleted);
        return leaf;
      }
      ghost var t := root.model;
      AddBelowRoot(root, p, allowRebuild);
      ghost var u, records := root.model, pointsDeleted;
      ghost var S;
      r, S := Settle(root, allowRebuild);
      AddedThenRebuilt(t, p, old(pointsDeleted), u, records, Model(r), pointsDeleted);
      AddedThenKept(t, p, u, Model(r));
      if allowRebuild && u.d.size < cfg.rebuildThreshold && cfg.Fair() && SonsKeepBalance(t, u, cfg) {
        CheckedBalance(t, u, Model(r), S, cfg);
      }
    }

    /** Push_Down, the recursion into the chosen son, and Update. */
    method AddBelowRoot(root: KdNode, p: Point, allowRebuild: bool)
      requires root.Valid() && Sound(root.model)
      modifies root.Repr, `rebuildPtr, `pointsDeleted
      ensures root.Valid() && fresh(root.Repr - old(root.Repr))
      ensures GainsOne(old(root.model), old(pointsDeleted), root.model, pointsDeleted, p)
      ensures Sound(root.model) && Added(old(root.model), p, root.model) && !Dead(root.model)
      ensures root.model.d.size <= old(root.d.size) + 1
      ensures !allowRebuild ==> root.model == Add(old(root.model), p, 0) && pointsDeleted == old(pointsDeleted)
      ensures allowRebuild && old(Immediate(root.d.size + 1)) ==>
                rebuildPtr == null && SonsKeepBalance(old(root.model), root.model, cfg)
      decreases root.Repr, 3
    {
      ghost var t := root.model;
      SonsSound(t);
      root.PushDown();
      ghost var son := AddToSon(root, p, allowRebuild);
      AddLevelDone(t, p, son, root.model, old(pointsDeleted), pointsDeleted);
      if allowRebuild && old(Immediate(root.d.size + 1)) {
        AddLevelBalanced(t, p, son, cfg, old(pointsDeleted), pointsDeleted);
      }
    }

    method AddToSon(root: KdNode, p: Point, allowRebuild: bool) returns (ghost son: Tree)
      requires root.Valid() && Sound(root.model.left) && Sound(root.model.right)
      modifies root.Repr, `rebuildPtr, `pointsDeleted
      ensures root.Valid() && fresh(root.Repr - old(root.Repr))
      ensures SonGains(old(root.model), p, son, old(pointsDeleted), pointsDeleted)
      ensures root.model == AddBelow(old(root.model), p, son)
      ensures !allowRebuild ==>
                son == Add(old(SonFor(root.model, p)), p, old(root.d.axis)) && pointsDeleted == old(pointsDeleted)
      ensures allowRebuild && old(Immediate(Size(SonFor(root.model, p)) + 1)) ==>
                rebuildPtr == null && KeepsBalance(old(SonFor(root.model, p)), son, cfg)
      decreases root.Repr, 2
    {
      if GoesLeft(root.d, p) {
        son := AddToLeft(root, p, allowRebuild);
      } else {
        son := AddToRight(root, p, allowRebuild);
      }
    }

    method AddToLeft(root: KdNode, p: Point, allowRebuild: bool) returns (ghost son: Tree)
      requires root.Valid() && Sound(Model(root.left)) && GoesLeft(root.d, p)
      modifies root.Repr, `rebuildPtr, `pointsDeleted
      ensures root.Valid() && fresh(root.Repr - old(root.Repr))
      ensures SonGains(old(root.model), p, son, old(pointsDeleted), pointsDeleted)
      ensures root.model == AddBelow(old(root.model), p, son)
      ensures !allowRebuild ==>
                son == Add(old(root.model).left, p, old(root.d.axis)) && pointsDeleted == old(pointsDeleted)
      // The subtree that waits for the background is walked without rebuilding.
      ensures old(rebuildPtr != null && root.left == rebuildPtr) ==>
                son == Add(old(root.model).left, p, old(root.d.axis)) && pointsDeleted == old(pointsDeleted)
      ensures allowRebuild && old(Immediate(Size(root.model.left) + 1)) ==>
                rebuildPtr == null && KeepsBalance(old(root.model).left, son, cfg)
      decreases root.Repr, 1
    {
      ghost var t := root.model;
      var l := AddByPoint(root.left, p, MayRebuild(allowRebuild, root.left), root.d.axis);
      son := l.model;
      FormSonGains(t, p, son, old(pointsDeleted), pointsDeleted);
      root.left := l;
      root.Update();
    }

    method AddToRight(root: KdNode, p: Point, allowRebuild: bool) returns (ghost son: Tree)
      requires root.Valid() && Sound(Model(root.right)) && !GoesLeft(root.d, p)
      modifies root.Repr, `rebuildPtr, `pointsDeleted
      ensures root.Valid() && fresh(root.Repr - old(root.Repr))
      ensures SonGains(old(root.model), p, son, old(pointsDeleted), pointsDeleted)
      ensures root.model == AddBelow(old(root.model), p, son)
      ensures !allowRebuild ==>
                son == Add(old(root.model).right, p, old(root.d.axis)) && pointsDeleted == old(pointsDeleted)
      // The subtree that waits for the background is walked without rebuilding.
      ensures old(rebuildPtr != null && root.right == rebuildPtr) ==>
                son == Add(old(root.model).right, p, old(root.d.axis)) && pointsDeleted == old(pointsDeleted)
      ensures allowRebuild && old(Immediate(Size(root.model.right) + 1)) ==>
                rebuildPtr == null && KeepsBalance(old(root.model).right, son, cfg)
      decreases root.Repr, 1
    {
      ghost var t := root.model;
      var r := AddByPoint(root.right, p, MayRebuild(allowRebuild, root.right), root.d.axis);
      son := r.model;
      FormSonGains(t, p, son, old(pointsDeleted), pointsDeleted);
      root.right := r;
      root.Update();
    }

    method DeleteByRange(root: KdNode?, b: Box, allowRebuild: bool, isDownsample: bool) returns (r: KdNode?, count: int)
      requires root != null ==> root.Valid()
      requires Sound(Model(root))
      modifies ReprOf(root), `rebuildPtr, `pointsDeleted
      ensures r == null <==> root == null
      ensures LosesNone(old(Model(root)), old(pointsDeleted), Model(r), pointsDeleted, isDownsample)
      ensures r != null ==> r.Valid() && fresh(r.Repr - old(ReprOf(root)))
      ensures Sound(Model(r)) && Deleted(old(Model(root)), b, Model(r), count)
      ensures !allowRebuild ==> (Model(r), count) == Delete(old(Model(root)), b, isDownsample)
      ensures !allowRebuild ==> pointsDeleted == old(pointsDeleted)
      ensures allowRebuild && old(Immediate(Size(Model(root)))) ==>
                rebuildPtr == null && KeepsBalance(old(Model(root)), Model(r), cfg)
      decreases Nodes(Model(root)), 5
    {
      if root == null || root.d.treeDeleted {
        DeadDeleted(Model(root), b);
        KeepsBalanceSelf(Model(root), cfg);
        ConservesSelf(Model(root), pointsDeleted, isDownsample);
        return root, 0;
      }
      r, count := DeleteFrom(root, b, allowRebuild, isDownsample);
    }

    /** Push_Down, and the three cases: the box misses, covers or cuts the cached range. */
    method DeleteFrom(root: KdNode, b: Box, allowRebuild: bool, isDownsample: bool) returns (r: KdNode?, count: int)
      requires root.Valid() && Sound(root.model) && !Dead(root.model)
      modifies root.Repr, `rebuildPtr, `pointsDeleted
      ensures r != null && r.Valid() && fresh(r.Repr - old(root.Repr))
      ensures LosesNone(old(root.model), old(pointsDeleted), r.model, pointsDeleted, isDownsample)
      ensures Sound(r.model) && Deleted(old(root.model), b, r.model, count)
      ensures !allowRebuild ==>
                (r.model, count) == Delete(old(root.model), b, isDownsample) && pointsDeleted == old(pointsDeleted)
      ensures allowRebuild && old(Immediate(root.d.size)) ==>
                rebuildPtr == null && KeepsBalance(old(root.model), r.model, cfg)
      decreases Nodes(root.model), 4
    {
      ghost var t := root.model;
      root.PushDown();
      UnsplitDone(t, b, isDownsample, cfg, pointsDeleted);
      if Misses(b, root.d.range) {
        return root, 0;
      }
      if Covers(b, root.d.range) {
        count := root.d.size - root.d.invalid;
        root.SetFields(Kill(root.d, isDownsample));
        return root, count;
      }
      r, count := DeletePartlyAndSettle(root, b, allowRebuild, isDownsample, t);
    }

    method DeletePartlyAndSettle(root: KdNode, b: Box, allowRebuild: bool, isDownsample: bool, ghost t: Tree)
      returns (r: KdNode?, count: int)
      requires root.Valid() && t.Node? && Sound(t) && root.model == PushDown(t)
      requires !Dead(t) && !Covers(b, t.d.range)
      modifies root.Repr, `rebuildPtr, `pointsDeleted
      ensures r != null && r.Valid() && fresh(r.Repr - old(root.Repr))
      ensures LosesNone(t, old(pointsDeleted), r.model, pointsDeleted, isDownsample)
      ensures Sound(r.model) && Deleted(t, b, r.model, count)
      ensures !allowRebuild ==>
                (r.model, count) == DeleteInside(t, b, isDownsample) && pointsDeleted == old(pointsDeleted)
      ensures allowRebuild && old(Immediate(t.d.size)) ==> rebuildPtr == null && KeepsBalance(t, r.model, cfg)
      decreases Nodes(root.model), 3
    {
      count := DeletePartly(root, b, allowRebuild, isDownsample, t);
      ghost var u, records := root.model, pointsDeleted;
      ghost var S;
      r, S := Settle(root, allowRebuild);
      DeletedThenRebuilt(t, b, count, old(pointsDeleted), u, records, isDownsample, Model(r), pointsDeleted);
      DeletedThenKept(t, b, u, count, Model(r));
      if allowRebuild && old(Immediate(t.d.size)) {
        CheckedBalance(t, u, Model(r), S, cfg);
      }
    }

    /** The node's own point, both sons, and Update, for a box that covers the node only in part. */
    method DeletePartly(root: KdNode, b: Box, allowRebuild: bool, isDownsample: bool,
                        ghost t: Tree) returns (count: int)
      requires root.Valid() && t.Node? && Sound(t) && root.model == PushDown(t)
      requires !Dead(t) && !Covers(b, t.d.range)
      modifies root.Repr, `rebuildPtr, `pointsDeleted
      ensures root.Valid() && fresh(root.Repr - old(root.Repr))
      ensures LosesNone(t, old(pointsDeleted), root.model, pointsDeleted, isDownsample)
      ensures Sound(root.model) && Deleted(t, b, root.model, count) && !Dead(root.model)
      ensures root.model.d.size <= t.d.size
      ensures !allowRebuild ==>
                (root.model, count) == DeleteInside(t, b, isDownsample) && pointsDeleted == old(pointsDeleted)
      ensures allowRebuild && old(Immediate(t.d.size)) ==> rebuildPtr == null && SonsKeepBalance(t, root.model, cfg)
      decreases Nodes(root.model), 2
    {
      ghost var l, r, records;
      ghost var u := root.model;
      var m, n;
      SonsSound(t);
      count := One(HitsOwn(root.d, b));
      m, n, l, r, records := DeleteParts(root, b, allowRebuild, isDownsample);
      count := count + m + n;
      assert DeletedLevel(t, u, b, isDownsample, l, m, r, n, root.model, count);
      DeletedLevelSound(t, u, b, isDownsample, l, m, r, n, root.model, count);
      DeletedLevelConserves(t, u, b, isDownsample, l, m, r, n, root.model, count, old(pointsDeleted), records,
                            pointsDeleted);
      if allowRebuild && old(Immediate(t.d.size)) {
        DeletedLevelBalanced(t, u, b, isDownsample, l, m, r, n, root.model, count, cfg);
      }
      if !allowRebuild {
        DeletedLevelExact(t, u, b, isDownsample, l, m, r, n, root.model, count);
      }
    }

    method DeleteParts(root: KdNode, b: Box, allowRebuild: bool, isDownsample: bool)
      returns (m: int, n: int, ghost l: Tree, ghost r: Tree, ghost records: seq<Point>)
      requires root.Valid() && Sound(Model(root.left)) && Sound(Model(root.right))
      modifies root.Repr, `rebuildPtr, `pointsDeleted
      ensures root.Valid() && fresh(root.Repr - old(root.Repr))
      ensures LosesNone(old(root.model).left, old(pointsDeleted), l, records, isDownsample)
      ensures LosesNone(old(root.model).right, records, r, pointsDeleted, isDownsample)
      ensures root.model == Update(Node(DeleteOwn(old(root.d), b, isDownsample), l, r))
      ensures Sound(l) && Deleted(old(root.model).left, b, l, m) && (old(root.model).left.Nil? ==> l.Nil?)
      ensures Sound(r) && Deleted(old(root.model).right, b, r, n) && (old(root.model).right.Nil? ==> r.Nil?)
      ensures !allowRebuild ==>
                && (l, m) == Delete(old(root.model).left, b, isDownsample)
                && (r, n) == Delete(old(root.model).right, b, isDownsample)
                && pointsDeleted == old(pointsDeleted)
      ensures allowRebuild && old(Immediate(Size(root.model.left))) && old(Immediate(Size(root.model.right))) ==>
                && rebuildPtr == null
                && KeepsBalance(old(root.model).left, l, cfg)
                && KeepsBalance(old(root.model).right, r, cfg)
      decreases Nodes(root.model), 1
    {
      root.SetFields(DeleteOwn(root.d, b, isDownsample));
      m, n, records := DeleteInSons(root, b, allowRebuild, isDownsample);
      l, r := root.model.left, root.model.right;
      root.Update();
    }

    method DeleteInSons(root: KdNode, b: Box, allowRebuild: bool, isDownsample: bool)
      returns (m: int, n: int, ghost records: seq<Point>)
      requires root.Valid() && Sound(Model(root.left)) && Sound(Model(root.right))
      modifies root.Repr, `rebuildPtr, `pointsDeleted
      ensures root.Valid() && fresh(root.Repr - old(root.Repr))
      ensures LosesNone(old(root.model).left, old(pointsDeleted), root.model.left, records, isDownsample)
      ensures LosesNone(old(root.model).right, records, root.model.right, pointsDeleted, isDownsample)
      ensures root.d == old(root.d) && root.model == Node(root.d, root.model.left, root.model.right)
      ensures Sound(root.model.left) && Deleted(old(root.model).left, b, root.model.left, m)
      ensures Sound(root.model.right) && Deleted(old(root.model).right, b, root.model.right, n)
      ensures old(root.model).left.Nil? ==> root.model.left.Nil?
      ensures old(root.model).right.Nil? ==> root.model.right.Nil?
      ensures !allowRebuild ==>
                && (root.model.left, m) == Delete(old(root.model).left, b, isDownsample)
                && (root.model.right, n) == Delete(old(root.model).right, b, isDownsample)
                && pointsDeleted == old(pointsDeleted)
      ensures allowRebuild && old(Immediate(Size(root.model.left))) && old(Immediate(Size(root.model.right))) ==>
                && rebuildPtr == null
                && KeepsBalance(old(root.model).left, root.model.left, cfg)
                && KeepsBalance(old(root.model).right, root.model.right, cfg)
      decreases Nodes(root.model), 0
    {
      m := DeleteInLeft(root, b, allowRebuild, isDownsample);
      records := pointsDeleted;
      n := DeleteInRight(root, b, allowRebuild, isDownsample);
    }

    method DeleteInLeft(root: KdNode, b: Box, allowRebuild: bool, isDownsample: bool) returns (m: int)
      requires root.Valid() && Sound(Model(root.left))
      modifies root.Repr, `rebuildPtr, `pointsDeleted
      ensures root.Valid() && fresh(root.Repr - old(root.Repr))
      ensures LosesNone(old(root.model).left, old(pointsDeleted), root.model.left, pointsDeleted, isDownsample)
      ensures root.d == old(root.d) && root.model == Node(root.d, root.model.left, old(root.model).right)
      ensures Sound(root.model.left) && Deleted(old(root.model).left, b, root.model.left, m)
      ensures old(root.model).left.Nil? ==> root.model.left.Nil?
      ensures !allowRebuild ==>
                (root.model.left, m) == Delete(old(root.model).left, b, isDownsample)
                    && pointsDeleted == old(pointsDeleted)
      ensures old(rebuildPtr != null && root.left == rebuildPtr) ==>
                (root.model.left, m) == Delete(old(root.model).left, b, isDownsample)
                    && pointsDeleted == old(pointsDeleted)
      ensures allowRebuild && old(Immediate(Size(root.model.left))) ==>
                rebuildPtr == null && KeepsBalance(old(root.model).left, root.model.left, cfg)
      decreases Nodes(root.model.left), 6
    {
      var l;
      l, m := DeleteByRange(root.left, b, MayRebuild(allowRebuild, root.left), isDownsample);
      root.SetLeft(l);
    }

    method DeleteInRight(root: KdNode, b: Box, allowRebuild: bool, isDownsample: bool) returns (n: int)
      requires root.Valid() && Sound(Model(root.right))
      modifies root.Repr, `rebuildPtr, `pointsDeleted
      ensures root.Valid() && fresh(root.Repr - old(root.Repr))
      ensures LosesNone(old(root.model).right, old(pointsDeleted), root.model.right, pointsDeleted, isDownsample)
      ensures root.d == old(root.d) && root.model == Node(root.d, old(root.model).left, root.model.right)
      ensures Sound(root.model.right) && Deleted(old(root.model).right, b, root.model.right, n)
      ensures old(root.model).right.Nil? ==> root.model.right.Nil?
      ensures !allowRebuild ==>
                (root.model.right, n) == Delete(old(root.model).right, b, isDownsample)
                    && pointsDeleted == old(pointsDeleted)
      ensures old(rebuildPtr != null && root.right == rebuildPtr) ==>
                (root.model.right, n) == Delete(old(root.model).right, b, isDownsample)
                    && pointsDeleted == old(pointsDeleted)
      ensures allowRebuild && old(Immediate(Size(root.model.right))) ==>
                rebuildPtr == null && KeepsBalance(old(root.model).right, root.model.right, cfg)
      decreases Nodes(root.model.right), 6
    {
      var r;
      r, n := DeleteByRange(root.right, b, MayRebuild(allowRebuild, root.right), isDownsample);
      root.SetRight(r);
    }

    // ---- Public operations ----

    /** Replaces the whole map. */
    method Build(pointCloud: seq<Point>)
      requires Valid()
      modifies `rootNode
      ensures Valid() && Map() == multiset(pointCloud)
      ensures rootNode != null ==> fresh(rootNode.Repr)
      ensures rootNode == null <==> pointCloud == []
      ensures Inv(Model(rootNode)) && Size(Model(rootNode)) == |pointCloud|
      ensures (cfg.Fair() ==> Balanced(Model(rootNode), cfg)) && Lean(Model(rootNode), cfg)
      ensures Removed(Model(rootNode)) == multiset{} && pointsDeleted == old(pointsDeleted)
    {
      rootNode := BuildTree(pointCloud);
      RebuiltSound(Model(rootNode), multiset(pointCloud));
      OpenBuilt(Model(rootNode), multiset(pointCloud));
      WellBuiltMeaning(Model(rootNode));
      WellBuiltInv(Model(rootNode));
      RebuiltBalanced(Model(rootNode), multiset(pointCloud), cfg);
    }

    method Validnum() returns (n: int)
      requires Valid()
      ensures n == |Map()|
    {
      LiveCountExact(Model(rootNode));
      n := if rootNode == null then 0 else rootNode.d.size - rootNode.d.invalid;
    }

    method BoxSearch(b: Box) returns (found: seq<Point>)
      requires Valid()
      modifies ReprOf(rootNode)
      ensures Valid() && Map() == old(Map())
      ensures LosesNone(old(Model(rootNode)), pointsDeleted, Model(rootNode), pointsDeleted, false)
      ensures ReprOf(rootNode) == old(ReprOf(rootNode)) && Size(Model(rootNode)) == old(Size(Model(rootNode)))
      ensures multiset(found) == Within(Map(), b)
      ensures KeepsBalance(old(Model(rootNode)), Model(rootNode), cfg)
              && KeepsCounters(old(Model(rootNode)), Model(rootNode))
    {
      ghost var t := Model(rootNode);
      found := SearchByRange(rootNode, b, []);
      SearchKeeps(t, Model(rootNode), cfg);
      WalkConserves(t, Model(rootNode), pointsDeleted, false);
      OpenWithin(t, b, [], found);
    }

    method NearestSearch(point: Point, k: nat, maxDist: Option<int>) returns (points: seq<Point>, dists: seq<int>)
      requires Valid() && k >= 1
      modifies ReprOf(rootNode)
      ensures Valid() && Map() == old(Map())
      ensures LosesNone(old(Model(rootNode)), pointsDeleted, Model(rootNode), pointsDeleted, false)
      ensures ReprOf(rootNode) == old(ReprOf(rootNode)) && Size(Model(rootNode)) == old(Size(Model(rootNode)))
      ensures |dists| == |points| && forall i :: 0 <= i < |points| ==> IsSquaredDistance(dists[i], point, points[i])
      ensures forall i, j :: 0 <= i < j < |dists| ==> dists[i] <= dists[j]
      ensures AreNearest(points, Map(), point, k, maxDist)
      ensures KeepsBalance(old(Model(rootNode)), Model(rootNode), cfg)
              && KeepsCounters(old(Model(rootNode)), Model(rootNode))
    {
      ghost var t := Model(rootNode);
      points, dists := Knn.NearestSearch(rootNode, point, k, maxDist);
      SearchKeeps(t, Model(rootNode), cfg);
      WalkConserves(t, Model(rootNode), pointsDeleted, false);
    }

    /** Inserts one point without downsampling. */
    method AddPoint(p: Point)
      requires Valid() && rootNode != null
      modifies this, ReprOf(rootNode)
      ensures Valid() && rootNode != null && fresh(rootNode.Repr - old(rootNode.Repr))
      ensures GainsOne(old(rootNode.model), old(pointsDeleted), rootNode.model, pointsDeleted, p)
      ensures Map() == old(Map()) + multiset{p}
      ensures Size(rootNode.model) <= old(Size(rootNode.model)) + 1
              && KeepsCounters(old(rootNode.model), rootNode.model)
      ensures old(Immediate(Size(rootNode.model) + 1)) ==>
                rebuildPtr == null && KeepsBalance(old(rootNode.model), rootNode.model, cfg)
    {
      ghost var t := rootNode.model;
      InsertAtRoot(p);
      OpenAdded(t, p, rootNode.model);
    }

    method InsertAtRoot(p: Point)
      requires Valid() && rootNode != null
      modifies this, ReprOf(rootNode)
      ensures GainsOne(old(rootNode.model), old(pointsDeleted), Model(rootNode), pointsDeleted, p)
      ensures rootNode != null && rootNode.Valid() && fresh(rootNode.Repr - old(rootNode.Repr))
      ensures Sound(rootNode.model) && Added(old(rootNode.model), p, rootNode.model)
      ensures old(Immediate(Size(rootNode.model) + 1)) ==>
                rebuildPtr == null && KeepsBalance(old(rootNode.model), rootNode.model, cfg)
    {
      rootNode := AddByPoint(rootNode, p, MayRebuild(true, rootNode), rootNode.d.axis);
    }

    /** Deletes the live points of one box; the result is the number of points deleted. */
    method DeleteBox(b: Box, isDownsample: bool) returns (count: int)
      requires Valid()
      modifies this, ReprOf(rootNode)
      ensures Valid() && (rootNode == null <==> old(rootNode) == null)
      ensures LosesNone(old(Model(rootNode)), old(pointsDeleted), Model(rootNode), pointsDeleted, isDownsample)
      ensures fresh(ReprOf(rootNode) - old(ReprOf(rootNode)))
      ensures Map() == Outside(old(Map()), b) && count == |old(Map())| - |Map()|
      ensures Size(Model(rootNode)) <= old(Size(Model(rootNode)))
              && KeepsCounters(old(Model(rootNode)), Model(rootNode))
      ensures old(Immediate(Size(Model(rootNode)))) ==>
                rebuildPtr == null && KeepsBalance(old(Model(rootNode)), Model(rootNode), cfg)
    {
      ghost var t := Model(rootNode);
      rootNode, count := DeleteByRange(rootNode, b, MayRebuild(true, rootNode), isDownsample);
      OpenDeleted(t, b, Model(rootNode), count);
    }

    method DeletePointBoxes(boxes: seq<Box>) returns (count: int)
      requires Valid()
      modifies this, ReprOf(rootNode)
      ensures Valid() && (rootNode == null <==> old(rootNode) == null)
      ensures LosesNone(old(Model(rootNode)), old(pointsDeleted), Model(rootNode), pointsDeleted, false)
      ensures fresh(ReprOf(rootNode) - old(ReprOf(rootNode)))
      ensures Map() == OutsideAll(old(Map()), boxes) && count == |old(Map())| - |Map()|
      ensures Size(Model(rootNode)) <= old(Size(Model(rootNode)))
              && KeepsCounters(old(Model(rootNode)), Model(rootNode))
      ensures old(Immediate(Size(Model(rootNode)))) ==>
                rebuildPtr == null && KeepsBalance(old(Model(rootNode)), Model(rootNode), cfg)
    {
      count := 0;
      assert boxes[..0] == [];
      ghost var t := Model(rootNode);
      KeepsBalanceSelf(t, cfg);
      CountersTrans(t, t, t);
      ConservesSelf(t, pointsDeleted, false);
      for i := 0 to |boxes|
        invariant Valid() && (rootNode == null <==> old(rootNode) == null)
        invariant fresh(ReprOf(rootNode) - old(ReprOf(rootNode)))
        invariant Map() == OutsideAll(old(Map()), boxes[..i]) && count == |old(Map())| - |Map()|
        invariant LosesNone(t, old(pointsDeleted), Model(rootNode), pointsDeleted, false)
        invariant Size(Model(rootNode)) <= old(Size(Model(rootNode))) && KeepsCounters(t, Model(rootNode))
        invariant old(Immediate(Size(Model(rootNode)))) ==> rebuildPtr == null && KeepsBalance(t, Model(rootNode), cfg)
      {
        ghost var u, records := Model(rootNode), pointsDeleted;
        var n := DeleteBox(boxes[i], false);
        LosesNoneTrans(t, old(pointsDeleted), u, records, Model(rootNode), pointsDeleted);
        KeepsBalanceTrans(t, u, Model(rootNode), cfg);
        CountersTrans(t, u, Model(rootNode));
        count := count + n;
        OutsideAllStep(old(Map()), boxes, i);
      }
      assert boxes[..|boxes|] == boxes;
    }

    /** The point of the cell nearest its centre, among the points found there and the new one. */
    method PickNearestCentre(p: Point, found: seq<Point>, b: Box) returns (r: Point)
      ensures NearestCentre(r, multiset(found) + multiset{p}, b)
      ensures r == p || (r in found && CentreDist(r, b) < CentreDist(p, b))
    {
      r := p;
      var minDist := CentreDist(p, b);
      for i := 0 to |found|
        invariant minDist == CentreDist(r, b) <= CentreDist(p, b)
        invariant r == p || (r in found && CentreDist(r, b) < CentreDist(p, b))
        invariant forall j :: 0 <= j < i ==> CentreDist(r, b) <= CentreDist(found[j], b)
      {
        var d := CentreDist(found[i], b);
        if d < minDist {
          minDist, r := d, found[i];
        }
      }
    }

    /** Inserts one point with downsampling; the result says whether the tree was edited. */
    method AddDownsampled(p: Point) returns (edited: bool)
      requires Valid() && rootNode != null
      modifies this, ReprOf(rootNode)
      ensures Valid() && rootNode != null && fresh(rootNode.Repr - old(rootNode.Repr))
      ensures EditStep(old(Map()), Insert(p), Map(), downsampleSize)
      ensures edited <==> NeedsEdit(old(Map()), p, downsampleSize)
      ensures !edited ==> Map() == old(Map())
      ensures RecordsNothing(old(rootNode.model), old(pointsDeleted), rootNode.model, pointsDeleted)
      ensures Size(rootNode.model) <= old(Size(rootNode.model)) + 1
              && KeepsCounters(old(rootNode.model), rootNode.model)
      ensures old(Immediate(Size(rootNode.model) + 1)) ==>
                rebuildPtr == null && KeepsBalance(old(rootNode.model), rootNode.model, cfg)
    {
      ghost var S, t, P := Map(), rootNode.model, pointsDeleted;
      var b, found, r := PickInCell(p);
      ghost var u := rootNode.model;
      PickedEdits(S, p, found, r, b, downsampleSize);
      edited := |found| > 1 || r == p;
      if edited {
        ReplaceCell(b, |found| > 0, r);
        RecordsNothingTrans(t, P, u, P, rootNode.model, pointsDeleted);
      }
      KeepsBalanceTrans(t, u, rootNode.model, cfg);
      CountersTrans(t, u, rootNode.model);
      PickedDownsampled(S, p, found, r, b, Map(), edited, downsampleSize);
    }

    /** The cell of a point, the points found in it and the one to keep. */
    method PickInCell(p: Point) returns (b: Box, found: seq<Point>, r: Point)
      requires Valid() && rootNode != null
      modifies rootNode.Repr
      ensures Valid() && rootNode.Repr == old(rootNode.Repr) && Map() == old(Map())
      ensures Size(rootNode.model) == old(Size(rootNode.model))
              && KeepsBalance(old(rootNode.model), rootNode.model, cfg)
      ensures KeepsCounters(old(rootNode.model), rootNode.model)
      ensures RecordsNothing(old(rootNode.model), pointsDeleted, rootNode.model, pointsDeleted)
      ensures Picked(Map(), p, found, r, b, downsampleSize)
    {
      ghost var t := rootNode.model;
      b := FindCell(p, downsampleSize);
      found := BoxSearch(b);
      WalkRecordsNothing(t, pointsDeleted, rootNode.model);
      r := PickNearestCentre(p, found, b);
    }

    /** Deletes the points of the cell, if there are any, and inserts the chosen one. */
    method ReplaceCell(b: Box, occupied: bool, r: Point)
      requires Valid() && rootNode != null
      modifies this, ReprOf(rootNode)
      ensures Valid() && rootNode != null && fresh(rootNode.Repr - old(rootNode.Repr))
      ensures Replaced(old(Map()), b, occupied, r, Map())
      ensures RecordsNothing(old(rootNode.model), old(pointsDeleted), rootNode.model, pointsDeleted)
      ensures Size(rootNode.model) <= old(Size(rootNode.model)) + 1
              && KeepsCounters(old(rootNode.model), rootNode.model)
      ensures old(Immediate(Size(rootNode.model) + 1)) ==>
                rebuildPtr == null && KeepsBalance(old(rootNode.model), rootNode.model, cfg)
    {
      ghost var t, S, P := rootNode.model, Map(), pointsDeleted;
      if occupied {
        var n := DeleteBox(b, true);
      } else {
        KeepsBalanceSelf(t, cfg);
        ConservesSelf(t, P, true);
      }
      ghost var t1, M, Q := rootNode.model, Map(), pointsDeleted;
      AddPoint(r);
      ReplacedBy(S, b, occupied, r, M, Map());
      ReplacedRecordsNothing(t, P, t1, Q, r, rootNode.model, pointsDeleted);
      KeepsBalanceTrans(t, t1, rootNode.model, cfg);
      CountersTrans(t, t1, rootNode.model);
    }

    method AddPointsPlain(points: seq<Point>)
      requires Valid() && rootNode != null
      modifies this, ReprOf(rootNode)
      ensures Valid() && rootNode != null && fresh(rootNode.Repr - old(rootNode.Repr))
      ensures Map() == old(Map()) + multiset(points)
      ensures Conserves(old(rootNode.model), old(pointsDeleted), rootNode.model, pointsDeleted, multiset(points), false)
      ensures Size(rootNode.model) <= old(Size(rootNode.model)) + |points|
              && KeepsCounters(old(rootNode.model), rootNode.model)
      ensures old(Immediate(Size(rootNode.model) + |points|)) ==>
                rebuildPtr == null && KeepsBalance(old(rootNode.model), rootNode.model, cfg)
    {
      KeepsBalanceSelf(rootNode.model, cfg);
      CountersTrans(rootNode.model, rootNode.model, rootNode.model);
      ghost var added: multiset<Point> := multiset{};
      ConservesSelf(rootNode.model, pointsDeleted, false);
      OpenLosesNone(rootNode.model, pointsDeleted, rootNode.model, pointsDeleted, false);
      for i := 0 to |points|
        invariant Valid() && rootNode != null && fresh(rootNode.Repr - old(rootNode.Repr))
        invariant Size(rootNode.model) <= old(Size(rootNode.model)) + i
                  && KeepsCounters(old(rootNode.model), rootNode.model)
        invariant added == multiset(points[..i]) && Map() == old(Map()) + added
        invariant Conserves(old(rootNode.model), old(pointsDeleted), rootNode.model, pointsDeleted, added, false)
        invariant old(Immediate(Size(rootNode.model) + |points|)) ==>
                    rebuildPtr == null && KeepsBalance(old(rootNode.model), rootNode.model, cfg)
      {
        ghost var t, records := rootNode.model, pointsDeleted;
        AddPoint(points[i]);
        OpenGainsOne(t, records, rootNode.model, pointsDeleted, points[i]);
        ConservesTrans(old(rootNode.model), old(pointsDeleted), t, records, added, rootNode.model, pointsDeleted,
                       multiset{points[i]}, false, false);
        KeepsBalanceTrans(old(rootNode.model), t, rootNode.model, cfg);
        CountersTrans(old(rootNode.model), t, rootNode.model);
        PrefixStep(points, i);
        added := added + multiset{points[i]};
      }
      PrefixWhole(points);
    }

    /** Inserts points one after another; `states` are the maps before, between and after the insertions. */
    method AddPointsDownsampled(points: seq<Point>) returns (count: int, ghost states: seq<multiset<Point>>)
      requires Valid() && rootNode != null
      modifies this, ReprOf(rootNode)
      ensures Valid() && rootNode != null && fresh(rootNode.Repr - old(rootNode.Repr))
      ensures EditRun(states, Insertions(points), downsampleSize)
      ensures states[0] == old(Map()) && states[|points|] == Map()
      ensures count == EditCount(states, points, downsampleSize)
      ensures RecordsNothing(old(rootNode.model), old(pointsDeleted), rootNode.model, pointsDeleted)
      ensures Size(rootNode.model) <= old(Size(rootNode.model)) + |points|
              && KeepsCounters(old(rootNode.model), rootNode.model)
      ensures old(Immediate(Size(rootNode.model) + |points|)) ==>
                rebuildPtr == null && KeepsBalance(old(rootNode.model), rootNode.model, cfg)
    {
      KeepsBalanceSelf(rootNode.model, cfg);
      CountersTrans(rootNode.model, rootNode.model, rootNode.model);
      InsertedNone(Map(), downsampleSize);
      RecordsNothingSelf(rootNode.model, pointsDeleted);
      count, states := 0, [Map()];
      for i := 0 to |points|
        invariant Valid() && rootNode != null && fresh(rootNode.Repr - old(rootNode.Repr))
        invariant Size(rootNode.model) <= old(Size(rootNode.model)) + i
                  && KeepsCounters(old(rootNode.model), rootNode.model)
        invariant Inserted(states, points[..i], old(Map()), Map(), downsampleSize, count)
        invariant RecordsNothing(old(rootNode.model), old(pointsDeleted), rootNode.model, pointsDeleted)
        invariant old(Immediate(Size(rootNode.model) + |points|)) ==>
                    rebuildPtr == null && KeepsBalance(old(rootNode.model), rootNode.model, cfg)
      {
        ghost var t, T, P := rootNode.model, Map(), pointsDeleted;
        var edited := AddDownsampled(points[i]);
        RecordsNothingTrans(old(rootNode.model), old(pointsDeleted), t, P, rootNode.model, pointsDeleted);
        KeepsBalanceTrans(old(rootNode.model), t, rootNode.model, cfg);
        CountersTrans(old(rootNode.model), t, rootNode.model);
        PrefixStep(points, i);
        InsertedMore(states, points[..i], points[i], old(Map()), T, Map(), downsampleSize, count, edited);
        states := states + [Map()];
        if edited {
          count := count + 1;
        }
      }
      PrefixWhole(points);
      OpenInserted(states, points, old(Map()), Map(), downsampleSize, count);
    }
  }
}
