/**
  Rebuilding large subtrees of the map in a second thread: snapshot, build, replay of the logged operations,
  swap, and Update of nodes above. The state holds the whole map; one step is one critical section of either
  thread, and any number of rebuilds may follow each other. After a swap the counters above the new subtree
  may be out of date for as long as nothing updates them.
 */
module BackgroundRebuild {
  import opened Options
  import opened Sequences
  import opened Geometry
  import opened TreeModel
  import opened PushWalk
  import opened StaleTrees
  import opened TreeWays
  import opened Operations
  import opened MapWalks
  import opened TreeBuilder
  import opened KdSpec
  import opened TreeOps

  datatype Phase =
    | Waiting
    | Building(snapshot: seq<Point>)
    | Replaying(rebuilt: Tree, inFlight: seq<Operation>)

  /** `pointer` is the place of Rebuild_Ptr in the map; the log is written only while `rebuildFlag` is up. */
  datatype State = State(tree: Tree, pointer: Option<Way>, rebuildFlag: bool, log: seq<Operation>, phase: Phase)

  datatype Step =
    /** The main thread inserts a point or deletes a box, walking down from the root. */
    | Edit(e: Operation)
    /** An edit or a search pushes down at one node. */
    | PushDownAt(w: Way)
    /** The main thread asks for a rebuild of the subtree at `w`. */
    | Register(w: Way)
    /** The main thread rebuilds a small subtree at once. */
    | RebuildSmall(w: Way)
    /** The main thread after a rebuild of its own, or the rebuild thread after a swap, updates a node above it. */
    | Refresh(w: Way)
    /** Flattening under the working mutex. */
    | Snapshot
    /** Building the new subtree from the snapshot, without a lock. */
    | Build
    /** Taking one operation from the log under both mutexes. */
    | PopOperation
    /** Running it on the new subtree, without a lock. */
    | RunPopped
    /** Putting the new subtree in place once the log was found empty, under the working mutex. */
    | Swap

  predicate PointsInto(s: State) {
    s.pointer.Some? && Leads(s.tree, s.pointer.value)
  }

  /** The subtree Rebuild_Ptr designates. */
  function Visible(s: State): Tree
    requires PointsInto(s)
  {
    At(s.tree, s.pointer.value)
  }

  /**
    The state after the main thread has turned the map into `tree`, and thereby applied `ops` to the designated
    subtree: they are logged if the flag is up, and a subtree found to be small is no longer designated.
   */
  function Logged(s: State, tree: Tree, ops: seq<Operation>, threshold: nat): State {
    var t := s.(tree := tree);
    if !PointsInto(t) then t
    else t.(log := if s.rebuildFlag then s.log + ops else s.log,
            pointer := if Size(Visible(t)) < threshold then None else s.pointer)
  }

  /** The operations a step applies to the designated subtree. */
  function Reaching(s: State, step: Step): seq<Operation>
    requires s.tree.Node?
  {
    match step
    case Edit(e) => if PointsInto(s) then WalkOps(s.tree, s.pointer.value, e) else []
    case PushDownAt(w) => if PointsInto(s) && Leads(s.tree, w) then PushAtOps(s.tree, w, s.pointer.value) else []
    case _ => []
  }

  /** The place is not inside the designated subtree. */
  predicate OutsidePointer(s: State, w: Way) {
    s.pointer.Some? ==> Below(w, s.pointer.value).None?
  }

  ghost predicate Next(s: State, step: Step, s': State, threshold: nat) {
    s.tree.Node? && match step
    case Edit(e) => IsEdit(e) && s' == Logged(s, RunOperation(s.tree, e), Reaching(s, step), threshold)
    case PushDownAt(w) =>
      Leads(s.tree, w) && s' == Logged(s, Plug(s.tree, w, PushDown(At(s.tree, w))), Reaching(s, step), threshold)
    case Register(w) =>
      && s.phase.Waiting? && Leads(s.tree, w) && Size(At(s.tree, w)) >= threshold
      && s' == s.(pointer := Some(w))
    case RebuildSmall(w) =>
      && Leads(s.tree, w) && OutsidePointer(s, w) && !Dead(At(s.tree, w)) && Size(At(s.tree, w)) < threshold
      && s' == s.(tree := s'.tree) && Replaced(s.tree, w, s'.tree)
    case Refresh(w) => Leads(s.tree, w) && OutsidePointer(s, w)
        && s' == s.(tree := Plug(s.tree, w, Update(At(s.tree, w))))
    case Snapshot =>
      && s.phase.Waiting? && PointsInto(s) && s'.phase.Building?
      && s' == State(s'.tree, s.pointer, true, s.log, s'.phase)
      && Flattened(s.tree, s.pointer.value, s'.tree, s'.phase.snapshot)
    case Build =>
      && s.phase.Building? && s.phase.snapshot != []
      && s'.phase.Replaying? && s'.phase.inFlight == []
      && BuiltOver(s'.phase.rebuilt, multiset(s.phase.snapshot))
      && s' == s.(phase := s'.phase)
    case PopOperation =>
      && s.phase.Replaying? && s.phase.inFlight == [] && s.log != []
      && s' == s.(log := s.log[1..], phase := s.phase.(inFlight := [s.log[0]]))
    case RunPopped =>
      && s.phase.Replaying? && |s.phase.inFlight| == 1 && s.phase.rebuilt.Node?
      && s' == s.(phase := Replaying(RunOperation(s.phase.rebuilt, s.phase.inFlight[0]), []))
    case Swap =>
      && s.phase.Replaying? && s.phase.inFlight == [] && s.log == [] && PointsInto(s)
      && s' == State(Plug(s.tree, s.pointer.value, s.phase.rebuilt), None, false, [], Waiting)
  }

  /** The subtree at the place rebuilt over its own live points. */
  ghost predicate Replaced(t: Tree, w: Way, u: Tree)
    requires Leads(t, w)
  {
    exists v :: BuiltOver(v, Live(At(t, w))) && u == Plug(t, w, v)
  }

  /** A walk over the subtree at the place that pushes down and reports the live points. */
  ghost predicate Flattened(t: Tree, w: Way, u: Tree, points: seq<Point>)
    requires Leads(t, w)
  {
    exists v :: Pushes(At(t, w), v) && u == Plug(t, w, v) && multiset(points) == Live(At(t, w))
  }

  // ---- What every reachable state keeps ----

  /**
    `t` is a tree from which `ops` lead to the points of `v`, with exact sizes, no more nodes than `v` and no other
    points.
   */
  ghost predicate Replays(t: Tree, ops: seq<Operation>, v: Tree) {
    && Counted(t) && Nodes(t) + Adds(ops) <= Nodes(v) && Stored(t) + NewPoints(ops) <= Stored(v)
    && exists R :: Holds(t, R) && OpsLive(R, ops) == Live(v)
  }

  /** The same before the tree is built. */
  ghost predicate SnapshotReplays(snapshot: seq<Point>, ops: seq<Operation>, v: Tree) {
    && OpsLive(multiset(snapshot), ops) == Live(v) && |snapshot| + Adds(ops) <= Nodes(v)
    && (forall p :: p in multiset(snapshot) ==> p in Stored(v)) && NewPoints(ops) <= Stored(v)
  }

  /**
    Replaying the operation in flight and then the log on the new subtree, or on the snapshot, gives the points of `v`.
   */
  ghost predicate Corresponds(v: Tree, log: seq<Operation>, phase: Phase) {
    && AllReplayable(log)
    && match phase
       case Waiting => log == []
       case Building(snapshot) => SnapshotReplays(snapshot, log, v)
       case Replaying(rebuilt, inFlight) =>
         |inFlight| <= 1 && AllReplayable(inFlight) && Replays(rebuilt, inFlight + log, v)
  }

  /**
    The map is usable, in k-d order, and stands for the points `S`. A subtree designated for rebuilding corresponds to
    what is being built.
   */
  ghost predicate Consistent(s: State, S: multiset<Point>, threshold: nat) {
    && Holds(s.tree, S)
    && (s.rebuildFlag <==> !s.phase.Waiting?)
    && (s.phase.Waiting? ==> s.log == [])
    && (s.pointer.Some? ==>
          PointsInto(s) && Size(Visible(s)) >= threshold && Corresponds(Visible(s), s.log, s.phase))
  }

  ghost predicate Initial(s: State, S: multiset<Point>) {
    Holds(s.tree, S) && s.pointer.None? && !s.rebuildFlag && s.log == [] && s.phase.Waiting?
  }

  // ---- The designated subtree ----

  lemma {:induction false} VisibleUsable(s: State, S: multiset<Point>, threshold: nat)
    requires Consistent(s, S, threshold) && s.pointer.Some?
    ensures Holds(Visible(s), Live(Visible(s)))
  {
    PartHolds(s.tree, s.pointer.value, S);
  }

  lemma {:induction false} PartHolds(t: Tree, w: Way, S: multiset<Point>)
    requires Holds(t, S) && Leads(t, w)
    ensures Holds(At(t, w), Live(At(t, w))) && Usable(At(t, w)) && Ordered(At(t, w))
  {
    OpenHolds(t, S);
    AboveIsLarger(t, w);
    AtOrdered(t, w);
  }

  /** What reaches a subtree of two or more points may be replayed later: a push onto it is a whole-subtree delete. */
  lemma {:induction false} PushReplayable(v: Tree, ops: seq<Operation>)
    requires v.Node? && v.d.size > 1 && AllPerformed(v, ops) && OnePush(ops)
    ensures AllReplayable(ops)
  {
  }

  lemma {:induction false} LogGrows(R: multiset<Point>, pending: seq<Operation>, log: seq<Operation>,
                                    ops: seq<Operation>)
    ensures OpsLive(R, pending + (log + ops)) == OpsLive(OpsLive(R, pending + log), ops)
    ensures Adds(pending + (log + ops)) == Adds(pending + log) + Adds(ops)
    ensures NewPoints(pending + (log + ops)) == NewPoints(pending + log) + NewPoints(ops)
  {
    Assoc(pending, log, ops);
    OpsLiveConcat(R, pending + log, ops);
    NewPointsConcat(pending + log, ops);
  }

  /** `v'` is what `ops` make of `v`. */
  ghost predicate Applies(v: Tree, ops: seq<Operation>, v': Tree) {
    && Live(v') == OpsLive(Live(v), ops)
    && Nodes(v') == Nodes(v) + Adds(ops) && Stored(v') == Stored(v) + NewPoints(ops)
  }

  lemma {:induction false} SnapshotLogs(snapshot: seq<Point>, log: seq<Operation>, v: Tree, ops: seq<Operation>,
                                        v': Tree)
    requires SnapshotReplays(snapshot, log, v) && Applies(v, ops, v')
    ensures SnapshotReplays(snapshot, log + ops, v')
  {
    assert [] + log == log && [] + (log + ops) == log + ops;
    LogGrows(multiset(snapshot), [], log, ops);
  }

  lemma {:induction false} ReplayLogs(t: Tree, pending: seq<Operation>, log: seq<Operation>, v: Tree,
                                      ops: seq<Operation>, v': Tree)
    requires Replays(t, pending + log, v) && Applies(v, ops, v')
    ensures Replays(t, pending + (log + ops), v')
  {
    var R :| Holds(t, R) && OpsLive(R, pending + log) == Live(v);
    LogGrows(R, pending, log, ops);
  }

  /** Operations that reach the designated subtree and are logged keep the correspondence. */
  lemma {:induction false} LoggedCorresponds(v: Tree, log: seq<Operation>, phase: Phase, ops: seq<Operation>)
    requires Holds(v, Live(v)) && Corresponds(v, log, phase) && AllPerformed(v, ops) && AllReplayable(ops)
    ensures Corresponds(RunAll(v, ops), if phase.Waiting? then log else log + ops, phase)
  {
    RunAllMeaning(v, ops, Live(v));
    OpenHolds(RunAll(v, ops), OpsLive(Live(v), ops));
    RunAllNodes(v, ops);
    RunAllStored(v, ops);
    match phase
    case Waiting =>
    case Building(snapshot) => SnapshotLogs(snapshot, log, v, ops, RunAll(v, ops));
    case Replaying(rebuilt, inFlight) => ReplayLogs(rebuilt, inFlight, log, v, ops, RunAll(v, ops));
  }

  /** The same live points, nodes and stored points. */
  ghost predicate SamePoints(u: Tree, v: Tree) {
    Live(u) == Live(v) && Nodes(u) == Nodes(v) && Stored(u) == Stored(v)
  }

  /** A change inside the designated subtree that moves no points and no nodes. */
  lemma {:induction false} SameCorresponds(v: Tree, v': Tree, log: seq<Operation>, phase: Phase)
    requires Corresponds(v, log, phase) && SamePoints(v', v)
    ensures Corresponds(v', log, phase)
  {
  }

  // ---- The main thread ----

  /** The main thread has changed the map, and applied `ops` to the designated subtree. */
  lemma {:induction false} ReachingKeeps(s: State, tree: Tree, ops: seq<Operation>, S: multiset<Point>,
                                         T: multiset<Point>, threshold: nat)
    requires Consistent(s, S, threshold) && s.pointer.Some? && Holds(tree, T) && threshold > 1
    requires Leads(tree, s.pointer.value) && At(tree, s.pointer.value) == RunAll(Visible(s), ops)
    requires AllPerformed(Visible(s), ops) && OnePush(ops)
    ensures Consistent(Logged(s, tree, ops, threshold), T, threshold)
  {
    VisibleUsable(s, S, threshold);
    PushReplayable(Visible(s), ops);
    LoggedCorresponds(Visible(s), s.log, s.phase, ops);
  }

  /** The map has changed, and the designated subtree stands for the same points with the same number of nodes. */
  lemma {:induction false} QuietKeeps(s: State, tree: Tree, S: multiset<Point>, T: multiset<Point>, threshold: nat)
    requires Consistent(s, S, threshold) && s.pointer.Some? && Holds(tree, T)
    requires Leads(tree, s.pointer.value) && SamePoints(At(tree, s.pointer.value), Visible(s))
    ensures Consistent(Logged(s, tree, [], threshold), T, threshold)
  {
    SameCorresponds(Visible(s), At(tree, s.pointer.value), s.log, s.phase);
    assert s.log + [] == s.log;
  }

  lemma {:induction false} EditKeeps(s: State, e: Operation, s': State, S: multiset<Point>, threshold: nat)
    requires Consistent(s, S, threshold) && Next(s, Edit(e), s', threshold) && threshold > 1
    ensures Consistent(s', OpLive(S, e), threshold)
  {
    var tree := RunOperation(s.tree, e);
    OperationMeaning(s.tree, e, S);
    if s.pointer.Some? {
      OpenHolds(s.tree, S);
      WalkAt(s.tree, s.pointer.value, e);
      WalkPerformed(s.tree, s.pointer.value, e);
      WalkOnePush(s.tree, s.pointer.value, e);
      ReachingKeeps(s, tree, Reaching(s, Edit(e)), S, OpLive(S, e), threshold);
    }
  }

  lemma {:induction false} PushedStandsFor(n: Tree)
    requires n.Node? && Usable(n) && Ordered(n)
    ensures MayReplace(PushDown(n), n) && SamePoints(PushDown(n), n)
  {
    PushDownKeepsUsable(n);
    PushDownKeepsMeaning(n);
    PushDownKeepsShape(n);
  }

  /** Replacing a subtree by another one for the same points keeps the points of the map. */
  lemma {:induction false} PlugHolds(t: Tree, w: Way, u: Tree, S: multiset<Point>)
    requires Holds(t, S) && Leads(t, w) && MayReplace(u, At(t, w))
    ensures Holds(Plug(t, w, u), S)
  {
    OpenHolds(t, S);
    PlugKeepsUsable(t, w, u);
    PlugKeepsOrder(t, w, u);
  }

  lemma {:induction false} PushHolds(t: Tree, w: Way, S: multiset<Point>)
    requires Holds(t, S) && Leads(t, w)
    ensures Holds(Plug(t, w, PushDown(At(t, w))), S)
  {
    PartHolds(t, w, S);
    PushedStandsFor(At(t, w));
    PlugHolds(t, w, PushDown(At(t, w)), S);
  }

  lemma {:induction false} PushKeeps(s: State, w: Way, s': State, S: multiset<Point>, threshold: nat)
    requires Consistent(s, S, threshold) && Next(s, PushDownAt(w), s', threshold) && threshold > 1
    ensures Consistent(s', S, threshold)
  {
    var tree, ops := Plug(s.tree, w, PushDown(At(s.tree, w))), Reaching(s, PushDownAt(w));
    PushHolds(s.tree, w, S);
    if s.pointer.Some? {
      var way := s.pointer.value;
      OpenHolds(s.tree, S);
      if Below(w, way).Some? {
        NoOpsFromInside(s.tree, w, way);
        PushInside(s.tree, w, way, S);
        QuietKeeps(s, tree, S, S, threshold);
      } else {
        PushAt(s.tree, w, way);
        ReachingKeeps(s, tree, ops, S, S, threshold);
      }
    }
  }

  /** A push inside a subtree moves no points and no nodes of it. */
  lemma {:induction false} PushInside(t: Tree, w: Way, way: Way, S: multiset<Point>)
    requires Holds(t, S) && Leads(t, w) && Leads(t, way) && Below(w, way).Some?
    ensures var u := Plug(t, w, PushDown(At(t, w))); Leads(u, way) && SamePoints(At(u, way), At(t, way))
  {
    OpenHolds(t, S);
    PartHolds(t, w, S);
    PushedStandsFor(At(t, w));
    InsideSame(t, w, way, PushDown(At(t, w)));
  }

  /** A change inside a subtree that moves no points and no nodes. */
  lemma {:induction false} InsideSame(t: Tree, w: Way, way: Way, u: Tree)
    requires Usable(t) && Leads(t, w) && Leads(t, way) && Below(w, way).Some?
    requires MayReplace(u, At(t, w)) && SamePoints(u, At(t, w))
    ensures Leads(Plug(t, w, u), way) && SamePoints(At(Plug(t, w, u), way), At(t, way))
  {
    var x := Below(w, way).value;
    AboveIsLarger(t, way);
    PlugInside(t, w, way, u);
    PlugKeepsUsable(At(t, way), x, u);
    PlugNodes(At(t, way), x, u);
    PlugStored(At(t, way), x, u);
  }

  /** A subtree may be designated while nothing is being rebuilt. */
  lemma {:induction false} RegisterKeeps(s: State, w: Way, s': State, S: multiset<Point>, threshold: nat)
    requires Consistent(s, S, threshold) && Next(s, Register(w), s', threshold)
    ensures Consistent(s', S, threshold)
  {
  }

  /** A change outside the designated subtree, of a subtree too small to hold it or of a single node. */
  lemma {:induction false} OutsideKeeps(s: State, tree: Tree, S: multiset<Point>, threshold: nat)
    requires Consistent(s, S, threshold) && Holds(tree, S)
    requires s.pointer.Some? ==> Leads(tree, s.pointer.value) && At(tree, s.pointer.value) == Visible(s)
    ensures Consistent(s.(tree := tree), S, threshold)
  {
  }

  /** A small subtree does not hold the designated one, which is not small. */
  lemma {:induction false} SmallIsBeside(s: State, w: Way, S: multiset<Point>, threshold: nat)
    requires Consistent(s, S, threshold) && s.pointer.Some?
    requires Leads(s.tree, w) && Size(At(s.tree, w)) < threshold
    ensures Below(s.pointer.value, w).None?
  {
    OpenHolds(s.tree, S);
    if Below(s.pointer.value, w).Some? {
      LeadsBelow(s.tree, s.pointer.value, w);
      AboveIsLarger(s.tree, w);
      AboveIsLarger(At(s.tree, w), Below(s.pointer.value, w).value);
    }
  }

  /** A tree rebuilt over the live points of another one may take its place. */
  lemma {:induction false} BuiltStandsFor(v: Tree, t: Tree)
    requires t.Node? && Usable(t) && !Dead(t) && BuiltOver(v, Live(t))
    ensures MayReplace(v, t)
  {
    UsableFlags(t);
    LiveStored(t);
    BuiltHolds(v, Live(t));
    OpenHolds(v, Live(t));
    CountedSize(v);
    LiveWithinNodes(t);
    SizeCovers(t);
    if LoneLive(t) {
      OneBuiltLone(v, t);
    }
  }

  lemma {:induction false} OneBuiltLone(v: Tree, t: Tree)
    requires t.Node? && LoneLive(t) && BuiltOver(v, Live(t))
    ensures LoneLive(v)
  {
    LoneLiveMeaning(t, t.d);
    OpenBuilt(v, Live(t));
    BuiltSize(v);
    assert |Live(t)| == 1;
    OpenSplitWell(v.d, v.left, v.right);
    BuiltSize(v.left);
    BuiltSize(v.right);
  }

  lemma {:induction false} RebuildSmallKeeps(s: State, w: Way, s': State, S: multiset<Point>, threshold: nat)
    requires Consistent(s, S, threshold) && Next(s, RebuildSmall(w), s', threshold)
    ensures Consistent(s', S, threshold)
  {
    var v :| BuiltOver(v, Live(At(s.tree, w))) && s'.tree == Plug(s.tree, w, v);
    PartHolds(s.tree, w, S);
    BuiltStandsFor(v, At(s.tree, w));
    PlugHolds(s.tree, w, v, S);
    if s.pointer.Some? {
      SmallIsBeside(s, w, S, threshold);
      PlugBeside(s.tree, s.pointer.value, w, v);
    }
    OutsideKeeps(s, s'.tree, S, threshold);
  }

  // ---- Update of nodes above ----

  /** No delete is pending at the node over a living son. */
  predicate HarmlessRefresh(s: State, step: Step) {
    step.Refresh? && Leads(s.tree, step.w) ==> Harmless(At(s.tree, step.w))
  }

  lemma {:induction false} UpdateAt(t: Tree, w: Way, way: Way)
    requires Leads(t, w) && Leads(t, way) && Below(w, way).None?
    ensures var u := Plug(t, w, Update(At(t, w))); Leads(u, way) && At(u, way) == At(t, way)
  {
    var n := At(t, w);
    match Below(way, w)
    case None => PlugBeside(t, way, w, Update(n));
    case Some(x) =>
      LeadsBelow(t, way, w);
      if x.Here? {
        BelowBoth(way, w);
      }
      PlugAbove(t, way, w, Update(n));
  }

  lemma {:induction false} RefreshKeeps(s: State, w: Way, s': State, S: multiset<Point>, threshold: nat)
    requires Consistent(s, S, threshold) && Next(s, Refresh(w), s', threshold) && HarmlessRefresh(s, Refresh(w))
    ensures Consistent(s', S, threshold)
  {
    PartHolds(s.tree, w, S);
    UpdateHarmless(At(s.tree, w));
    UpdateKeepsShape(At(s.tree, w));
    PlugHolds(s.tree, w, Update(At(s.tree, w)), S);
    if s.pointer.Some? {
      UpdateAt(s.tree, w, s.pointer.value);
    }
    OutsideKeeps(s, s'.tree, S, threshold);
  }

  // ---- The rebuild thread ----

  lemma {:induction false} WalkedStandsFor(t: Tree, v: Tree)
    requires t.Node? && Usable(t) && Ordered(t) && Pushes(t, v)
    ensures MayReplace(v, t) && SamePoints(v, t) && Size(v) == Size(t)
  {
    PushesKeepOrder(t, v);
    PushesKeepMeaning(t, v);
    PushesKeepUsable(t, v);
    PushesRoot(t, v);
    if LoneLive(t) {
      assert v.left.Nil? && v.right.Nil?;
    }
  }

  lemma {:induction false} SnapshotStarts(snapshot: seq<Point>, v: Tree)
    requires multiset(snapshot) == Live(v)
    ensures SnapshotReplays(snapshot, [], v)
  {
    LiveWithinNodes(v);
    LiveStored(v);
    assert |snapshot| == |multiset(snapshot)|;
  }

  lemma {:induction false} SnapshotKeeps(s: State, s': State, S: multiset<Point>, threshold: nat)
    requires Consistent(s, S, threshold) && Next(s, Snapshot, s', threshold)
    ensures Consistent(s', S, threshold)
  {
    var way, t := s.pointer.value, Visible(s);
    var v :| Pushes(t, v) && s'.tree == Plug(s.tree, way, v);
    PartHolds(s.tree, way, S);
    WalkedStandsFor(t, v);
    PlugHolds(s.tree, way, v, S);
    PlugThere(s.tree, way, v);
    SnapshotStarts(s'.phase.snapshot, v);
  }

  lemma {:induction false} PlugThere(t: Tree, way: Way, u: Tree)
    requires Leads(t, way) && u.Node?
    ensures Leads(Plug(t, way, u), way) && At(Plug(t, way, u), way) == u
  {
    match way
    case Here =>
    case ToLeft(rest) =>
      PlugThere(t.left, rest, u);
      PlugPresent(t.left, rest, u);
    case ToRight(rest) =>
      PlugThere(t.right, rest, u);
      PlugPresent(t.right, rest, u);
  }

  lemma {:induction false} BuildKeeps(s: State, s': State, S: multiset<Point>, threshold: nat)
    requires Consistent(s, S, threshold) && Next(s, Build, s', threshold)
    ensures Consistent(s', S, threshold)
  {
    assert s.phase.snapshot[0] in multiset(s.phase.snapshot);
    BuiltHolds(s'.phase.rebuilt, multiset(s.phase.snapshot));
    assert [] + s.log == s.log;
  }

  lemma {:induction false} PopKeeps(s: State, s': State, S: multiset<Point>, threshold: nat)
    requires Consistent(s, S, threshold) && Next(s, PopOperation, s', threshold)
    ensures Consistent(s', S, threshold)
  {
    assert [] + s.log == [s.log[0]] + s.log[1..];
  }

  lemma {:induction false} ReplayOne(t: Tree, op: Operation, log: seq<Operation>, v: Tree)
    requires Replays(t, [op] + log, v) && Replayable(op)
    ensures t.Node? && Replays(RunOperation(t, op), log, v)
  {
    var R :| Holds(t, R) && OpsLive(R, [op] + log) == Live(v);
    assert ([op] + log)[0] == op && ([op] + log)[1..] == log;
    OperationMeaning(t, op, R);
    OperationNodes(t, op);
    OperationStored(t, op);
    OperationCounted(t, op);
  }

  lemma {:induction false} RunPoppedKeeps(s: State, s': State, S: multiset<Point>, threshold: nat)
    requires Consistent(s, S, threshold) && Next(s, RunPopped, s', threshold)
    ensures Consistent(s', S, threshold)
  {
    if s.pointer.Some? {
      var op := s.phase.inFlight[0];
      assert s.phase.inFlight == [op];
      ReplayOne(s.phase.rebuilt, op, s.log, Visible(s));
      assert [] + s.log == s.log;
    }
  }

  /** Once nothing is left to replay, the new subtree stands for the points of the designated one, in no more nodes. */
  lemma {:induction false} ReplayedStandsFor(t: Tree, v: Tree)
    requires Replays(t, [], v) && v.Node? && Usable(v) && v.d.size > 1
    ensures MayReplace(t, v)
  {
    var R :| Holds(t, R) && OpsLive(R, []) == Live(v);
    OpenHolds(t, R);
    CountedSize(t);
    SizeCovers(v);
  }

  lemma {:induction false} SwapKeeps(s: State, s': State, S: multiset<Point>, threshold: nat)
    requires Consistent(s, S, threshold) && Next(s, Swap, s', threshold) && threshold > 1
    ensures Consistent(s', S, threshold)
  {
    assert s.phase.inFlight + s.log == [];
    PartHolds(s.tree, s.pointer.value, S);
    ReplayedStandsFor(s.phase.rebuilt, Visible(s));
    PlugHolds(s.tree, s.pointer.value, s.phase.rebuilt, S);
  }

  // ---- Every step, every run ----

  /** The edits a step makes to the map. */
  function Applied(step: Step): seq<Operation> {
    if step.Edit? then [step.e] else []
  }

  /** Every step keeps the map usable and changes its points only by what the main thread applied. */
  lemma {:induction false} StepRefines(s: State, step: Step, s': State, S: multiset<Point>, threshold: nat)
    requires Consistent(s, S, threshold) && Next(s, step, s', threshold) && threshold > 1 && HarmlessRefresh(s, step)
    ensures Consistent(s', OpsLive(S, Applied(step)), threshold)
  {
    match step
    case Edit(e) =>
      EditKeeps(s, e, s', S, threshold);
      assert [e][1..] == [] && OpsLive(S, [e]) == OpsLive(OpLive(S, e), []);
    case PushDownAt(w) => PushKeeps(s, w, s', S, threshold);
    case Register(w) => RegisterKeeps(s, w, s', S, threshold);
    case RebuildSmall(w) => RebuildSmallKeeps(s, w, s', S, threshold);
    case Refresh(w) => RefreshKeeps(s, w, s', S, threshold);
    case Snapshot => SnapshotKeeps(s, s', S, threshold);
    case Build => BuildKeeps(s, s', S, threshold);
    case PopOperation => PopKeeps(s, s', S, threshold);
    case RunPopped => RunPoppedKeeps(s, s', S, threshold);
    case Swap => SwapKeeps(s, s', S, threshold);
  }

  ghost predicate NextAt(states: seq<State>, steps: seq<Step>, i: nat, threshold: nat)
    requires i < |steps| && |states| == |steps| + 1
  {
    Next(states[i], steps[i], states[i + 1], threshold) && HarmlessRefresh(states[i], steps[i])
  }

  /** A run in which no Update meets a delete pending over a living son. */
  ghost predicate Run(states: seq<State>, steps: seq<Step>, S: multiset<Point>, threshold: nat) {
    && |states| == |steps| + 1
    && Initial(states[0], S)
    && forall i :: 0 <= i < |steps| ==> NextAt(states, steps, i, threshold)
  }

  function AllApplied(steps: seq<Step>): seq<Operation> {
    if steps == [] then [] else AllApplied(steps[..|steps| - 1]) + Applied(steps[|steps| - 1])
  }

  lemma {:induction false} RunConsistent(states: seq<State>, steps: seq<Step>, S: multiset<Point>, threshold: nat,
                                         n: nat)
    requires Run(states, steps, S, threshold) && threshold > 1 && n < |states|
    ensures Consistent(states[n], OpsLive(S, AllApplied(steps[..n])), threshold)
  {
    if n > 0 {
      var before := AllApplied(steps[..n - 1]);
      RunConsistent(states, steps, S, threshold, n - 1);
      assert NextAt(states, steps, n - 1, threshold);
      StepRefines(states[n - 1], steps[n - 1], states[n], OpsLive(S, before), threshold);
      assert steps[..n][..n - 1] == steps[..n - 1] && steps[..n][n - 1] == steps[n - 1];
      OpsLiveConcat(S, before, Applied(steps[n - 1]));
    }
  }

  /**
    Nothing is lost and nothing is duplicated over any interleaving, with any number of rebuilds: the map
    always stands for exactly the points the main thread's edits, in their order, leave of the initial ones.
    Flag, box and number of live points at its root are exact throughout, and it is sound, which is all that
    searches and edits ask for.
   */
  lemma {:induction false} RunRefines(states: seq<State>, steps: seq<Step>, S: multiset<Point>, threshold: nat, n: nat)
    requires Run(states, steps, S, threshold) && threshold > 1 && n < |states|
    ensures var t := states[n].tree; var R := OpsLive(S, AllApplied(steps[..n]));
            && t.Node? && Sound(t) && Live(t) == R
            && t.d.size - t.d.invalid == |R| && (Dead(t) <==> R == multiset{}) && (!Dead(t) ==> Tight(t.d.range, R))
  {
    RunConsistent(states, steps, S, threshold, n);
    OpenHolds(states[n].tree, OpsLive(S, AllApplied(steps[..n])));
    UsableFlags(states[n].tree);
  }

  // ---- The swap in detail ----

  /**
    The swap leaves the visible map unchanged. Flag, box and number of live points at the root, which it does
    not recompute, stay exact, and TreeSize does not understate.
   */
  lemma {:induction false} SwapKeepsMap(s: State, s': State, S: multiset<Point>, threshold: nat)
    requires Consistent(s, S, threshold) && Next(s, Swap, s', threshold) && threshold > 1
    ensures Sound(s'.tree) && Live(s'.tree) == Live(s.tree) && s'.tree.Node?
    ensures !s.pointer.value.Here? ==> s'.tree.d == s.tree.d
    ensures s'.tree.d.size - s'.tree.d.invalid == |Live(s.tree)| && s'.tree.d.size >= Nodes(s'.tree)
    ensures (Dead(s'.tree) <==> Live(s.tree) == multiset{}) && (!Dead(s'.tree) ==> Tight(s'.tree.d.range, Live(s.tree)))
  {
    SwapKeeps(s, s', S, threshold);
    OpenHolds(s.tree, S);
    OpenHolds(s'.tree, S);
    UsableFlags(s'.tree);
    SizeCovers(s'.tree);
  }

  /** The same in the middle of a walk, when the nodes above the subtree have been pushed down but not yet updated. */
  lemma {:induction false} SwapMidWalk(whole: Tree, way: Way, v: Tree, rebuilt: Tree)
    requires Flags(whole) && Leads(whole, way) && At(whole, way) == v && Usable(v) && v.d.size > 1
    requires Replays(rebuilt, [], v)
    ensures Live(Plug(whole, way, rebuilt)) == Live(whole) && Flags(Plug(whole, way, rebuilt))
  {
    ReplayedStandsFor(rebuilt, v);
    UsableHasFlags(rebuilt);
    PlugKeepsLive(whole, way, rebuilt);
  }

  /** The end of a walk: Update at every node of the path, from the bottom up. */
  function UpdatePath(t: Tree, path: Way): Tree
    requires Leads(t, path)
  {
    match path
    case Here => Update(t)
    case ToLeft(rest) => Update(Node(t.d, UpdatePath(t.left, rest), t.right))
    case ToRight(rest) => Update(Node(t.d, t.left, UpdatePath(t.right, rest)))
  }

  /** Update keeps nothing of what an earlier Update computed. */
  lemma {:induction false} UpdateForgets(d: Data, a: Tree, b: Tree, l: Tree, r: Tree)
    ensures var u := Update(Node(d, a, b));
            Update(Node(u.d, l, r)) == Update(Node(d, l, r)) && u.left == a && u.right == b
  {
  }

  lemma {:induction false} UpdatePathTwice(t: Tree, path: Way)
    requires Leads(t, path)
    ensures Leads(UpdatePath(t, path), path) && UpdatePath(UpdatePath(t, path), path) == UpdatePath(t, path)
  {
    match path
    case Here =>
    case ToLeft(rest) => UpdatePathTwice(t.left, rest);
    case ToRight(rest) => UpdatePathTwice(t.right, rest);
  }

  lemma {:induction false} UpdatePathLeads(t: Tree, path: Way, way: Way)
    requires Leads(t, path) && Leads(t, way)
    ensures Leads(UpdatePath(t, path), way)
    decreases path
  {
    match path
    case Here =>
    case ToLeft(rest) =>
      if way.ToLeft? {
        UpdatePathLeads(t.left, rest, way.rest);
      }
    case ToRight(rest) =>
      if way.ToRight? {
        UpdatePathLeads(t.right, rest, way.rest);
      }
  }

  lemma {:induction false} PlugLeads(t: Tree, way: Way, u: Tree, path: Way)
    requires Leads(t, way) && Leads(t, path) && u.Node? && Below(path, way).None?
    ensures Leads(Plug(t, way, u), path)
    decreases path
  {
    PlugPresent(t, way, u);
    match path
    case Here =>
    case ToLeft(rest) =>
      if way.ToLeft? {
        PlugLeads(t.left, way.rest, u, rest);
      }
    case ToRight(rest) =>
      if way.ToRight? {
        PlugLeads(t.right, way.rest, u, rest);
      }
  }

  /**
    A swap in the middle of a walk, before the nodes on its path are updated, leads to the same tree as a
    swap after the walk followed by updating these nodes once more.
   */
  lemma {:induction false} WalkEndsAfterSwap(t: Tree, path: Way, way: Way, u: Tree)
    requires Leads(t, path) && Leads(t, way) && Below(path, way).None? && u.Node?
    ensures Leads(Plug(t, way, u), path) && Leads(UpdatePath(t, path), way)
    ensures Leads(Plug(UpdatePath(t, path), way, u), path)
    ensures UpdatePath(Plug(t, way, u), path) == UpdatePath(Plug(UpdatePath(t, path), way, u), path)
    decreases path
  {
    PlugLeads(t, way, u, path);
    UpdatePathLeads(t, path, way);
    UpdatePathTwice(t, path);
    PlugLeads(UpdatePath(t, path), way, u, path);
    match path
    case Here => PathEndsHere(t, way, u);
    case ToLeft(rest) =>
      if way.ToLeft? {
        WalkEndsAfterSwap(t.left, rest, way.rest, u);
        UpdateForgets(t.d, UpdatePath(t.left, rest), t.right, UpdatePath(Plug(t.left, way.rest, u), rest), t.right);
      } else {
        UpdatePathTwice(t.left, rest);
        UpdateForgets(t.d, UpdatePath(t.left, rest), t.right, UpdatePath(t.left, rest), Plug(t.right, way.rest, u));
      }
    case ToRight(rest) =>
      if way.ToRight? {
        WalkEndsAfterSwap(t.right, rest, way.rest, u);
        UpdateForgets(t.d, t.left, UpdatePath(t.right, rest), t.left, UpdatePath(Plug(t.right, way.rest, u), rest));
      } else {
        UpdatePathTwice(t.right, rest);
        UpdateForgets(t.d, t.left, UpdatePath(t.right, rest), Plug(t.left, way.rest, u), UpdatePath(t.right, rest));
      }
  }

  lemma {:induction false} PathEndsHere(t: Tree, way: Way, u: Tree)
    requires Leads(t, way) && !way.Here? && u.Node?
    ensures Leads(Update(t), way) && Update(Plug(t, way, u)) == Update(Plug(Update(t), way, u))
  {
    if way.ToLeft? {
      UpdateForgets(t.d, t.left, t.right, Plug(t.left, way.rest, u), t.right);
    } else {
      UpdateForgets(t.d, t.left, t.right, t.left, Plug(t.right, way.rest, u));
    }
  }

  /** The nodes on the path are alive. */
  predicate AlivePath(t: Tree, path: Way)
    requires Leads(t, path)
  {
    !Dead(t) && match path
                case Here => true
                case ToLeft(rest) => AlivePath(t.left, rest)
                case ToRight(rest) => AlivePath(t.right, rest)
  }

  /** Updating living nodes is harmless. */
  lemma {:induction false} UpdatePathKeeps(t: Tree, path: Way)
    requires Usable(t) && Leads(t, path) && AlivePath(t, path)
    ensures var u := UpdatePath(t, path); Usable(u) && StandsFor(u, t) && Size(u) <= Size(t)
  {
    match path
    case Here =>
      UpdateHarmless(t);
    case ToLeft(rest) =>
      UpdatePathKeeps(t.left, rest);
      UpdateAbove(t, ToLeft(Here), UpdatePath(t.left, rest));
    case ToRight(rest) =>
      UpdatePathKeeps(t.right, rest);
      UpdateAbove(t, ToRight(Here), UpdatePath(t.right, rest));
  }

  /** A living node updated after one of its sons. */
  lemma {:induction false} UpdateAbove(t: Tree, way: Way, son: Tree)
    requires Usable(t) && Leads(t, way) && !Dead(t) && (way == ToLeft(Here) || way == ToRight(Here))
    requires Usable(son) && StandsFor(son, At(t, way)) && Size(son) <= Size(At(t, way))
    ensures var u := Update(Plug(t, way, son)); Usable(u) && StandsFor(u, t) && Size(u) <= Size(t)
  {
    PlugKeepsUsable(t, way, son);
    UpdateHarmless(Plug(t, way, son));
  }

  lemma {:induction false} PlugAlive(t: Tree, path: Way, way: Way, u: Tree)
    requires Leads(t, path) && Leads(t, way) && Below(path, way).None? && u.Node? && AlivePath(t, path)
    ensures Leads(Plug(t, way, u), path) && AlivePath(Plug(t, way, u), path)
    decreases path
  {
    PlugLeads(t, way, u, path);
    match path
    case Here =>
    case ToLeft(rest) =>
      if way.ToLeft? {
        PlugAlive(t.left, rest, way.rest, u);
      }
    case ToRight(rest) =>
      if way.ToRight? {
        PlugAlive(t.right, rest, way.rest, u);
      }
  }

  /**
    The updates with which a walk ends are harmless when a swap has fallen into it: the walk leaves the same
    points as without the swap, and a usable map.
   */
  lemma {:induction false} WalkEndKeeps(t: Tree, path: Way, way: Way, u: Tree)
    requires Leads(t, path) && Leads(t, way) && Below(path, way).None?
    requires Leads(UpdatePath(t, path), path) && Leads(UpdatePath(t, path), way)
    requires Usable(UpdatePath(t, path)) && AlivePath(UpdatePath(t, path), path)
    requires MayReplace(u, At(UpdatePath(t, path), way))
    ensures Leads(Plug(t, way, u), path)
    ensures var end := UpdatePath(Plug(t, way, u), path); Usable(end) && Live(end) == Live(UpdatePath(t, path))
  {
    var w := UpdatePath(t, path);
    WalkEndsAfterSwap(t, path, way, u);
    PlugKeepsUsable(w, way, u);
    PlugAlive(w, path, way, u);
    UpdatePathKeeps(Plug(w, way, u), path);
  }

  /** The nodes an insertion updates, down to the new one. */
  function InsertionPath(t: Tree, p: Point): Way
    decreases Nodes(t)
  {
    if t.Nil? then Here
    else if GoesLeft(t.d, p) then ToLeft(InsertionPath(EffLeft(t), p))
    else ToRight(InsertionPath(EffRight(t), p))
  }

  /** They are alive when it ends. The same holds of the nodes a box delete updates: `CutAlive`. */
  lemma {:induction false} InsertionPathAlive(t: Tree, p: Point, fatherAxis: Axis)
    requires Usable(t)
    ensures var u := Add(t, p, fatherAxis); Leads(u, InsertionPath(t, p)) && AlivePath(u, InsertionPath(t, p))
    decreases Nodes(t)
  {
    AddKeepsUsable(t, p, fatherAxis);
    if t.Node? {
      SonsUsable(t);
      InsertionPathAlive(if GoesLeft(t.d, p) then EffLeft(t) else EffRight(t), p, t.d.axis);
    }
  }

  // ---- The designated subtree stays designated ----

  /** A rebuild is under way of a subtree that really has as many nodes as the threshold asks for. */
  ghost predicate Underway(s: State, threshold: nat) {
    !s.phase.Waiting? && PointsInto(s) && Nodes(Visible(s)) >= threshold
  }

  lemma {:induction false} ReachingStays(s: State, tree: Tree, ops: seq<Operation>, T: multiset<Point>, threshold: nat)
    requires Underway(s, threshold) && Holds(tree, T) && Leads(tree, s.pointer.value)
    requires Nodes(At(tree, s.pointer.value)) >= Nodes(Visible(s))
    ensures var s' := Logged(s, tree, ops, threshold); s'.pointer == s.pointer && Underway(s', threshold)
  {
    OpenHolds(tree, T);
    AboveIsLarger(tree, s.pointer.value);
    SizeCovers(At(tree, s.pointer.value));
  }

  /** Until the swap, Rebuild_Ptr is not withdrawn from a subtree that has as many nodes as the threshold asks for. */
  lemma {:induction false} StepStays(s: State, step: Step, s': State, S: multiset<Point>, threshold: nat)
    requires Consistent(s, S, threshold) && Next(s, step, s', threshold) && threshold > 1 && HarmlessRefresh(s, step)
    requires Underway(s, threshold) && !step.Swap?
    ensures s'.pointer == s.pointer && Underway(s', threshold)
  {
    var way := s.pointer.value;
    OpenHolds(s.tree, S);
    match step
    case Edit(e) =>
      OperationMeaning(s.tree, e, S);
      WalkAt(s.tree, way, e);
      RunAllNodes(Visible(s), Reaching(s, step));
      ReachingStays(s, RunOperation(s.tree, e), Reaching(s, step), OpLive(S, e), threshold);
    case PushDownAt(w) =>
      PushStays(s, w, S, threshold);
    case Register(_) =>
    case RebuildSmall(w) =>
      var v :| BuiltOver(v, Live(At(s.tree, w))) && s'.tree == Plug(s.tree, w, v);
      SmallIsBeside(s, w, S, threshold);
      PlugBeside(s.tree, way, w, v);
    case Refresh(w) => UpdateAt(s.tree, w, way);
    case Snapshot =>
    case Build =>
    case PopOperation =>
    case RunPopped =>
  }

  lemma {:induction false} PushStays(s: State, w: Way, S: multiset<Point>, threshold: nat)
    requires Holds(s.tree, S) && Leads(s.tree, w) && Underway(s, threshold)
    ensures var s' := Logged(s, Plug(s.tree, w, PushDown(At(s.tree, w))), Reaching(s, PushDownAt(w)), threshold);
            s'.pointer == s.pointer && Underway(s', threshold)
  {
    var way, ops, tree := s.pointer.value, Reaching(s, PushDownAt(w)), Plug(s.tree, w, PushDown(At(s.tree, w)));
    OpenHolds(s.tree, S);
    PushHolds(s.tree, w, S);
    if Below(w, way).Some? {
      PushInside(s.tree, w, way, S);
    } else {
      PushAt(s.tree, w, way);
      RunAllNodes(Visible(s), ops);
    }
    ReachingStays(s, tree, ops, S, threshold);
  }

  lemma {:induction false} NextStays(states: seq<State>, steps: seq<Step>, S: multiset<Point>, threshold: nat, n: nat)
    requires Run(states, steps, S, threshold) && threshold > 1 && n < |steps|
    requires Underway(states[n], threshold) && !steps[n].Swap?
    ensures states[n + 1].pointer == states[n].pointer && Underway(states[n + 1], threshold)
  {
    RunConsistent(states, steps, S, threshold, n);
    assert NextAt(states, steps, n, threshold);
    StepStays(states[n], steps[n], states[n + 1], OpsLive(S, AllApplied(steps[..n])), threshold);
  }

  /** Over every run: between a snapshot of a subtree with that many nodes and the swap, Rebuild_Ptr stays. */
  lemma {:induction false} RunStays(states: seq<State>, steps: seq<Step>, S: multiset<Point>, threshold: nat, i: nat,
                                    n: nat)
    requires Run(states, steps, S, threshold) && threshold > 1 && i <= n < |states|
    requires Underway(states[i], threshold) && forall j :: i <= j < n ==> !steps[j].Swap?
    ensures states[n].pointer == states[i].pointer && Underway(states[n], threshold)
    decreases n
  {
    if n > i {
      RunStays(states, steps, S, threshold, i, n - 1);
      NextStays(states, steps, S, threshold, n - 1);
    }
  }
}
