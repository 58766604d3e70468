/**
  The account of all points: what is live, what is marked as removed in the tree and what has been recorded
  as removed. Insertions add to it, and of the deletes only those by downsampling take from it.
 */
module Accounts {
  import opened Geometry
  import opened TreeModel
  import opened TreeOps
  import opened Balance
  import opened PushWalk
  import opened TreeBuilder
  import opened KdSpec
  import opened Folding

  /** All points that are live, marked as removed in the tree, or recorded as removed. */
  ghost function Account(t: Tree, recorded: seq<Point>): multiset<Point> {
    multiset(recorded) + Removed(t) + Live(t)
  }

  /**
    The account of a tree with exact counters gains exactly the inserted points. With `loss`, after deletes by
    downsampling, it gains no others.
   */
  ghost predicate Conserves(t: Tree, P: seq<Point>, u: Tree, Q: seq<Point>, inserted: multiset<Point>, loss: bool) {
    forall k :: OpenRecords(k) ==> Exact(t) ==>
      if loss then Account(u, Q) <= Account(t, P) + inserted else Account(u, Q) == Account(t, P) + inserted
  }

  ghost predicate Exact(t: Tree) {
    forall k :: Open(k) ==> Inv(t)
  }

  lemma {:induction false} OpenExact(t: Tree)
    ensures Exact(t) <==> Inv(t)
  {
    assert Open(0);
  }

  /** The account gains one point. */
  ghost predicate GainsOne(t: Tree, P: seq<Point>, u: Tree, Q: seq<Point>, p: Point) {
    forall k :: OpenRecords(k) ==> Conserves(t, P, u, Q, multiset{p}, false)
  }

  /** No point becomes marked or recorded as removed. */
  ghost predicate RecordsNothing(t: Tree, P: seq<Point>, u: Tree, Q: seq<Point>) {
    forall k :: OpenRecords(k) ==> Exact(t) ==> multiset(Q) + Removed(u) <= multiset(P) + Removed(t)
  }

  /** The account stays as it is; with `loss` it may lose points, but records none. */
  ghost predicate LosesNone(t: Tree, P: seq<Point>, u: Tree, Q: seq<Point>, loss: bool) {
    forall k :: OpenRecords(k) ==>
      Conserves(t, P, u, Q, multiset{}, loss) && (loss ==> RecordsNothing(t, P, u, Q))
  }

  lemma {:induction false} OpenConserves(t: Tree, P: seq<Point>, u: Tree, Q: seq<Point>, inserted: multiset<Point>,
                                         loss: bool)
    requires Conserves(t, P, u, Q, inserted, loss) && Inv(t)
    ensures if loss then Account(u, Q) <= Account(t, P) + inserted else Account(u, Q) == Account(t, P) + inserted
  {
    assert OpenRecords(0);
  }

  lemma {:induction false} OpenGainsOne(t: Tree, P: seq<Point>, u: Tree, Q: seq<Point>, p: Point)
    requires GainsOne(t, P, u, Q, p)
    ensures Conserves(t, P, u, Q, multiset{p}, false)
  {
    assert OpenRecords(0);
  }

  lemma {:induction false} OpenLosesNone(t: Tree, P: seq<Point>, u: Tree, Q: seq<Point>, loss: bool)
    requires LosesNone(t, P, u, Q, loss)
    ensures Conserves(t, P, u, Q, multiset{}, loss) && (loss ==> RecordsNothing(t, P, u, Q))
  {
    assert OpenRecords(0);
  }

  lemma {:induction false} ConservesSelf(t: Tree, P: seq<Point>, loss: bool)
    ensures LosesNone(t, P, t, P, loss)
  {
  }

  lemma {:induction false} ConservesTrans(t: Tree, P: seq<Point>, u: Tree, Q: seq<Point>, A: multiset<Point>, v: Tree,
                                          R: seq<Point>, B: multiset<Point>, loss: bool, more: bool)
    requires Conserves(t, P, u, Q, A, loss) && Conserves(u, Q, v, R, B, more) && KeepsCounters(t, u)
    ensures Conserves(t, P, v, R, A + B, loss || more)
  {
    if Exact(t) {
      OpenExact(t);
      OpenCounters(t, u);
      OpenConserves(t, P, u, Q, A, loss);
      OpenConserves(u, Q, v, R, B, more);
    }
  }

  /** An edit followed by a rebuild. */
  lemma {:induction false} ConservesThenRebuilt(t: Tree, P: seq<Point>, u: Tree, Q: seq<Point>, A: multiset<Point>,
                                                loss: bool, v: Tree, R: seq<Point>)
    requires Conserves(t, P, u, Q, A, loss) && Conserves(u, Q, v, R, multiset{}, false) && KeepsCounters(t, u)
    ensures Conserves(t, P, v, R, A, loss)
  {
    ConservesTrans(t, P, u, Q, A, v, R, multiset{}, loss, false);
    assert A + multiset{} == A;
  }

  lemma {:induction false} WalkConserves(t: Tree, u: Tree, P: seq<Point>, loss: bool)
    requires Walked(t, u)
    ensures LosesNone(t, P, u, P, loss)
  {
    assert Open(0);
    PushesKeepMeaning(t, u);
  }

  lemma {:induction false} LeafConserves(p: Point, axis: Axis, P: seq<Point>)
    ensures GainsOne(Nil, P, Leaf(p, axis), P, p)
  {
    LeafMeaning(p, axis);
  }

  /** Rebuilding records what was marked as removed. */
  lemma {:induction false} RebuiltConserves(t: Tree, u: Tree, P: seq<Point>, Q: seq<Point>, S: multiset<Point>)
    requires Recorded(t, P, Q) && BuiltOver(u, S) && Kept(t, u)
    ensures LosesNone(t, P, u, Q, false)
  {
    assert OpenAside(0);
    OpenBuilt(u, S);
    WellBuiltMeaning(u);
  }

  lemma {:induction false} AddedLive(t: Tree, p: Point, u: Tree)
    requires Added(t, p, u)
    ensures Live(u) == Live(t) + multiset{p}
  {
    assert OpenAside(0);
  }

  lemma {:induction false} AddLevelConserves(t: Tree, p: Point, son: Tree, P: seq<Point>, Q: seq<Point>)
    requires t.Node? && Sound(t) && Sound(son)
    requires var s := if GoesLeft(t.d, p) then EffLeft(t) else EffRight(t);
             Added(s, p, son) && (s.Nil? ==> LoneLive(son)) && GainsOne(s, P, son, Q, p)
    ensures GainsOne(t, P, AddBelow(PushDown(t), p, son), Q, p)
  {
    if Exact(t) {
      OpenExact(t);
      var u := PushDown(t);
      var s := if GoesLeft(t.d, p) then EffLeft(t) else EffRight(t);
      PushDownSettles(t);
      SonRecorded(s, p, son, P, Q);
      AddLevel(t, p, son);
      PushDownKeepsMeaning(t);
      AddedRecords(u, p, son, multiset(P), multiset(Q));
      InsertConserves(t, p, AddBelow(u, p, son), P, Q);
    }
  }

  lemma {:induction false} InsertConserves(t: Tree, p: Point, u: Tree, P: seq<Point>, Q: seq<Point>)
    requires Added(t, p, u) && multiset(Q) + Removed(u) == multiset(P) + Removed(t)
    ensures GainsOne(t, P, u, Q, p)
  {
    AddedLive(t, p, u);
  }

  lemma {:induction false} SonRecorded(s: Tree, p: Point, son: Tree, P: seq<Point>, Q: seq<Point>)
    requires Added(s, p, son) && GainsOne(s, P, son, Q, p) && Inv(s)
    ensures multiset(Q) + Removed(son) == multiset(P) + Removed(s)
  {
    assert OpenRecords(0);
    AddedLive(s, p, son);
    OpenConserves(s, P, son, Q, multiset{p}, false);
    SameRecorded(P, Q, Removed(s), Removed(son), Live(s), multiset{p});
  }

  /** A son that gains a point records as much as before. */
  lemma {:induction false} SameRecorded(P: seq<Point>, Q: seq<Point>, R: multiset<Point>, R': multiset<Point>,
                                        L: multiset<Point>, A: multiset<Point>)
    requires multiset(Q) + R' + (L + A) == multiset(P) + R + L + A
    ensures multiset(Q) + R' == multiset(P) + R
  {
    forall p ensures (multiset(Q) + R')[p] == (multiset(P) + R)[p] {
      assert (multiset(Q) + R' + (L + A))[p] == (multiset(P) + R + L + A)[p];
    }
  }

  lemma {:induction false} AddedRecords(u: Tree, p: Point, son: Tree, P: multiset<Point>, Q: multiset<Point>)
    requires Settled(u)
    requires var s := if GoesLeft(u.d, p) then u.left else u.right;
             (s.Nil? ==> LoneLive(son)) && Q + Removed(son) == P + Removed(s)
    ensures Q + Removed(AddBelow(u, p, son)) == P + Removed(u)
  {
    SettledMeaning(u);
    RemovedParts(u);
    if GoesLeft(u.d, p) {
      RemovedLeft(u, son);
      Exchange(P, Q, OwnRemoved(u.d), Removed(u.left), Removed(son), Removed(u.right));
    } else {
      RemovedRight(u, son);
      Exchange(P, Q, OwnRemoved(u.d), Removed(u.right), Removed(son), Removed(u.left));
    }
  }

  lemma {:induction false} Exchange(P: multiset<Point>, Q: multiset<Point>, O: multiset<Point>, R: multiset<Point>,
                                    R': multiset<Point>, S: multiset<Point>)
    requires Q + R' == P + R
    ensures Q + (O + R' + S) == P + (O + R + S)
    ensures Q + (O + S + R') == P + (O + S + R)
  {
    assert Q + (O + R' + S) == Q + R' + (O + S) == Q + (O + S + R');
    assert P + (O + R + S) == P + R + (O + S) == P + (O + S + R);
  }

  lemma {:induction false} RemovedLeft(u: Tree, l: Tree)
    requires Settled(u) && (u.left.Nil? ==> LoneLive(l))
    ensures Removed(Update(Node(u.d, l, u.right))) == OwnRemoved(u.d) + Removed(l) + Removed(u.right)
  {
    var v := Update(Node(u.d, l, u.right));
    RemovedParts(v);
    if u.d.needLeft {
      LoneLiveMeaning(l, v.d);
      LoneRecords(l);
    }
  }

  lemma {:induction false} RemovedRight(u: Tree, r: Tree)
    requires Settled(u) && (u.right.Nil? ==> LoneLive(r))
    ensures Removed(Update(Node(u.d, u.left, r))) == OwnRemoved(u.d) + Removed(u.left) + Removed(r)
  {
    var v := Update(Node(u.d, u.left, r));
    RemovedParts(v);
    if u.d.needRight {
      LoneLiveMeaning(r, v.d);
      LoneRecords(r);
    }
  }

  lemma {:induction false} LoneRecords(t: Tree)
    requires LoneLive(t)
    ensures Removed(t) == multiset{} == Removed(t.(d := t.d.(needLeft := true, needRight := true)))
  {
  }

  /** A box that misses or covers the cached range. */
  lemma {:induction false} UnsplitConserves(t: Tree, b: Box, down: bool, P: seq<Point>)
    requires t.Node? && !Dead(t)
    ensures LosesNone(t, P, PushDown(t), P, down)
    ensures var u := PushDown(t); LosesNone(t, P, u.(d := Kill(u.d, down)), P, down)
  {
    PushDownKeepsMeaning(t);
    SameConserves(t, PushDown(t), P, down);
    if Exact(t) {
      OpenExact(t);
      PushDownKeepsInv(t);
      KilledConserves(t, PushDown(t), down, P);
    }
  }

  lemma {:induction false} SameConserves(t: Tree, u: Tree, P: seq<Point>, loss: bool)
    requires Live(u) == Live(t) && Removed(u) == Removed(t)
    ensures LosesNone(t, P, u, P, loss)
  {
  }

  lemma {:induction false} KilledConserves(t: Tree, u: Tree, down: bool, P: seq<Point>)
    requires u.Node? && Inv(u) && !Dead(u) && Live(u) == Live(t) && Removed(u) == Removed(t)
    ensures LosesNone(t, P, u.(d := Kill(u.d, down)), P, down)
  {
    KillAccount(u, down, multiset(P));
    KillRecords(u, down);
    LevelConserves(t, P, u.(d := Kill(u.d, down)), P, down);
  }

  lemma {:induction false} KillAccount(u: Tree, down: bool, P: multiset<Point>)
    requires u.Node? && Inv(u) && !Dead(u)
    ensures var k := u.(d := Kill(u.d, down)); Balances(P, Removed(u), Live(u), P, Removed(k), Live(k), down)
  {
    var k := u.(d := Kill(u.d, down));
    KillRecords(u, down);
    KillStep(u, down);
    KillBalances(P, Removed(u), Live(u), Removed(k), Live(k), down);
  }

  lemma {:induction false} KillBalances(P: multiset<Point>, R: multiset<Point>, L: multiset<Point>,
                                        R': multiset<Point>, L': multiset<Point>, down: bool)
    requires L' == multiset{} && R' == if down then multiset{} else R + L
    ensures Balances(P, R, L, P, R', L', down)
  {
  }

  lemma {:induction false} DeletedLive(t: Tree, b: Box, u: Tree, n: int)
    requires Deleted(t, b, u, n)
    ensures Live(u) == Outside(Live(t), b)
  {
    assert Open(0);
  }

  lemma {:induction false} SonBalances(t: Tree, P: seq<Point>, u: Tree, Q: seq<Point>, loss: bool)
    requires LosesNone(t, P, u, Q, loss) && Inv(t)
    ensures Balances(multiset(P), Removed(t), Live(t), multiset(Q), Removed(u), Live(u), loss)
  {
    assert OpenRecords(0);
    OpenConserves(t, P, u, Q, multiset{}, loss);
  }

  /** A box that cuts the cached range: the node's own point and both sons. */
  lemma {:induction false} DeleteLevelConserves(t: Tree, b: Box, down: bool, l: Tree, m: int, r: Tree, n: int,
                                                P: seq<Point>, M: seq<Point>, Q: seq<Point>)
    requires t.Node? && Sound(t) && Sound(l) && Sound(r) && !Dead(t) && !Covers(b, t.d.range)
    requires Deleted(EffLeft(t), b, l, m) && (EffLeft(t).Nil? ==> l.Nil?)
    requires Deleted(EffRight(t), b, r, n) && (EffRight(t).Nil? ==> r.Nil?)
    requires LosesNone(EffLeft(t), P, l, M, down) && LosesNone(EffRight(t), M, r, Q, down)
    ensures LosesNone(t, P, Update(Node(DeleteOwn(PushDown(t).d, b, down), l, r)), Q, down)
  {
    if Exact(t) {
      OpenExact(t);
      var u := PushDown(t);
      var v := Update(Node(DeleteOwn(u.d, b, down), l, r));
      PushDownSettles(t);
      PushDownKeepsInv(t);
      DeletedLive(u.left, b, l, m);
      DeletedLive(u.right, b, r, n);
      SonBalances(u.left, P, l, M, down);
      SonBalances(u.right, M, r, Q, down);
      DeleteLevel(t, b, down, l, m, r, n);
      DeletedLive(t, b, v, One(HitsOwn(t.d, b)) + m + n);
      PushDownKeepsMeaning(t);
      DeleteAccount(u, v, b, down, l, r, multiset(P), multiset(M), multiset(Q));
      SonsRecordNothing(u, b, down, l, r, P, M, Q);
      LevelConserves(t, P, v, Q, down);
    }
  }

  lemma {:induction false} SonsRecordNothing(u: Tree, b: Box, down: bool, l: Tree, r: Tree,
                                             P: seq<Point>, M: seq<Point>, Q: seq<Point>)
    requires Settled(u) && Inv(u) && (u.left.Nil? ==> l.Nil?) && (u.right.Nil? ==> r.Nil?)
    requires LosesNone(u.left, P, l, M, down) && LosesNone(u.right, M, r, Q, down)
    ensures down ==>
              multiset(Q) + Removed(Update(Node(DeleteOwn(u.d, b, down), l, r))) <= multiset(P) + Removed(u)
  {
    if down {
      SettledMeaning(u);
      RemovedParts(u);
      DeleteStepRecords(u, b, down, l, r);
      OwnRecords(u.d, b, down);
      NothingRecorded(u.left, P, l, M);
      NothingRecorded(u.right, M, r, Q);
      SumNothing(multiset(P), OwnRemoved(u.d), Removed(u.left), Removed(u.right), multiset(M), Removed(l), multiset(Q),
                 Removed(r));
    }
  }

  lemma {:induction false} NothingRecorded(t: Tree, P: seq<Point>, u: Tree, Q: seq<Point>)
    requires LosesNone(t, P, u, Q, true) && Inv(t)
    ensures multiset(Q) + Removed(u) <= multiset(P) + Removed(t)
  {
    OpenExact(t);
    assert OpenRecords(0);
  }

  lemma {:induction false} SumNothing(P: multiset<Point>, O: multiset<Point>, R: multiset<Point>, S: multiset<Point>,
                                      M: multiset<Point>, R': multiset<Point>, Q: multiset<Point>,
                                      S': multiset<Point>)
    requires M + R' <= P + R && Q + S' <= M + S
    ensures Q + (O + R' + S') <= P + (O + R + S)
  {
    forall p ensures (Q + (O + R' + S'))[p] <= (P + (O + R + S))[p] {
      assert (M + R')[p] <= (P + R)[p] && (Q + S')[p] <= (M + S)[p];
    }
  }

  lemma {:induction false} LevelConserves(t: Tree, P: seq<Point>, u: Tree, Q: seq<Point>, loss: bool)
    requires Balances(multiset(P), Removed(t), Live(t), multiset(Q), Removed(u), Live(u), loss)
    requires loss ==> multiset(Q) + Removed(u) <= multiset(P) + Removed(t)
    ensures LosesNone(t, P, u, Q, loss)
  {
  }

  lemma {:induction false} DeleteAccount(u: Tree, v: Tree, b: Box, down: bool, l: Tree, r: Tree,
                                         P: multiset<Point>, M: multiset<Point>, Q: multiset<Point>)
    requires Settled(u) && Inv(u) && (u.left.Nil? ==> l.Nil?) && (u.right.Nil? ==> r.Nil?)
    requires v == Update(Node(DeleteOwn(u.d, b, down), l, r)) && Live(v) == Outside(Live(u), b)
    requires Live(l) == Outside(Live(u.left), b) && Live(r) == Outside(Live(u.right), b)
    requires Balances(P, Removed(u.left), Live(u.left), M, Removed(l), Live(l), down)
    requires Balances(M, Removed(u.right), Live(u.right), Q, Removed(r), Live(r), down)
    ensures Balances(P, Removed(u), Live(u), Q, Removed(v), Live(v), down)
  {
    SettledMeaning(u);
    RemovedParts(u);
    DeleteStepRecords(u, b, down, l, r);
    OwnRecords(u.d, b, down);
    OwnOutside(u.d, b, down);
    OutsideSplit3(Own(u.d), Live(u.left), Live(u.right), b);
    OwnBalances(u.d, b, down);
    SumBalances(P, OwnRemoved(u.d), Own(u.d), OwnRemoved(DeleteOwn(u.d, b, down)), Own(DeleteOwn(u.d, b, down)),
                Removed(u.left), Live(u.left), M, Removed(l), Live(l),
                Removed(u.right), Live(u.right), Q, Removed(r), Live(r), down);
  }

  /** The account of a part: recorded, marked and live points before and after. */
  ghost predicate Balances(P: multiset<Point>, R: multiset<Point>, L: multiset<Point>,
                           Q: multiset<Point>, R': multiset<Point>, L': multiset<Point>, loss: bool) {
    if loss then Q + R' + L' <= P + R + L else Q + R' + L' == P + R + L
  }

  lemma {:induction false} OwnBalances(d: Data, b: Box, down: bool)
    requires d.pointDownDeleted ==> d.pointDeleted
    ensures var e := DeleteOwn(d, b, down);
            if down then OwnRemoved(e) + Own(e) <= OwnRemoved(d) + Own(d)
            else OwnRemoved(e) + Own(e) == OwnRemoved(d) + Own(d)
  {
  }

  lemma {:induction false} SumBalances(P: multiset<Point>, O: multiset<Point>, o: multiset<Point>,
                                       O': multiset<Point>, o': multiset<Point>,
                                       R: multiset<Point>, L: multiset<Point>,
                                       M: multiset<Point>, R': multiset<Point>, L': multiset<Point>,
                                       S: multiset<Point>, K: multiset<Point>,
                                       Q: multiset<Point>, S': multiset<Point>, K': multiset<Point>, loss: bool)
    requires if loss then O' + o' <= O + o else O' + o' == O + o
    requires Balances(P, R, L, M, R', L', loss) && Balances(M, S, K, Q, S', K', loss)
    ensures Balances(P, O + R + S, o + L + K, Q, O' + R' + S', o' + L' + K', loss)
  {
    forall p
      ensures var x, y := (Q + (O' + R' + S') + (o' + L' + K'))[p], (P + (O + R + S) + (o + L + K))[p];
              if loss then x <= y else x == y
    {
      assert (O' + o')[p] <= (O + o)[p] && (!loss ==> (O' + o')[p] == (O + o)[p]);
      assert (M + R' + L')[p] <= (P + R + L)[p] && (!loss ==> (M + R' + L')[p] == (P + R + L)[p]);
      assert (Q + S' + K')[p] <= (M + S + K)[p] && (!loss ==> (Q + S' + K')[p] == (M + S + K)[p]);
    }
  }

  lemma {:induction false} LosesNoneTrans(t: Tree, P: seq<Point>, u: Tree, Q: seq<Point>, v: Tree, R: seq<Point>)
    requires LosesNone(t, P, u, Q, false) && LosesNone(u, Q, v, R, false) && KeepsCounters(t, u)
    ensures LosesNone(t, P, v, R, false)
  {
    assert OpenRecords(0);
    ConservesThenRebuilt(t, P, u, Q, multiset{}, false, v, R);
  }

  lemma {:induction false} RecordsNothingTrans(t: Tree, P: seq<Point>, u: Tree, Q: seq<Point>, v: Tree, R: seq<Point>)
    requires RecordsNothing(t, P, u, Q) && RecordsNothing(u, Q, v, R) && KeepsCounters(t, u)
    ensures RecordsNothing(t, P, v, R)
  {
    if Exact(t) {
      OpenExact(t);
      OpenExact(u);
      OpenCounters(t, u);
      assert OpenRecords(0);
    }
  }

  /** What keeps the account and gains points in the map alone records nothing. */
  lemma {:induction false} GainsRecordNothing(t: Tree, P: seq<Point>, u: Tree, Q: seq<Point>, A: multiset<Point>)
    requires Conserves(t, P, u, Q, A, false) && Live(u) == Live(t) + A
    ensures RecordsNothing(t, P, u, Q)
  {
    if Exact(t) {
      OpenExact(t);
      OpenConserves(t, P, u, Q, A, false);
      SameRecorded(P, Q, Removed(t), Removed(u), Live(t), A);
    }
  }

  lemma {:induction false} KeptRecordsNothing(t: Tree, P: seq<Point>, u: Tree, Q: seq<Point>)
    requires LosesNone(t, P, u, Q, false) && Kept(t, u)
    ensures RecordsNothing(t, P, u, Q)
  {
    assert OpenAside(0) && OpenRecords(0);
    assert Live(t) + multiset{} == Live(t);
    GainsRecordNothing(t, P, u, Q, multiset{});
  }

  lemma {:induction false} AddedThenRebuilt(t: Tree, p: Point, P: seq<Point>, u: Tree, Q: seq<Point>, v: Tree,
                                            R: seq<Point>)
    requires Added(t, p, u) && GainsOne(t, P, u, Q, p) && LosesNone(u, Q, v, R, false)
    ensures GainsOne(t, P, v, R, p)
  {
    assert OpenRecords(0);
    OpenAdded(t, p, u);
    ConservesThenRebuilt(t, P, u, Q, multiset{p}, false, v, R);
  }

  lemma {:induction false} DeletedThenRebuilt(t: Tree, b: Box, n: int, P: seq<Point>, u: Tree, Q: seq<Point>,
                                              loss: bool,
                                              v: Tree, R: seq<Point>)
    requires Deleted(t, b, u, n) && LosesNone(t, P, u, Q, loss) && LosesNone(u, Q, v, R, false) && Kept(u, v)
    ensures LosesNone(t, P, v, R, loss)
  {
    OpenDeleted(t, b, u, n);
    OpenLosesNone(t, P, u, Q, loss);
    OpenLosesNone(u, Q, v, R, false);
    ConservesThenRebuilt(t, P, u, Q, multiset{}, loss, v, R);
    if loss {
      KeptRecordsNothing(u, Q, v, R);
      RecordsNothingTrans(t, P, u, Q, v, R);
    }
  }

  lemma {:induction false} DeletedLevelConserves(t: Tree, u: Tree, b: Box, down: bool, l: Tree, m: int, r: Tree, n: int,
                                                 v: Tree, count: int, P: seq<Point>, M: seq<Point>, Q: seq<Point>)
    requires t.Node? && u.Node? && DeletedLevel(t, u, b, down, l, m, r, n, v, count)
    requires Sound(t) && Sound(l) && Sound(r) && !Dead(t) && !Covers(b, t.d.range)
    requires Deleted(u.left, b, l, m) && (u.left.Nil? ==> l.Nil?)
    requires Deleted(u.right, b, r, n) && (u.right.Nil? ==> r.Nil?)
    requires LosesNone(u.left, P, l, M, down) && LosesNone(u.right, M, r, Q, down)
    ensures LosesNone(t, P, v, Q, down)
  {
    assert Open(0);
    DeleteLevelConserves(t, b, down, l, m, r, n, P, M, Q);
  }

  /** What an insertion makes of the son of `u` it goes on to, the records going from `P` to `Q`. */
  ghost predicate SonGains(u: Tree, p: Point, son: Tree, P: seq<Point>, Q: seq<Point>)
    requires u.Node?
  {
    forall k :: OpenEdit(k) ==>
      var s := SonFor(u, p);
      Sound(son) && Added(s, p, son) && (s.Nil? ==> LoneLive(son)) && GainsOne(s, P, son, Q, p)
  }

  lemma {:induction false} FormSonGains(u: Tree, p: Point, son: Tree, P: seq<Point>, Q: seq<Point>)
    requires u.Node? && Sound(son) && Added(SonFor(u, p), p, son) && GainsOne(SonFor(u, p), P, son, Q, p)
    requires SonFor(u, p).Nil? ==> LoneLive(son)
    ensures SonGains(u, p, son, P, Q)
  {
  }

  /** What one level of an insertion promises, all in all. */
  lemma {:induction false} AddLevelDone(t: Tree, p: Point, son: Tree, u: Tree, P: seq<Point>, Q: seq<Point>)
    requires t.Node? && Sound(t) && u == AddBelow(PushDown(t), p, son) && SonGains(PushDown(t), p, son, P, Q)
    ensures Sound(u) && Added(t, p, u) && !Dead(u) && Size(u) <= Size(t) + 1 && GainsOne(t, P, u, Q, p)
  {
    assert OpenEdit(0);
    AddLevel(t, p, son);
    AddLevelSize(t, p, u);
    AddLevelConserves(t, p, son, P, Q);
  }

  lemma {:induction false} AddLevelBalanced(t: Tree, p: Point, son: Tree, cfg: Config, P: seq<Point>, Q: seq<Point>)
    requires t.Node? && SonGains(PushDown(t), p, son, P, Q) && KeepsBalance(SonFor(PushDown(t), p), son, cfg)
    ensures SonsKeepBalance(t, AddBelow(PushDown(t), p, son), cfg)
  {
    assert OpenEdit(0);
    AddLevelBalance(t, p, son, cfg);
  }

  /** What a box delete that looks at one node only promises. */
  lemma {:induction false} UnsplitDone(t: Tree, b: Box, down: bool, cfg: Config, P: seq<Point>)
    requires t.Node? && Sound(t) && !Dead(t)
    ensures Misses(b, t.d.range) ==>
              var u := PushDown(t);
              Sound(u) && Deleted(t, b, u, 0) && LosesNone(t, P, u, P, down) && KeepsBalance(t, u, cfg)
    ensures Covers(b, t.d.range) ==>
              var u := PushDown(t);
              var k := u.(d := Kill(u.d, down));
              && Sound(k) && Deleted(t, b, k, u.d.size - u.d.invalid) && LosesNone(t, P, k, P, down)
              && KeepsBalance(t, k, cfg)
  {
    UnsplitConserves(t, b, down, P);
    UnsplitDeleteBalance(t, down, cfg);
    if Misses(b, t.d.range) {
      MissedDeleted(t, b);
    }
    if Covers(b, t.d.range) {
      CoveredDeleted(t, b, down);
    }
  }

  /** A delete by downsampling followed by an insertion. */
  lemma {:induction false} ReplacedRecordsNothing(t: Tree, P: seq<Point>, u: Tree, Q: seq<Point>, p: Point, v: Tree,
                                                  R: seq<Point>)
    requires LosesNone(t, P, u, Q, true) && KeepsCounters(t, u)
    requires GainsOne(u, Q, v, R, p) && Live(v) == Live(u) + multiset{p}
    ensures RecordsNothing(t, P, v, R)
  {
    OpenLosesNone(t, P, u, Q, true);
    OpenGainsOne(u, Q, v, R, p);
    GainsRecordNothing(u, Q, v, R, multiset{p});
    RecordsNothingTrans(t, P, u, Q, v, R);
  }

  lemma {:induction false} RecordsNothingSelf(t: Tree, P: seq<Point>)
    ensures RecordsNothing(t, P, t, P)
  {
  }

  lemma {:induction false} WalkRecordsNothing(t: Tree, P: seq<Point>, u: Tree)
    requires LosesNone(t, P, u, P, false) && Live(u) == Live(t)
    ensures RecordsNothing(t, P, u, P)
  {
    OpenLosesNone(t, P, u, P, false);
    assert Live(t) + multiset{} == Live(t);
    GainsRecordNothing(t, P, u, P, multiset{});
  }
}
