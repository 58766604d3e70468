/**
  The value of a lazily edited k-d tree: every cached field of a node, including flags that
  have not been pushed down yet. Meaning is given through the *effective* sons, that is, the
  sons as the next Push_Down would leave them.
 */
module TreeModel {
  import opened Geometry

  datatype Data = Data(
    point: Point,
    axis: Axis,
    size: int,
    invalid: int,
    downDel: int,
    pointDeleted: bool,
    treeDeleted: bool,
    pointDownDeleted: bool,
    treeDownDeleted: bool,
    needLeft: bool,
    needRight: bool,
    range: Range)

  datatype Tree = Nil | Node(d: Data, left: Tree, right: Tree)

  // ---- Cached fields of a possibly absent son ----

  function Size(t: Tree): int {
    if t.Nil? then 0 else t.d.size
  }

  function Invalid(t: Tree): int {
    if t.Nil? then 0 else t.d.invalid
  }

  function DownDel(t: Tree): int {
    if t.Nil? then 0 else t.d.downDel
  }

  predicate Dead(t: Tree) {
    t.Nil? || t.d.treeDeleted
  }

  predicate DownDead(t: Tree) {
    t.Nil? || t.d.treeDownDeleted
  }

  function One(b: bool): int {
    if b then 1 else 0
  }

  // ---- Push_Down ----

  /** What Push_Down writes into a son `s` of a node whose fields are `p`. */
  function PushOnto(p: Data, s: Data): Data {
    var treeDown := s.treeDownDeleted || p.treeDownDeleted;
    var pointDown := s.pointDownDeleted || p.treeDownDeleted;
    var treeDel := p.treeDeleted || treeDown;
    var down := if p.treeDownDeleted then s.size else s.downDel;
    s.(treeDownDeleted := treeDown,
       pointDownDeleted := pointDown,
       treeDeleted := treeDel,
       pointDeleted := treeDel || pointDown,
       downDel := down,
       invalid := if p.treeDeleted then s.size else down,
       needLeft := true,
       needRight := true)
  }

  function Pushed(p: Data, s: Tree): (u: Tree)
    ensures Nodes(u) == Nodes(s)
  {
    if s.Nil? then s else s.(d := PushOnto(p, s.d))
  }

  /** The left son as the next Push_Down of its father leaves it. */
  function EffLeft(t: Tree): (l: Tree)
    requires t.Node?
    ensures Nodes(l) < Nodes(t)
  {
    if t.d.needLeft then Pushed(t.d, t.left) else t.left
  }

  function EffRight(t: Tree): (r: Tree)
    requires t.Node?
    ensures Nodes(r) < Nodes(t)
  {
    if t.d.needRight then Pushed(t.d, t.right) else t.right
  }

  /** A push flag is cleared only when there is a son to push onto. */
  function PushDown(t: Tree): Tree {
    if t.Nil? then t
    else Node(t.d.(needLeft := t.d.needLeft && t.left.Nil?,
                   needRight := t.d.needRight && t.right.Nil?),
              EffLeft(t), EffRight(t))
  }

  // ---- Update ----

  function RangeIf(c: bool, r: Range): Range {
    if c then r else NoRange
  }

  function RangeOf(t: Tree): Range {
    if t.Nil? then NoRange else t.d.range
  }

  /** The range over the live parts of a node only. */
  function LiveJoin(d: Data, l: Tree, r: Tree): Range {
    Join(RangeIf(!d.pointDeleted, Range(d.point, d.point)),
         Join(RangeIf(!Dead(l), RangeOf(l)), RangeIf(!Dead(r), RangeOf(r))))
  }

  function FullJoin(d: Data, l: Tree, r: Tree): Range {
    Join(Range(d.point, d.point), Join(RangeOf(l), RangeOf(r)))
  }

  /** Recomputes the cached fields of a node from its own flags and its sons' fields. */
  function Update(t: Tree): Tree
    requires t.Node?
  {
    var d, l, r := t.d, t.left, t.right;
    var treeDel := Dead(l) && Dead(r) && d.pointDeleted;
    t.(d := d.(size := 1 + Size(l) + Size(r),
               invalid := One(d.pointDeleted) + Invalid(l) + Invalid(r),
               downDel := One(d.pointDownDeleted) + DownDel(l) + DownDel(r),
               treeDownDeleted := DownDead(l) && DownDead(r) && d.pointDownDeleted,
               treeDeleted := treeDel,
               range := if treeDel then FullJoin(d, l, r) else LiveJoin(d, l, r)))
  }

  /** A node as InitTreeNode leaves it, before the first Update. */
  function FreshData(p: Point, axis: Axis): Data {
    Data(p, axis, 0, 0, 0, false, false, false, false, false, false, Range(Point(0, 0, 0), Point(0, 0, 0)))
  }

  function Leaf(p: Point, axis: Axis): Tree {
    Update(Node(FreshData(p, axis), Nil, Nil))
  }

  // ---- Meaning ----

  function Nodes(t: Tree): nat {
    if t.Nil? then 0 else 1 + Nodes(t.left) + Nodes(t.right)
  }

  /** The points a full traversal would report. */
  ghost function Live(t: Tree): multiset<Point>
    decreases Nodes(t)
  {
    if t.Nil? then multiset{}
    else Own(t.d) + Live(EffLeft(t)) + Live(EffRight(t))
  }

  ghost function Own(d: Data): multiset<Point> {
    if d.pointDeleted then multiset{} else multiset{d.point}
  }

  /** The points a traversal would record as removed by something other than downsampling. */
  ghost function Removed(t: Tree): multiset<Point>
    decreases Nodes(t)
  {
    if t.Nil? then multiset{}
    else OwnRemoved(t.d) + Removed(EffLeft(t)) + Removed(EffRight(t))
  }

  ghost function OwnRemoved(d: Data): multiset<Point> {
    if d.pointDeleted && !d.pointDownDeleted then multiset{d.point} else multiset{}
  }

  /** Every point held in a node, dead or alive. */
  ghost function Stored(t: Tree): set<Point> {
    if t.Nil? then {} else {t.d.point} + Stored(t.left) + Stored(t.right)
  }

  // ---- Invariant ----

  ghost predicate Local(d: Data, l: Tree, r: Tree) {
    && d.size == 1 + Size(l) + Size(r)
    && d.invalid == One(d.pointDeleted) + Invalid(l) + Invalid(r)
    && d.downDel == One(d.pointDownDeleted) + DownDel(l) + DownDel(r)
    && (d.treeDeleted <==> d.pointDeleted && Dead(l) && Dead(r))
    && (d.treeDownDeleted <==> d.pointDownDeleted && DownDead(l) && DownDead(r))
    && (d.pointDownDeleted ==> d.pointDeleted)
    && d.range.Range?
    && (!d.treeDeleted ==> d.range == LiveJoin(d, l, r))
  }

  /** A single live node, with or without leftover push flags. */
  predicate LoneLive(t: Tree) {
    && t.Node? && t.left.Nil? && t.right.Nil?
    && !t.d.pointDeleted && !t.d.treeDeleted && !t.d.pointDownDeleted && !t.d.treeDownDeleted
    && t.d.size == 1 && t.d.invalid == 0 && t.d.downDel == 0
  }

  /** A push flag over a present son belongs to a whole-subtree delete, or is a leftover above a lone live node. */
  predicate PendingOk(t: Tree)
    requires t.Node?
  {
    && (t.d.needLeft && t.left.Node? && !t.d.treeDeleted ==> LoneLive(t.left))
    && (t.d.needRight && t.right.Node? && !t.d.treeDeleted ==> LoneLive(t.right))
  }

  ghost predicate Inv(t: Tree)
    decreases Nodes(t)
  {
    t.Node? ==>
      && Local(t.d, EffLeft(t), EffRight(t))
      && PendingOk(t)
      && Inv(EffLeft(t)) && Inv(EffRight(t))
  }

  /** The k-d order: on the division axis nothing on the left exceeds the node, nothing on the right is below it. */
  ghost predicate Ordered(t: Tree) {
    t.Node? ==>
      && (forall p :: p in Stored(t.left) ==> Coord(p, t.d.axis) <= Coord(t.d.point, t.d.axis))
      && (forall p :: p in Stored(t.right) ==> Coord(t.d.point, t.d.axis) <= Coord(p, t.d.axis))
      && Ordered(t.left) && Ordered(t.right)
  }

  // ---- Push_Down changes nothing that can be observed ----

  lemma {:induction false} EffSons(t: Tree)
    requires t.Node?
    ensures EffLeft(PushDown(t)) == EffLeft(t) && EffRight(PushDown(t)) == EffRight(t)
    ensures Stored(EffLeft(t)) == Stored(t.left) && Stored(EffRight(t)) == Stored(t.right)
    ensures Ordered(EffLeft(t)) == Ordered(t.left) && Ordered(EffRight(t)) == Ordered(t.right)
    ensures Size(EffLeft(t)) == Size(t.left) && Size(EffRight(t)) == Size(t.right)
  {
  }

  lemma {:induction false} PushDownKeepsMeaning(t: Tree)
    ensures Live(PushDown(t)) == Live(t)
    ensures Removed(PushDown(t)) == Removed(t)
  {
    if t.Node? {
      EffSons(t);
    }
  }

  lemma {:induction false} PushDownKeepsInv(t: Tree)
    requires Inv(t)
    ensures Inv(PushDown(t))
  {
    if t.Node? {
      EffSons(t);
      assert PendingOk(PushDown(t));
    }
  }

  lemma {:induction false} PushDownKeepsShape(t: Tree)
    ensures Stored(PushDown(t)) == Stored(t)
    ensures Size(PushDown(t)) == Size(t) && Nodes(PushDown(t)) == Nodes(t)
    ensures Ordered(t) ==> Ordered(PushDown(t))
  {
    if t.Node? {
      EffSons(t);
    }
  }

  /** Pushing a whole-subtree delete kills everything below, whatever was pending there. */
  lemma {:induction false} PushKills(p: Data, t: Tree)
    requires p.treeDeleted
    ensures Live(Pushed(p, t)) == multiset{}
    decreases Nodes(t)
  {
    if t.Node? {
      var u := Pushed(p, t);
      PushKills(u.d, t.left);
      PushKills(u.d, t.right);
    }
  }

  lemma {:induction false} DownDeadCounts(t: Tree)
    requires Inv(t) && DownDead(t)
    ensures DownDel(t) == Size(t)
    decreases Nodes(t)
  {
    if t.Node? {
      DownDeadCounts(EffLeft(t));
      DownDeadCounts(EffRight(t));
    }
  }

  lemma {:induction false} PushTwice(p: Data, d: Data, s: Tree)
    requires p.treeDeleted && (d.treeDownDeleted ==> p.treeDownDeleted)
    ensures Pushed(p, Pushed(d, s)) == Pushed(p, s)
  {
  }

  lemma {:induction false} PushKeepsLocal(p: Data, d: Data, l: Tree, r: Tree)
    requires Local(d, l, r) && p.treeDeleted
    requires DownDead(l) ==> DownDel(l) == Size(l)
    requires DownDead(r) ==> DownDel(r) == Size(r)
    ensures var u := PushOnto(p, d); Local(u, Pushed(u, l), Pushed(u, r))
  {
  }

  /** Pushing a whole-subtree delete keeps every counter, flag and range consistent. */
  lemma {:induction false} PushKeepsInv(p: Data, t: Tree)
    requires Inv(t) && p.treeDeleted
    ensures Inv(Pushed(p, t))
    decreases Nodes(t)
  {
    if t.Node? {
      var u := Pushed(p, t);
      var l, r := EffLeft(t), EffRight(t);
      PushTwice(u.d, t.d, t.left);
      PushTwice(u.d, t.d, t.right);
      assert EffLeft(u) == Pushed(u.d, l) && EffRight(u) == Pushed(u.d, r);
      PushKeepsInv(u.d, l);
      PushKeepsInv(u.d, r);
      if DownDead(l) {
        DownDeadCounts(l);
      }
      if DownDead(r) {
        DownDeadCounts(r);
      }
      PushKeepsLocal(p, t.d, l, r);
    }
  }

  // ---- What the invariant says about the cached fields ----

  lemma {:induction false} CountsExact(t: Tree)
    requires Inv(t)
    ensures |Live(t)| == Size(t) - Invalid(t) && Size(t) == Nodes(t)
    ensures Dead(t) <==> Live(t) == multiset{}
    decreases Nodes(t)
  {
    if t.Node? {
      CountsExact(EffLeft(t));
      CountsExact(EffRight(t));
    }
  }

  lemma {:induction false} RemovedExact(t: Tree)
    requires Inv(t)
    ensures |Removed(t)| == Invalid(t) - DownDel(t)
    decreases Nodes(t)
  {
    if t.Node? {
      RemovedExact(EffLeft(t));
      RemovedExact(EffRight(t));
      assert |OwnRemoved(t.d)| == One(t.d.pointDeleted) - One(t.d.pointDownDeleted);
    }
  }

  /** The counters are exact, and the range of a node with live points is their exact bounding box. */
  lemma {:induction false} CachedFieldsExact(t: Tree)
    requires Inv(t)
    ensures |Live(t)| == Size(t) - Invalid(t)
    ensures |Removed(t)| == Invalid(t) - DownDel(t)
    ensures Size(t) == Nodes(t)
    ensures Dead(t) <==> Live(t) == multiset{}
    ensures !Dead(t) ==> Tight(t.d.range, Live(t))
    decreases Nodes(t)
  {
    CountsExact(t);
    RemovedExact(t);
    if t.Node? && !t.d.treeDeleted {
      var l, r := EffLeft(t), EffRight(t);
      CachedFieldsExact(l);
      CachedFieldsExact(r);
      JoinExact(t, l, r);
    }
  }

  lemma {:induction false} JoinExact(t: Tree, l: Tree, r: Tree)
    requires t.Node? && l == EffLeft(t) && r == EffRight(t)
    requires Dead(l) <==> Live(l) == multiset{}
    requires Dead(r) <==> Live(r) == multiset{}
    requires !Dead(l) ==> Tight(l.d.range, Live(l))
    requires !Dead(r) ==> Tight(r.d.range, Live(r))
    requires !t.d.pointDeleted || !Dead(l) || !Dead(r)
    ensures Tight(LiveJoin(t.d, l, r), Live(t))
  {
    TightPoint(t.d.point);
    TightJoin(RangeIf(!Dead(l), RangeOf(l)), RangeIf(!Dead(r), RangeOf(r)), Live(l), Live(r));
    TightJoin(RangeIf(!t.d.pointDeleted, Range(t.d.point, t.d.point)),
              Join(RangeIf(!Dead(l), RangeOf(l)), RangeIf(!Dead(r), RangeOf(r))),
              Own(t.d), Live(l) + Live(r));
    assert Live(t) == Own(t.d) + (Live(l) + Live(r));
  }

  lemma {:induction false} LiveStored(t: Tree)
    ensures forall p :: p in Live(t) ==> p in Stored(t)
    decreases Nodes(t)
  {
    if t.Node? {
      LiveStored(EffLeft(t));
      LiveStored(EffRight(t));
      EffSons(t);
    }
  }

  lemma {:induction false} LoneLiveMeaning(t: Tree, p: Data)
    requires LoneLive(t) && !p.treeDeleted && !p.treeDownDeleted
    ensures Live(t) == multiset{t.d.point} == Live(Pushed(p, t))
    ensures Inv(t) ==> Inv(Pushed(p, t))
    ensures Pushed(p, t) == t.(d := t.d.(needLeft := true, needRight := true))
  {
  }

  lemma {:induction false} UpdateLocal(t: Tree)
    requires t.Node?
    requires t.left.Node? ==> t.left.d.range.Range?
    requires t.right.Node? ==> t.right.d.range.Range?
    requires t.d.pointDownDeleted ==> t.d.pointDeleted
    ensures Local(Update(t).d, t.left, t.right)
  {
  }

  lemma {:induction false} LocalUnderPush(d: Data, l: Tree, r: Tree, l': Tree, r': Tree)
    requires Local(d, l, r)
    requires l' == l || (LoneLive(l) && l' == l.(d := l.d.(needLeft := true, needRight := true)))
    requires r' == r || (LoneLive(r) && r' == r.(d := r.d.(needLeft := true, needRight := true)))
    ensures Local(d, l', r')
  {
  }

  /** Update repairs a node over consistent sons, even under a leftover push flag above a freshly created son. */
  lemma {:induction false} UpdateRepairs(t: Tree)
    requires t.Node? && Inv(t.left) && Inv(t.right)
    requires t.d.needLeft ==> t.left.Nil? || LoneLive(t.left)
    requires t.d.needRight ==> t.right.Nil? || LoneLive(t.right)
    requires t.d.pointDownDeleted ==> t.d.pointDeleted
    ensures Inv(Update(t))
    ensures Live(Update(t)) == Own(t.d) + Live(t.left) + Live(t.right)
  {
    var u := Update(t);
    if t.d.needLeft && t.left.Node? {
      LoneLiveMeaning(t.left, u.d);
    }
    if t.d.needRight && t.right.Node? {
      LoneLiveMeaning(t.right, u.d);
    }
    UpdateLocal(t);
    LocalUnderPush(u.d, t.left, t.right, EffLeft(u), EffRight(u));
  }

  /**
    One of the parts whose boxes a node joins: its own point and its sons, of a node not wholly deleted the live ones.
   */
  predicate IsPart(t: Tree, dead: bool, part: Range)
    requires t.Node?
  {
    || (part == Range(t.d.point, t.d.point) && (dead || !t.d.pointDeleted))
    || (t.left.Node? && part == t.left.d.range && (dead || !Dead(t.left)))
    || (t.right.Node? && part == t.right.d.range && (dead || !Dead(t.right)))
  }

  predicate Encloses(outer: Range, inner: Range) {
    outer.Range? && inner.Range? && forall axis: Axis ::
      Coord(outer.lo, axis) <= Coord(inner.lo, axis) && Coord(inner.hi, axis) <= Coord(outer.hi, axis)
  }

  /** The box Update computes is the least one that holds the box of every part. */
  lemma {:induction false} UpdateRange(t: Tree, part: Range, box: Range)
    requires t.Node?
    requires (t.left.Node? ==> t.left.d.range.Range?) && (t.right.Node? ==> t.right.d.range.Range?)
    ensures var u := Update(t).d; IsPart(t, u.treeDeleted, part) ==> Encloses(u.range, part)
    ensures var u := Update(t).d;
            box.Range? && (forall p :: IsPart(t, u.treeDeleted, p) ==> Encloses(box, p)) ==> Encloses(box, u.range)
  {
    var u := Update(t).d;
    var own := RangeIf(u.treeDeleted || !t.d.pointDeleted, Range(t.d.point, t.d.point));
    var l := RangeIf(u.treeDeleted || !Dead(t.left), RangeOf(t.left));
    var r := RangeIf(u.treeDeleted || !Dead(t.right), RangeOf(t.right));
    JoinEncloses(l, r);
    JoinEncloses(own, Join(l, r));
    if Join(l, r).Range? && (part == l || part == r) && part.Range? {
      EnclosesTrans(u.range, Join(l, r), part);
    }
    if box.Range? && forall p :: IsPart(t, u.treeDeleted, p) ==> Encloses(box, p) {
      JoinLeast(l, r, box);
      JoinLeast(own, Join(l, r), box);
    }
  }

  lemma {:induction false} EnclosesTrans(a: Range, b: Range, c: Range)
    requires Encloses(a, b) && Encloses(b, c)
    ensures Encloses(a, c)
  {
  }

  lemma {:induction false} JoinEncloses(a: Range, b: Range)
    ensures a.Range? ==> Encloses(Join(a, b), a)
    ensures b.Range? ==> Encloses(Join(a, b), b)
  {
  }

  lemma {:induction false} JoinLeast(a: Range, b: Range, box: Range)
    requires box.Range? && (a.Range? ==> Encloses(box, a)) && (b.Range? ==> Encloses(box, b))
    ensures Join(a, b).Range? ==> Encloses(box, Join(a, b))
  {
  }

  lemma {:induction false} UpdateKeepsShape(t: Tree)
    requires t.Node?
    ensures Stored(Update(t)) == Stored(t)
    ensures Ordered(t) ==> Ordered(Update(t))
    ensures Size(Update(t)) == 1 + Size(t.left) + Size(t.right)
  {
  }
}
