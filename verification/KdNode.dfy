/** A node of the incremental k-d tree as a heap object, with the two single-node operations. */
module KdNodes {
  import opened Geometry
  import opened TreeModel

  /** The cached fields live in the record `d`; `model` and `Repr` describe the subtree below. */
  class KdNode {
    ghost var model: Tree
    ghost var Repr: set<KdNode>

    var d: Data
    var left: KdNode?
    var right: KdNode?

    ghost predicate Valid()
      reads this, Repr
      ensures Valid() ==> this in Repr
      decreases Repr
    {
      && this in Repr
      && (left != null ==> left in Repr && left.Repr <= Repr && this !in left.Repr && left.Valid())
      && (right != null ==> right in Repr && right.Repr <= Repr && this !in right.Repr && right.Valid())
      && (left != null && right != null ==> left.Repr !! right.Repr)
      && model == Node(d, Model(left), Model(right))
    }

    /** InitTreeNode, with the caller's assignments of point and division axis. */
    constructor (p: Point, axis: Axis)
      ensures Valid() && fresh(Repr) && Repr == {this} && left == null && right == null
      ensures model == Node(FreshData(p, axis), Nil, Nil)
    {
      d := FreshData(p, axis);
      left, right := null, null;
      Repr := {this};
      model := Node(FreshData(p, axis), Nil, Nil);
    }

    /** Writes the flags and counters that a father with fields `p` pushes onto this node. */
    method ReceivePush(p: Data)
      requires Valid()
      modifies this
      ensures Valid() && Repr == old(Repr) && left == old(left) && right == old(right)
      ensures model == Pushed(p, old(model))
    {
      var treeDown := d.treeDownDeleted || p.treeDownDeleted;
      var pointDown := d.pointDownDeleted || p.treeDownDeleted;
      var treeDel := p.treeDeleted || treeDown;
      var down := d.downDel;
      if p.treeDownDeleted {
        down := d.size;
      }
      var invalid := down;
      if p.treeDeleted {
        invalid := d.size;
      }
      d := d.(treeDownDeleted := treeDown,
              pointDownDeleted := pointDown,
              treeDeleted := treeDel,
              pointDeleted := treeDel || pointDown,
              downDel := down,
              invalid := invalid,
              needLeft := true,
              needRight := true);
      model := Pushed(p, model);
    }

    method PushDown()
      requires Valid()
      modifies this, left, right
      ensures Valid() && Repr == old(Repr) && left == old(left) && right == old(right)
      ensures left != null ==> left.Repr == old(left.Repr)
      ensures right != null ==> right.Repr == old(right.Repr)
      ensures model == TreeModel.PushDown(old(model))
    {
      if d.needLeft && left != null {
        left.ReceivePush(d);
        d := d.(needLeft := false);
      }
      if d.needRight && right != null {
        right.ReceivePush(d);
        d := d.(needRight := false);
      }
      model := Node(d, Model(left), Model(right));
    }

    method SetLeft(son: KdNode?)
      requires son != null ==> son.Valid() && this !in son.Repr
      requires right != null ==> right.Valid() && this !in right.Repr
      requires son != null && right != null ==> son.Repr !! right.Repr
      modifies this
      ensures Valid() && left == son && right == old(right) && d == old(d)
      ensures Repr == {this} + ReprOf(left) + ReprOf(right)
      ensures model == Node(d, Model(son), Model(right))
    {
      left := son;
      Repr := {this} + ReprOf(left) + ReprOf(right);
      model := Node(d, Model(left), Model(right));
    }

    method SetRight(son: KdNode?)
      requires son != null ==> son.Valid() && this !in son.Repr
      requires left != null ==> left.Valid() && this !in left.Repr
      requires left != null && son != null ==> left.Repr !! son.Repr
      modifies this
      ensures Valid() && left == old(left) && right == son && d == old(d)
      ensures Repr == {this} + ReprOf(left) + ReprOf(right)
      ensures model == Node(d, Model(left), Model(son))
    {
      right := son;
      Repr := {this} + ReprOf(left) + ReprOf(right);
      model := Node(d, Model(left), Model(right));
    }

    method SetFields(s: Data)
      requires Valid()
      modifies this
      ensures Valid() && left == old(left) && right == old(right) && Repr == old(Repr)
      ensures d == s && model == Node(s, old(model).left, old(model).right)
    {
      d := s;
      model := Node(d, Model(left), Model(right));
    }

    /** Recomputes counters, flags and range from the sons; `Repr` is brought up to date as well. */
    method Update()
      requires left != null ==> left.Valid() && this !in left.Repr
      requires right != null ==> right.Valid() && this !in right.Repr
      requires left != null && right != null ==> left.Repr !! right.Repr
      modifies this
      ensures Valid() && left == old(left) && right == old(right)
      ensures Repr == {this} + ReprOf(left) + ReprOf(right)
      ensures model == TreeModel.Update(Node(old(d), old(Model(left)), old(Model(right))))
    {
      var s := UpdatedFields();
      d := s;
      model := Node(d, Model(left), Model(right));
      Repr := {this} + ReprOf(left) + ReprOf(right);
    }

    method UpdatedFields() returns (s: Data)
      requires left != null ==> left.Valid()
      requires right != null ==> right.Valid()
      ensures Node(s, Model(left), Model(right)) == TreeModel.Update(Node(d, Model(left), Model(right)))
    {
      var size, invalid, down := 1, One(d.pointDeleted), One(d.pointDownDeleted);
      var treeDown, treeDel := d.pointDownDeleted, d.pointDeleted;
      if left != null {
        size := size + left.d.size;
        invalid := invalid + left.d.invalid;
        down := down + left.d.downDel;
        treeDown := treeDown && left.d.treeDownDeleted;
        treeDel := treeDel && left.d.treeDeleted;
      }
      if right != null {
        size := size + right.d.size;
        invalid := invalid + right.d.invalid;
        down := down + right.d.downDel;
        treeDown := treeDown && right.d.treeDownDeleted;
        treeDel := treeDel && right.d.treeDeleted;
      }
      var range := UpdatedRange(treeDel);
      s := d.(size := size, invalid := invalid, downDel := down,
              treeDownDeleted := treeDown, treeDeleted := treeDel, range := range);
    }

    method UpdatedRange(treeDel: bool) returns (range: Range)
      requires left != null ==> left.Valid()
      requires right != null ==> right.Valid()
      ensures range == if treeDel then FullJoin(d, Model(left), Model(right))
                       else LiveJoin(d, Model(left), Model(right))
    {
      var own := Range(d.point, d.point);
      range := if treeDel || !d.pointDeleted then own else NoRange;
      if left != null && (treeDel || !left.d.treeDeleted) {
        range := Join(range, left.d.range);
      }
      if right != null && (treeDel || !right.d.treeDeleted) {
        range := Join(range, right.d.range);
      }
      JoinAssociates(own, RangeOf(Model(left)), RangeOf(Model(right)));
      JoinAssociates(RangeIf(!d.pointDeleted, own), RangeIf(!Dead(Model(left)), RangeOf(Model(left))),
                     RangeIf(!Dead(Model(right)), RangeOf(Model(right))));
    }
  }

  lemma {:induction false} JoinAssociates(a: Range, b: Range, c: Range)
    ensures Join(Join(a, b), c) == Join(a, Join(b, c))
  {
  }

  ghost function Model(n: KdNode?): Tree
    reads n
  {
    if n == null then Nil else n.model
  }

  ghost function ReprOf(n: KdNode?): set<KdNode>
    reads n
  {
    if n == null then {} else n.Repr
  }
}
