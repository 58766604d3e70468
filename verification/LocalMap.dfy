/** The cube of the map kept around the sensor: when it moves, the part left behind is deleted from the tree. */
module LocalMaps {
  import opened Geometry
  import opened KdNodes
  import opened TreeModel
  import opened KdSpec
  import opened Accounts
  import opened KdTrees

  function Abs(x: int): int {
    if x < 0 then -x else x
  }

  /** `p` with one coordinate replaced. */
  function With(p: Point, axis: Axis, v: int): Point {
    if axis == 0 then p.(x := v) else if axis == 1 then p.(y := v) else p.(z := v)
  }

  /** An edge counts as near up to 1.5 times the detection range. */
  predicate Near(distance: int, detRange: int) {
    2 * distance <= 3 * detRange
  }

  /** -1, 0 or 1: where the cube moves along an axis. The lower edge is looked at first. */
  function Direction(cube: Box, pos: Point, detRange: int, axis: Axis): int {
    if Near(Abs(Coord(pos, axis) - Coord(cube.min, axis)), detRange) then -1
    else if Near(Abs(Coord(pos, axis) - Coord(cube.max, axis)), detRange) then 1
    else 0
  }

  /** The distance of one move, rounded down to the coordinate grid. */
  function MoveDistance(side: int, detRange: int): int {
    Max((side - 3 * detRange) * 9 / 20, detRange / 2)
  }

  predicate IsCube(b: Box, side: int) {
    forall axis: Axis :: Coord(b.max, axis) - Coord(b.min, axis) == side
  }

  /** How far the cube moves along an axis. */
  function Shift(cube: Box, pos: Point, detRange: int, distance: int, axis: Axis): int {
    var d := Direction(cube, pos, detRange, axis);
    if d < 0 then -distance else if d > 0 then distance else 0
  }

  /** `after` is `before` moved by `distance` along every axis on which the position is near an edge. */
  predicate MovedCube(before: Box, after: Box, pos: Point, detRange: int, distance: int) {
    MovedUpTo(before, after, pos, detRange, distance, 3)
  }

  /** The axes before `n` have been looked at. */
  predicate MovedUpTo(before: Box, after: Box, pos: Point, detRange: int, distance: int, n: int) {
    forall axis: Axis ::
      && Coord(after.min, axis) == Coord(before.min, axis) + (if axis < n then Shift(before, pos, detRange, distance,
          axis) else 0)
      && Coord(after.max, axis) == Coord(before.max, axis) + (if axis < n then Shift(before, pos, detRange, distance,
          axis) else 0)
  }

  /** Along an axis both edges move down if the position is near the lower edge, else up if it is near the upper one. */
  predicate MovedAlong(before: Box, after: Box, pos: Point, detRange: int, distance: int, axis: Axis) {
    var x, lo, hi := Coord(pos, axis), Coord(before.min, axis), Coord(before.max, axis);
    var d := if -3 * detRange <= 2 * (x - lo) <= 3 * detRange then -distance
             else if -3 * detRange <= 2 * (x - hi) <= 3 * detRange then distance
             else 0;
    Coord(after.min, axis) == lo + d && Coord(after.max, axis) == hi + d
  }

  lemma {:induction false} MovedCubeMeaning(before: Box, after: Box, pos: Point, detRange: int, distance: int)
    ensures MovedCube(before, after, pos, detRange, distance) <==>
              && MovedAlong(before, after, pos, detRange, distance, 0)
              && MovedAlong(before, after, pos, detRange, distance, 1)
              && MovedAlong(before, after, pos, detRange, distance, 2)
  {
  }

  /**
    The distance of a move in exact numbers, rounded down: 0.45 of what the two margins leave, at least half a range.
   */
  lemma {:induction false} MoveDistanceMeaning(side: int, detRange: int)
    ensures var d, r := side as real, detRange as real;
            var exact := if 0.45 * (d - 3.0 * r) >= 0.5 * r then 0.45 * (d - 3.0 * r) else 0.5 * r;
            MoveDistance(side, detRange) as real <= exact < MoveDistance(side, detRange) as real + 1.0
  {
  }

  /** The cube follows the sensor: what is inside stays inside, and comes to lie farther from the edge it was near. */
  predicate FollowsSensor(before: Box, after: Box, pos: Point, detRange: int, distance: int, axis: Axis) {
    var x, lo, hi := Coord(pos, axis), Coord(before.min, axis), Coord(before.max, axis);
    && Coord(after.min, axis) <= x < Coord(after.max, axis)
    && (2 * (x - lo) <= 3 * detRange ==> x - Coord(after.min, axis) == x - lo + distance)
    && (2 * (x - lo) > 3 * detRange && 2 * (hi - x) <= 3 * detRange ==>
          Coord(after.max, axis) - x == hi - x + distance)
  }

  lemma {:induction false} MoveFollowsSensor(before: Box, after: Box, pos: Point, detRange: int, side: int)
    requires IsCube(before, side) && MovedCube(before, after, pos, detRange, MoveDistance(side, detRange))
    requires detRange > 0 && side >= 3 * detRange && Inside(before, pos)
    ensures Inside(after, pos)
    ensures forall axis: Axis :: FollowsSensor(before, after, pos, detRange, MoveDistance(side, detRange), axis)
  {
    InsideByAxis(before, pos);
    InsideByAxis(after, pos);
  }

  lemma {:induction false} Followed(before: Box, after: Box, pos: Point, detRange: int, side: int)
    requires IsCube(before, side) && MovedCube(before, after, pos, detRange, MoveDistance(side, detRange))
    ensures detRange > 0 && side >= 3 * detRange && Inside(before, pos) ==>
              forall axis: Axis :: FollowsSensor(before, after, pos, detRange, MoveDistance(side, detRange), axis)
  {
    if detRange > 0 && side >= 3 * detRange && Inside(before, pos) {
      MoveFollowsSensor(before, after, pos, detRange, side);
    }
  }

  /** The box listed for removal on one axis. */
  function Slab(cube: Box, axis: Axis, direction: int, distance: int): Box {
    if direction < 0 then cube.(min := With(cube.min, axis, Coord(cube.max, axis) - distance))
    else cube.(max := With(cube.max, axis, Coord(cube.min, axis) + distance))
  }

  ghost predicate InSome(boxes: seq<Box>, p: Point) {
    exists b :: b in boxes && Inside(b, p)
  }

  /** The region a moving cube leaves. */
  predicate LeftBehind(before: Box, after: Box, p: Point) {
    Inside(before, p) && !Inside(after, p)
  }

  predicate InSlab(cube: Box, pos: Point, detRange: int, distance: int, axis: Axis, p: Point) {
    Direction(cube, pos, detRange, axis) != 0
        && Inside(Slab(cube, axis, Direction(cube, pos, detRange, axis), distance), p)
  }

  ghost predicate InAnySlab(cube: Box, pos: Point, detRange: int, distance: int, p: Point) {
    exists axis: Axis :: InSlab(cube, pos, detRange, distance, axis, p)
  }

  lemma {:induction false} MoveNotNegative(side: int, detRange: int)
    requires side >= 0
    ensures MoveDistance(side, detRange) >= 0
  {
  }

  /** A move longer than the side happens exactly for detection ranges above twice the side, up to the grid. */
  lemma {:induction false} MoveWithinSide(side: int, detRange: int)
    requires side >= 0 && detRange >= 0
    ensures MoveDistance(side, detRange) <= side <==> detRange <= 2 * side + 1
  {
  }

  lemma {:induction false} InsideByAxis(b: Box, p: Point)
    ensures Inside(b, p) <==> forall axis: Axis :: Coord(b.min, axis) <= Coord(p, axis) < Coord(b.max, axis)
  {
    if forall axis: Axis :: Coord(b.min, axis) <= Coord(p, axis) < Coord(b.max, axis) {
      assert Coord(b.min, 0) <= Coord(p, 0) < Coord(b.max, 0);
      assert Coord(b.min, 1) <= Coord(p, 1) < Coord(b.max, 1);
      assert Coord(b.min, 2) <= Coord(p, 2) < Coord(b.max, 2);
    }
  }

  lemma {:induction false} SlabByAxis(cube: Box, axis: Axis, direction: int, distance: int, other: Axis)
    ensures var s := Slab(cube, axis, direction, distance);
            && Coord(s.min, other)
               == (if other == axis && direction < 0 then Coord(cube.max, axis) - distance else Coord(cube.min, other))
            && Coord(s.max, other)
               == (if other == axis && direction >= 0 then Coord(cube.min, axis) + distance else Coord(cube.max, other))
  {
  }

  /** Whatever the distance, the slabs hold every point left behind and no point of the new cube. */
  lemma {:induction false} SlabsSafe(before: Box, after: Box, pos: Point, detRange: int, side: int, distance: int,
                                     p: Point)
    requires IsCube(before, side) && MovedCube(before, after, pos, detRange, distance) && side >= 0 && distance >= 0
    ensures LeftBehind(before, after, p) ==> InAnySlab(before, pos, detRange, distance, p)
    ensures forall axis: Axis :: InSlab(before, pos, detRange, distance, axis, p) ==> !Inside(after, p)
  {
    InsideByAxis(before, p);
    InsideByAxis(after, p);
    if Inside(before, p) && !Inside(after, p) {
      var axis: Axis :| !(Coord(after.min, axis) <= Coord(p, axis) < Coord(after.max, axis));
      var d := Direction(before, pos, detRange, axis);
      forall other: Axis {
        SlabByAxis(before, axis, d, distance, other);
      }
      InsideByAxis(Slab(before, axis, d, distance), p);
      assert InSlab(before, pos, detRange, distance, axis, p);
    }
    forall axis: Axis | InSlab(before, pos, detRange, distance, axis, p) ensures !Inside(after, p) {
      var d := Direction(before, pos, detRange, axis);
      SlabByAxis(before, axis, d, distance, axis);
      InsideByAxis(Slab(before, axis, d, distance), p);
    }
  }

  /** For moves up to the side length the slabs stay inside the old cube. */
  lemma {:induction false} SlabsInside(cube: Box, pos: Point, detRange: int, side: int, distance: int, axis: Axis,
                                       p: Point)
    requires IsCube(cube, side) && distance <= side
    requires InSlab(cube, pos, detRange, distance, axis, p)
    ensures Inside(cube, p)
  {
    var d := Direction(cube, pos, detRange, axis);
    forall other: Axis ensures Coord(cube.min, other) <= Coord(p, other) < Coord(cube.max, other) {
      SlabByAxis(cube, axis, d, distance, other);
      InsideByAxis(Slab(cube, axis, d, distance), p);
    }
    InsideByAxis(cube, p);
  }

  /**
    The slabs are exactly the region left behind, for a move on at least one axis, if and only if the move is no longer
    than the side.
   */
  lemma {:induction false} SlabsExact(before: Box, after: Box, pos: Point, detRange: int, side: int, distance: int)
    requires IsCube(before, side) && MovedCube(before, after, pos, detRange, distance) && side > 0 && distance >= 0
    requires exists axis: Axis :: Direction(before, pos, detRange, axis) != 0
    ensures distance <= side <==>
              forall p :: InAnySlab(before, pos, detRange, distance, p)
                          <==> LeftBehind(before, after, p)
  {
    forall p ensures distance <= side ==> (InAnySlab(before, pos, detRange, distance, p)
                                           <==> LeftBehind(before, after, p))
    {
      SlabsSafe(before, after, pos, detRange, side, distance, p);
      if distance <= side && InAnySlab(before, pos, detRange, distance, p) {
        var axis: Axis :| InSlab(before, pos, detRange, distance, axis, p);
        SlabsInside(before, pos, detRange, side, distance, axis, p);
      }
    }
    if distance > side {
      SlabsTooLong(before, pos, detRange, side, distance);
    }
  }

  /** A longer move lists points beside the old cube. */
  lemma {:induction false} SlabsTooLong(cube: Box, pos: Point, detRange: int, side: int, distance: int)
    requires IsCube(cube, side) && 0 < side < distance
    requires exists axis: Axis :: Direction(cube, pos, detRange, axis) != 0
    ensures exists p :: InAnySlab(cube, pos, detRange, distance, p) && !Inside(cube, p)
  {
    var axis: Axis :| Direction(cube, pos, detRange, axis) != 0;
    var d := Direction(cube, pos, detRange, axis);
    var p := With(cube.min, axis, if d < 0 then Coord(cube.min, axis) - 1 else Coord(cube.max, axis));
    forall other: Axis
      ensures var s := Slab(cube, axis, d, distance);
              Coord(s.min, other) <= Coord(p, other) < Coord(s.max, other)
    {
      SlabByAxis(cube, axis, d, distance, other);
    }
    InsideByAxis(Slab(cube, axis, d, distance), p);
    assert InSlab(cube, pos, detRange, distance, axis, p);
    InsideByAxis(cube, p);
    assert Coord(p, axis) == if d < 0 then Coord(cube.min, axis) - 1 else Coord(cube.max, axis);
  }

  /** What deleting the listed boxes leaves of a map. */
  lemma {:induction false} MapAfterMove(before: Box, after: Box, pos: Point, detRange: int, side: int, distance: int,
                                        boxes: seq<Box>, S: multiset<Point>)
    requires IsCube(before, side) && MovedCube(before, after, pos, detRange, distance) && side >= 0 && distance >= 0
    requires forall p :: InSome(boxes, p) <==> InAnySlab(before, pos, detRange, distance, p)
    ensures forall p :: Inside(after, p) ==> OutsideAll(S, boxes)[p] == S[p]
    ensures forall p :: LeftBehind(before, after, p) ==> OutsideAll(S, boxes)[p] == 0
    ensures distance <= side ==> forall p :: !LeftBehind(before, after, p) ==> OutsideAll(S, boxes)[p] == S[p]
  {
    forall p
      ensures LeftBehind(before, after, p) ==> InSome(boxes, p)
      ensures InSome(boxes, p) ==> !Inside(after, p) && (distance <= side ==> LeftBehind(before, after, p))
    {
      SlabsSafe(before, after, pos, detRange, side, distance, p);
      if distance <= side && InSome(boxes, p) {
        var axis: Axis :| InSlab(before, pos, detRange, distance, axis, p);
        SlabsInside(before, pos, detRange, side, distance, axis, p);
      }
    }
    forall p ensures OutsideAll(S, boxes)[p] == if InSome(boxes, p) then 0 else S[p] {
    }
  }

  class LocalMap {
    const halfSide: int
    const detRange: int
    var cube: Box
    var initialized: bool

    predicate Valid()
      reads this
    {
      halfSide >= 0 && (initialized ==> IsCube(cube, 2 * halfSide))
    }

    constructor (halfSide: int, detRange: int)
      requires halfSide >= 0
      ensures Valid() && !initialized && this.halfSide == halfSide && this.detRange == detRange
    {
      this.halfSide, this.detRange := halfSide, detRange;
      cube, initialized := Box(Point(0, 0, 0), Point(0, 0, 0)), false;
    }

    /** The boxes to remove and the moved cube. */
    method MoveCube(pos: Point) returns (boxes: seq<Box>, ghost distance: int)
      requires Valid() && initialized
      modifies `cube
      ensures Valid() && distance == MoveDistance(2 * halfSide, detRange) >= 0
      ensures MovedCube(old(cube), cube, pos, detRange, distance)
      ensures detRange > 0 && 2 * halfSide >= 3 * detRange && Inside(old(cube), pos) ==>
                forall axis: Axis :: FollowsSensor(old(cube), cube, pos, detRange, distance, axis)
      ensures forall p :: InSome(boxes, p) <==> InAnySlab(old(cube), pos, detRange, distance, p)
    {
      var before := cube;
      var needMove := false;
      for i := 0 to 3
        invariant needMove <==> exists a: Axis :: a < i && Direction(before, pos, detRange, a) != 0
      {
        var axis: Axis := i;
        if Near(Abs(Coord(pos, axis) - Coord(before.min, axis)), detRange)
           || Near(Abs(Coord(pos, axis) - Coord(before.max, axis)), detRange) {
          needMove := true;
          assert Direction(before, pos, detRange, axis) != 0;
        }
      }
      boxes := [];
      var moveDistance := MoveDistance(2 * halfSide, detRange);
      distance := moveDistance;
      MoveNotNegative(2 * halfSide, detRange);
      if !needMove {
        Followed(before, before, pos, detRange, 2 * halfSide);
        return;
      }
      var after := before;
      for i := 0 to 3
        invariant MovedUpTo(before, after, pos, detRange, moveDistance, i)
        invariant forall p ::
                    InSome(boxes, p) <==> exists a: Axis :: a < i && InSlab(before, pos, detRange, moveDistance, a, p)
      {
        var axis: Axis := i;
        ghost var listed, last := boxes, after;
        if Near(Abs(Coord(pos, axis) - Coord(before.min, axis)), detRange) {
          after := Box(With(after.min, axis, Coord(after.min, axis) - moveDistance),
                       With(after.max, axis, Coord(after.max, axis) - moveDistance));
          boxes := boxes + [before.(min := With(before.min, axis, Coord(before.max, axis) - moveDistance))];
        } else if Near(Abs(Coord(pos, axis) - Coord(before.max, axis)), detRange) {
          after := Box(With(after.min, axis, Coord(after.min, axis) + moveDistance),
                       With(after.max, axis, Coord(after.max, axis) + moveDistance));
          boxes := boxes + [before.(max := With(before.max, axis, Coord(before.min, axis) + moveDistance))];
        }
        MovedFurther(before, last, after, pos, detRange, moveDistance, axis);
        Listed(before, pos, detRange, moveDistance, axis, listed, boxes);
      }
      Followed(before, after, pos, detRange, 2 * halfSide);
      cube := after;
    }

    /** Creates the cube around the first position; afterwards moves it and deletes what it leaves behind. */
    method FovSegment(pos: Point, tree: KdTree) returns (count: int)
      requires Valid() && tree.Valid()
      modifies `cube, `initialized, tree, ReprOf(tree.rootNode)
      ensures Valid() && initialized && tree.Valid()
      ensures (tree.rootNode == null <==> old(tree.rootNode) == null)
      ensures count == |old(tree.Map())| - |tree.Map()|
      ensures !old(initialized) ==>
                && tree.Map() == old(tree.Map())
                && forall axis: Axis :: Coord(cube.min, axis) + halfSide == Coord(pos, axis) == Coord(cube.max,
                    axis) - halfSide
      ensures old(initialized) ==>
                MovedCube(old(cube), cube, pos, detRange, MoveDistance(2 * halfSide, detRange))
      // A sensor inside the cube stays inside, away from the edge it was near.
      ensures old(initialized) && detRange > 0 && 2 * halfSide >= 3 * detRange && Inside(old(cube), pos) ==>
                forall axis: Axis ::
                  FollowsSensor(old(cube), cube, pos, detRange, MoveDistance(2 * halfSide, detRange), axis)
      // No live point of the new cube is lost, none of the region left behind remains.
      ensures old(initialized) ==> forall p :: Inside(cube, p) ==> tree.Map()[p] == old(tree.Map())[p]
      ensures old(initialized) ==> forall p :: LeftBehind(old(cube), cube, p) ==> tree.Map()[p] == 0
      // For moves up to the side length nothing else changes.
      ensures old(initialized) && MoveDistance(2 * halfSide, detRange) <= 2 * halfSide ==>
                forall p :: !LeftBehind(old(cube), cube, p) ==> tree.Map()[p] == old(tree.Map())[p]
      // The tree does not grow, and keeps its balance, its exact counters and the account of all points.
      ensures Size(Model(tree.rootNode)) <= old(Size(Model(tree.rootNode)))
      ensures KeepsCounters(old(Model(tree.rootNode)), Model(tree.rootNode))
      ensures LosesNone(old(Model(tree.rootNode)), old(tree.pointsDeleted), Model(tree.rootNode), tree.pointsDeleted,
                        false)
      ensures old(tree.Immediate(Size(Model(tree.rootNode)))) ==>
                tree.rebuildPtr == null && KeepsBalance(old(Model(tree.rootNode)), Model(tree.rootNode), tree.cfg)
    {
      ghost var t := Model(tree.rootNode);
      KeepsBalanceSelf(t, tree.cfg);
      ConservesSelf(t, tree.pointsDeleted, false);
      CountersTrans(t, t, t);
      count := 0;
      if !initialized {
        cube := Box(Point(pos.x - halfSide, pos.y - halfSide, pos.z - halfSide),
                    Point(pos.x + halfSide, pos.y + halfSide, pos.z + halfSide));
        initialized := true;
        return;
      }
      ghost var before := cube;
      var boxes;
      ghost var distance;
      boxes, distance := MoveCube(pos);
      assert boxes == [] ==> OutsideAll(tree.Map(), boxes) == tree.Map();
      if |boxes| > 0 {
        count := tree.DeletePointBoxes(boxes);
      }
      MapAfterMove(before, cube, pos, detRange, 2 * halfSide, distance, boxes, old(tree.Map()));
    }
  }

  /** Moving along one more axis. */
  lemma {:induction false} MovedFurther(before: Box, last: Box, after: Box, pos: Point, detRange: int, distance: int,
                                        axis: Axis)
    requires MovedUpTo(before, last, pos, detRange, distance, axis)
    requires var d := Shift(before, pos, detRange, distance, axis);
             after == Box(With(last.min, axis, Coord(last.min, axis) + d), With(last.max, axis, Coord(last.max,
                 axis) + d))
    ensures MovedUpTo(before, after, pos, detRange, distance, axis + 1)
  {
  }

  /** Listing the box of one more axis. */
  lemma {:induction false} Listed(cube: Box, pos: Point, detRange: int, distance: int, axis: Axis, listed: seq<Box>,
                                  boxes: seq<Box>)
    requires boxes == if Direction(cube, pos, detRange, axis) == 0 then listed
                      else listed + [Slab(cube, axis, Direction(cube, pos, detRange, axis), distance)]
    requires forall p ::
               InSome(listed, p) <==> exists a: Axis :: a < axis && InSlab(cube, pos, detRange, distance, a, p)
    ensures forall p ::
              InSome(boxes, p) <==> exists a: Axis :: a < axis + 1 && InSlab(cube, pos, detRange, distance, a, p)
  {
    forall p ensures InSome(boxes, p)
            <==> exists a: Axis :: a < axis + 1 && InSlab(cube, pos, detRange, distance, a, p) {
      assert InSome(boxes, p) <==> InSome(listed, p) || InSlab(cube, pos, detRange, distance, axis, p) by {
        if InSlab(cube, pos, detRange, distance, axis, p) {
          assert boxes[|boxes| - 1] in boxes;
        }
        if InSome(listed, p) {
          var b :| b in listed && Inside(b, p);
          assert b in boxes;
        }
      }
    }
  }
}
