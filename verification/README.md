# Verified models of the FAST-LIO workspace

Models, in Dafny 4.11, of the parts of the workspace whose correctness is hardest to see from the code, with proofs of
what they are for.

**The incremental k-d tree** (`fast_lio/include/ikd-Tree`). Deleted points stay in place behind lazy flags; counters and
boxes are cached; small unbalanced subtrees are rebuilt at once and large ones by a second thread. The specification is a
multiset of points. `TreeModel` and `TreeOps` hold the value of a tree with all its pending flags and the invariant about
flags that have not been pushed yet; `KdNodes`, `TreeBuilder`, `KdWalks`, `Knn`, `ManualHeap` and `KdTrees` are the
imperative operations on heap nodes, each proved against these values; `Balance` is the weight balance and the depth it
implies; `Accounts` follows every point ever inserted; `Cells` is downsampling. `StaleTrees` is what remains of the invariant when counters are out of date; with the k-d
order it is all that the operations rely on; `TreeWays` replaces subtrees, `Operations` is the logged operations, `MapWalks` what a walk over the
map does to one subtree, `BackgroundRebuild` the state machine of the two threads over the whole map, `RebuildLimits` where
it breaks, `MapRuns` whole runs of the main thread, `OperationQueues` its log and `SearchGate` the counter that keeps searches out. `LocalMaps` moves the cube around the sensor and composes with the
tree's deletion.

**The vendored JSON library** (`livox_ros_driver2/3rdparty/rapidjson`). `JsonDescent` and `JsonTable` are the two parsers as
functions, `JsonReaders` is the reader object that refines both, `JsonAgreement` proves that they agree, `JsonSyntax` that
they accept exactly the grammar of RFC 8259, `JsonDocuments` is the document built on a flat stack, `Utf8` and `JsonPointers`
are the encoding of RFC 3629 and the pointers of RFC 6901.

**The filters** (`lidar_to_mavros`, `fast_lio/src/IMU_Processing.hpp`), over reals: `PoseFilter`, `ZeroDrift`, `ImuInit`.

## Modelling decisions

- Tree coordinates and distances are integers (fixed point), so the tolerances 1e-10 and 1e-6 are exact equality; distances
  are squared and the distance to a cell centre is taken times four. An unbounded search distance is `None`. A point is
  its coordinates.
- The criterion parameters are fractions; the rebuild threshold and the log length are parameters.
- `nth_element` is selection of the least remaining elements; only its contract is used.
- Folded statements (`forall k :: Open(k) ==> ...`, with `Open` always true) keep a statement in one piece until a proof asks
  for its parts. They mean what they guard.
- In the background rebuild a step is one critical section, and a walk of an insertion or box delete over the whole map is
  one step. A swap that falls into the middle of a walk leaves the live points alone (`SwapMidWalk`) and leads to the same
  tree as a swap after the walk with the nodes of its path updated once more (`WalkEndsAfterSwap`), which is harmless because
  these nodes are alive (`WalkEndKeeps`, `InsertionPathAlive`, `CutAlive`); such updates, the
  immediate rebuilds of a walk and the loop after a swap (335-346) are steps of their own, at any node outside the designated
  subtree. Clearing `rebuild_flag` right after the mutex is released (351-352) belongs to the swap step: this is an atomicity
  assumption. The snapshot is assumed not empty (282, 332), and the log below its length; `PushFaithful` shows that this is
  exactly what the log needs.
- `KdTrees` assumes a non-null root where the source dereferences it without a test (519, 535, 553). `DeleteByRange` never makes
  a present root null, so this holds from the first non-empty Build on.
- JSON tokens are opaque: a string, a number or a literal carries the outcome of scanning it, and an unterminated comment is
  a token that no value starts with. The handler is a function of the events so far. Member and element counts wrap at 2^32.
- The byte streams of the UTF-8 functions yield zero at their end, as the memory stream does. A pointer's source is followed
  by a terminator: the parser looks at the character behind an empty source and behind an unfinished percent triplet, although
  its comment says that no terminator is needed.
- Square roots are compared by their squares; `StillIsNorm`, `NormWithinMeans` and `RootAtMostMeans` show that this is the same.
  A coordinate that is not a number is `None`. Message times are not negative. sigma_r is positive.
- The mount-tilt check of the initialization is a boolean input. Clock readings are inputs.

## Where the code does not do what one might expect

- `HalvedUnbalancedBelow`: with a balance parameter below 6/11 a freshly built tree of twelve points is already out of balance.
- `UpdateRevives`: the loop after a swap (335-346) asks whether a push is pending onto the node it updates, not whether one is
  pending from it. Where a whole-subtree delete is still to be pushed from that node onto the new subtree, Update clears the
  delete flag, and deleted points come back. `BuiltMapsRevive` leads every built map that is large enough there. With no push
  pending further above, `RefreshExact` is the exact condition; with one pending there the points stay dead until it is
  pushed. `RunRefines` holds for every run in which no Update meets such a node.
- `StaleWithdrawal`: after a swap TreeSize may overstate above the new subtree. A larger subtree registered by such a size can
  turn out to be small while it is being rebuilt; Rebuild_Ptr is then withdrawn, and the swap dereferences a null pointer.
  `WithdrawnExactly` is the exact condition for an insertion. `RunStays` shows that it cannot happen to a subtree that has at
  least as many nodes as the threshold; the converse does not hold, because nodes that no later walk passes, such as those
  under a pending delete, keep their overstated size for good.
- `KillRecords`: deleting a whole subtree by downsampling also withdraws what earlier box deletes had marked there, so these points
  never reach Points_deleted. `DeleteRecords` and `RunAccount` show that nothing else loses points.
- `OverflowMissed`: the overflow test for index tokens compares 32-bit values only, so 5000000000 is read as the index 705032704.
  `IndexMeaning` is the exact condition for every name, `OverflowTest` in closed form up to ten times 2^32.
- `WrappedCountFails`: element counts wrap around, so an array of 2^32 elements leaves them on the stack of the document.
- `PushFaithful`: a push onto a full log overwrites operations still to be replayed.
- `SlabsExact`: for a detection range above twice the cube side the listed boxes reach outside the old cube; points of the new
  cube are never lost even then (`SlabsSafe`).
- `ParsersAgree`: the two parsers differ in the error code, and in nothing else, exactly on documents that start with a closing
  bracket, a comma or a colon.
- `EncodedDecodes`: Encode writes surrogates, which Decode rejects.
- `ZeroDriftCalibrator.Process`: the call that completes the calibration returns its position uncorrected; a comment at the caller
  (lidar_to_mavros/src/lidar_to_mavros.cpp:370-377) speaks of a position already corrected. The model follows the code.

## Model

| member | source | states |
|---|---|---|
| `TreeModel.CachedFieldsExact` | fast_lio/include/ikd-Tree/ikd_Tree.cpp:1458-1612 | at every consistent node TreeSize - invalid_point_num is the number of live points, invalid_point_num - down_del_num the number of deleted points that downsampling did not delete, tree_deleted holds exactly when nothing is live, and the cached box of a node with live points is their exact bounding box, whatever is still to be pushed down |
| `TreeModel.PushDownKeepsMeaning` | fast_lio/include/ikd-Tree/ikd_Tree.cpp:1360-1455 | Push_Down changes neither the live nor the recorded points, in whatever state of pending flags |
| `TreeModel.PushDownKeepsInv` | fast_lio/include/ikd-Tree/ikd_Tree.cpp:1360-1455 | Push_Down keeps counters, flags and boxes consistent |
| `TreeModel.PushKills` | fast_lio/include/ikd-Tree/ikd_Tree.cpp:1373-1412 | pushing a whole-subtree delete kills everything below, whatever was already pending there |
| `TreeModel.PushKeepsInv` | fast_lio/include/ikd-Tree/ikd_Tree.cpp:1373-1412 | a pushed whole-subtree delete leaves every counter, flag and box below consistent |
| `TreeModel.LoneLiveMeaning` | fast_lio/include/ikd-Tree/ikd_Tree.cpp:1368-1383 | a leftover push flag that reaches a freshly inserted lone node leaves its point alive and its counters exact |
| `TreeModel.UpdateRepairs` | fast_lio/include/ikd-Tree/ikd_Tree.cpp:1458-1612 | Update makes a node consistent over consistent sons, also when a stale push flag hangs over a son created later |
| `TreeModel.UpdateRange` | fast_lio/include/ikd-Tree/ikd_Tree.cpp:1473-1602 | the box Update computes is the least one around its live parts, or around all parts of a node that is wholly deleted |
| `TreeOps.AddMeaning` | fast_lio/include/ikd-Tree/ikd_Tree.cpp:995-1059 | an insertion adds exactly its point to the live points, for every pending state of the tree |
| `TreeOps.DeleteMeaning` | fast_lio/include/ikd-Tree/ikd_Tree.cpp:767-851 | a box delete removes exactly the live points in the half-open box and returns their number |
| `StaleTrees.PartialStepSurvivor` | fast_lio/include/ikd-Tree/ikd_Tree.cpp:784-800 | a box that does not cover the cached box leaves at least one live point alive, so a delete never leads to a rebuild of nothing |
| `TreeOps.PendingPushIsDelete` | fast_lio/include/ikd-Tree/ikd_Tree.cpp:1360-1455 | a push that reaches a son of two or more points is always a whole-subtree delete; a downsample delete implies a delete |
| `TreeOps.AddSize` | fast_lio/include/ikd-Tree/ikd_Tree.cpp:995-1059 | an insertion without rebuilding raises TreeSize by one |
| `TreeOps.DeleteSize` | fast_lio/include/ikd-Tree/ikd_Tree.cpp:767-851 | a box delete without rebuilding keeps TreeSize and never removes a node |
| `TreeOps.AddPlaces` | fast_lio/include/ikd-Tree/ikd_Tree.cpp:995-1059 | a new node gets the axis after that of its father and hangs left of a node only for a strictly smaller coordinate |
| `TreeOps.PushRecords` | fast_lio/include/ikd-Tree/ikd_Tree.cpp:1373-1412 | a pushed whole-subtree delete records every live point below it, one by downsampling withdraws every record there |
| `TreeOps.KillRecords` | fast_lio/include/ikd-Tree/ikd_Tree.cpp:780-796 | deleting a whole subtree records its live points beside those marked before; by downsampling it withdraws them all |
| `TreeOps.DeleteRecords` | fast_lio/include/ikd-Tree/ikd_Tree.cpp:767-851 | a box delete records exactly the live points it removes; one by downsampling records nothing |
| `TreeOps.AddRecords` | fast_lio/include/ikd-Tree/ikd_Tree.cpp:995-1059 | an insertion records nothing and withdraws no record |
| `PushWalk.PushesKeepMeaning` | fast_lio/include/ikd-Tree/ikd_Tree.cpp:1247-1289 | a walk that only pushes flags down leaves live and recorded points as they are |
| `PushWalk.PushesKeepInv` | fast_lio/include/ikd-Tree/ikd_Tree.cpp:1247-1289 | such a walk keeps the tree consistent |
| `Balance.PassedCheckBalanced` | fast_lio/include/ikd-Tree/ikd_Tree.cpp:1335-1357 | a node that passes Criterion_Check has both sons, not only the one looked at, within the balance fraction |
| `Balance.CriterionAsRatios` | fast_lio/include/ikd-Tree/ikd_Tree.cpp:1335-1357 | the check is true exactly for more than ten points and a share of deleted points above the delete fraction, or a share of the one son looked at above the balance fraction or below one minus it |
| `Balance.PassedCheckLean` | fast_lio/include/ikd-Tree/ikd_Tree.cpp:1335-1357 | a node that passes Criterion_Check holds at most the delete fraction of deleted points |
| `Balance.HalvedBalanced` | fast_lio/include/ikd-Tree/ikd_Tree.cpp:679-733 | splitting at the middle index balances every descendant once the fraction is at least 6/11 |
| `Balance.HalvedUnbalancedBelow` | fast_lio/include/ikd-Tree/ikd_Tree.cpp:679-733 | 6/11 is exact: below it a freshly built tree of twelve points is out of balance |
| `Balance.GeometricDecay` | fast_lio/include/ikd-Tree/ikd_Tree.cpp:1335-1357 | in a balanced tree den^d * size at depth d <= num^d * size at the root, down to size ten |
| `Balance.DepthBound` | fast_lio/include/ikd-Tree/ikd_Tree.cpp:1335-1357 | the depth of a balanced tree is logarithmic in the stored points |
| `KdNodes.KdNode.constructor` | fast_lio/include/ikd-Tree/ikd_Tree.cpp:41-67 | a fresh node with the given point and division axis |
| `KdNodes.KdNode.ReceivePush` | fast_lio/include/ikd-Tree/ikd_Tree.cpp:1373-1383 | the fields of a son after a push equal the pushed value of the son |
| `KdNodes.KdNode.PushDown` | fast_lio/include/ikd-Tree/ikd_Tree.cpp:1360-1455 | the heap node pushes pending flags onto present sons and keeps a flag over a missing one |
| `KdNodes.KdNode.Update` | fast_lio/include/ikd-Tree/ikd_Tree.cpp:1458-1602 | the recomputed fields equal Update of the tree value; the box is that of the live parts, found case by case |
| `KdNodes.KdNode.UpdatedFields` | fast_lio/include/ikd-Tree/ikd_Tree.cpp:1465-1472 | size, counters and flags out of the two sons, one or none |
| `KdNodes.KdNode.UpdatedRange` | fast_lio/include/ikd-Tree/ikd_Tree.cpp:1473-1602 | the box over the live parts, or over all parts of a dead node |
| `KdNodes.JoinAssociates` | fast_lio/include/ikd-Tree/ikd_Tree.cpp:1473-1511 | taking minima and maxima over parts does not depend on their grouping |
| `TreeBuilder.BuildTree` | fast_lio/include/ikd-Tree/ikd_Tree.cpp:679-733 | the tree over a storage range: exactly its points, all live and unmarked, in k-d order, split at the middle index, with exact counters and boxes |
| `TreeBuilder.Split` | fast_lio/include/ikd-Tree/ikd_Tree.cpp:684-727 | the longest axis of the bounding box, and a partition around the middle element along it |
| `TreeBuilder.LongestAxisOf` | fast_lio/include/ikd-Tree/ikd_Tree.cpp:687-704 | the exact bounding box and its longest axis, the first one on a tie |
| `TreeBuilder.NthElement` | fast_lio/include/ikd-Tree/ikd_Tree.cpp:711-724 | a permutation with the middle element in place: nothing before it exceeds it, nothing behind it is below it |
| `TreeBuilder.WellBuiltInv` | fast_lio/include/ikd-Tree/ikd_Tree.cpp:679-733 | a built tree is consistent |
| `TreeBuilder.WellBuiltMeaning` | fast_lio/include/ikd-Tree/ikd_Tree.cpp:679-733 | the live points of a built tree are exactly the points it was built from |
| `TreeBuilder.WellBuiltShape` | fast_lio/include/ikd-Tree/ikd_Tree.cpp:679-733 | a built tree is in k-d order and evenly split at every node |
| `KdSpec.RecordedCount` | fast_lio/include/ikd-Tree/ikd_Tree.cpp:1627-1658 | a flattening records exactly invalid_point_num - down_del_num points |
| `KdSpec.CheckedBalance` | fast_lio/include/ikd-Tree/ikd_Tree.cpp:1053-1055 | the check at a node, or the rebuild it asks for, restores the balance at the node and its share of deleted points |
| `MapRuns.Perform` | fast_lio/include/ikd-Tree/ikd_Tree.cpp:549-569 | one insertion or box delete: the map changes by exactly it; balance, the share of deleted points and exact counters are kept; the account of live, marked and recorded points gains what is inserted, and only a plain box delete records anything as removed |
| `MapRuns.PerformAll` | fast_lio/include/ikd-Tree/ikd_Tree.cpp:549-658 | any sequence of insertions, box deletes and downsample deletes: the map holds what they leave, no counter that was exact ceases to be, the account of all points gains what is inserted, and while rebuilds are immediate every node stays balanced with at most the delete fraction of deleted points |
| `MapRuns.BuildAndPerform` | fast_lio/include/ikd-Tree/ikd_Tree.cpp:409-658 | a map built over any point cloud and edited in any way with immediate rebuilds: every node of more than ten points has both sons within the balance fraction and, unless wholly deleted, at most the delete fraction of deleted points; every counter is exact, the depth is logarithmic, and every point ever inserted is live, marked as removed or recorded in Points_deleted, unless downsampling deleted it |
| `MapRuns.BalancedShallow` | fast_lio/include/ikd-Tree/ikd_Tree.cpp:1335-1357 | a balanced tree has logarithmic depth in its nodes |
| `MapRuns.RunAccount` | fast_lio/include/ikd-Tree/ikd_Tree.cpp:1627-1658 | over any run the live points, the ones marked as removed and the recorded ones together are all points inserted; only deletes by downsampling take some away |
| `Accounts.AddLevelConserves` | fast_lio/include/ikd-Tree/ikd_Tree.cpp:1014-1051 | one level of an insertion, with whatever rebuilds below it, adds exactly the point to the account |
| `Accounts.DeleteLevelConserves` | fast_lio/include/ikd-Tree/ikd_Tree.cpp:801-845 | one level of a partial box delete, with whatever rebuilds below it, keeps the account |
| `Accounts.RebuiltConserves` | fast_lio/include/ikd-Tree/ikd_Tree.cpp:736-764 | a rebuild records exactly the removed points whose nodes it drops |
| `Accounts.GainsRecordNothing` | fast_lio/include/ikd-Tree/ikd_Tree.cpp:995-1059 | what keeps the account and adds points to the map alone records nothing |
| `KdSpec.AddLevel` | fast_lio/include/ikd-Tree/ikd_Tree.cpp:1014-1051 | one level of an insertion keeps the tree sound and adds the point |
| `KdSpec.DeleteLevel` | fast_lio/include/ikd-Tree/ikd_Tree.cpp:801-845 | one level of a partial box delete removes exactly the points in the box and leaves the node alive |
| `KdWalks.Flatten` | fast_lio/include/ikd-Tree/ikd_Tree.cpp:1627-1658 | the live points and the recorded points of a subtree, in some order, and nothing else |
| `KdWalks.SearchByRange` | fast_lio/include/ikd-Tree/ikd_Tree.cpp:1247-1289 | exactly the live points in the half-open box are appended, even in a partly deleted tree with pending flags |
| `ManualHeap.TopIsMax` | fast_lio/include/ikd-Tree/ikd_Tree.h:111-200 | no element exceeds the root of the array heap |
| `ManualHeap.Heap.constructor` | fast_lio/include/ikd-Tree/ikd_Tree.h:115-121 | an empty heap of the given capacity |
| `ManualHeap.Heap.Pop` | fast_lio/include/ikd-Tree/ikd_Tree.h:127-135 | removes one maximal element and nothing else; an empty heap stays as it is |
| `ManualHeap.Heap.Top` | fast_lio/include/ikd-Tree/ikd_Tree.h:136-139 | an element that no other exceeds, in particular one at the largest distance |
| `ManualHeap.Heap.Push` | fast_lio/include/ikd-Tree/ikd_Tree.h:140-148 | adds the element; a full heap stays as it is |
| `ManualHeap.Heap.MoveDown` | fast_lio/include/ikd-Tree/ikd_Tree.h:161-180 | sifting down restores the heap order over the same contents |
| `ManualHeap.Heap.FloatUp` | fast_lio/include/ikd-Tree/ikd_Tree.h:181-197 | sifting up restores the heap order over the same contents |
| `Knn.BoxDistLower` | fast_lio/include/ikd-Tree/ikd_Tree.cpp:1691-1709 | the distance to a cached box never exceeds the distance to a point in it |
| `Knn.BoxDistAttained` | fast_lio/include/ikd-Tree/ikd_Tree.cpp:1691-1709 | the distance to a cached box is the distance to the point of the box nearest to the query |
| `Knn.DistIsSquared` | fast_lio/include/ikd-Tree/ikd_Tree.cpp:1683-1688 | the squared distance in coordinates, zero between equal points only |
| `Knn.PassOver` | fast_lio/include/ikd-Tree/ikd_Tree.cpp:1088-1094 | points no nearer than the farthest of k candidates may be skipped |
| `Knn.SkipSubtree` | fast_lio/include/ikd-Tree/ikd_Tree.cpp:1064-1069 | a subtree that is dead, out of the limit or no nearer than the farthest candidate holds no needed point |
| `Knn.Replace` | fast_lio/include/ikd-Tree/ikd_Tree.cpp:1085-1095 | replacing the farthest candidate by a nearer point keeps k nearest points |
| `Knn.Offer` | fast_lio/include/ikd-Tree/ikd_Tree.cpp:1085-1095 | after a node is looked at the heap holds k nearest of the points seen so far |
| `Knn.Search` | fast_lio/include/ikd-Tree/ikd_Tree.cpp:1062-1244 | after a subtree is searched the heap holds k nearest of the earlier points and its live points within the limit |
| `Knn.NearestSearch` | fast_lio/include/ikd-Tree/ikd_Tree.cpp:426-461 | the result is sorted, with squared distances in coordinates, and consists of k nearest live points within the distance given, or of all of them when there are fewer: no live point left out is nearer than a reported one; the map is unchanged |
| `Knn.Drain` | fast_lio/include/ikd-Tree/ikd_Tree.cpp:452-460 | popping into the front of the result yields the candidates nearest first |
| `Cells.InsideCell` | fast_lio/include/ikd-Tree/ikd_Tree.cpp:489-497 | a point lies in the half-open box of a cell exactly if the cell is its own |
| `Cells.FindCell` | fast_lio/include/ikd-Tree/ikd_Tree.cpp:489-494 | a box that holds exactly the points of the grid cell of the given point, with floor division of negative coordinates |
| `Cells.OneCellBox` | fast_lio/include/ikd-Tree/ikd_Tree.cpp:489-494 | there is only one such box |
| `Cells.CellCorner` | fast_lio/include/ikd-Tree/ikd_Tree.cpp:489-494 | the least corner of the cell of a point is the grid point at or below it on every axis |
| `Cells.CentreDistMeaning` | fast_lio/include/ikd-Tree/ikd_Tree.cpp:497-507 | the distance compared is calc_dist from the midpoint of the cell, both taken twice |
| `Cells.DownsampledMeaning` | fast_lio/include/ikd-Tree/ikd_Tree.cpp:489-547 | a downsampled insertion in coordinates: the grid cell of the new point comes to hold one point alone, one of its points or the new one that is nearest the middle of the cell, and nothing else changes |
| `Cells.NeedsEditMeaning` | fast_lio/include/ikd-Tree/ikd_Tree.cpp:502-520 | the map is edited unless the cell holds a single point and that one is nearer the middle of the cell |
| `Cells.DownsampledCells` | fast_lio/include/ikd-Tree/ikd_Tree.cpp:489-547 | after a downsampled insertion the cell of the point holds exactly one point and every other cell is unchanged |
| `Cells.RunKeepsOnePerCell` | fast_lio/include/ikd-Tree/ikd_Tree.cpp:478-573 | at most one point per cell is kept by all further downsampled insertions and box deletes |
| `Cells.DeleteKeepsOnePerCell` | fast_lio/include/ikd-Tree/ikd_Tree.cpp:632-658 | a box delete keeps at most one point per cell |
| `Cells.PickedDownsampled` | fast_lio/include/ikd-Tree/ikd_Tree.cpp:500-547 | leaving the map alone when the only point of the cell is nearer the centre is a downsampled insertion too |
| `KdTrees.KdTree.CriterionCheck` | fast_lio/include/ikd-Tree/ikd_Tree.cpp:1335-1357 | the decision to rebuild that CriterionAsRatios spells out, with fractions as integer products |
| `KdTrees.KdTree.Rebuild` | fast_lio/include/ikd-Tree/ikd_Tree.cpp:736-764 | a small subtree becomes a built tree of size TreeSize - invalid_point_num over the same live points and records invalid_point_num - down_del_num points; a large one is only registered |
| `KdTrees.KdTree.Settle` | fast_lio/include/ikd-Tree/ikd_Tree.cpp:845-850 | the end of an edit: registration withdrawn if the subtree became small, kept or taken over by a larger one, criterion check, rebuild; live points unchanged, removed points of a rebuilt subtree recorded, and never null while a point is live |
| `KdTrees.KdTree.AddByPoint` | fast_lio/include/ikd-Tree/ikd_Tree.cpp:995-1059 | the heap tree gains exactly the point, stays consistent, equals the value walk when rebuilding is off and keeps the weight balance and the share of deleted points when rebuilds are immediate; the account of all points gains the point |
| `KdTrees.KdTree.AddToLeft` | fast_lio/include/ikd-Tree/ikd_Tree.cpp:1012-1030 | the left subtree gains the point; if it waits for the background rebuild it is walked without rebuilding, exactly as the value walk |
| `KdTrees.KdTree.DeleteInLeft` | fast_lio/include/ikd-Tree/ikd_Tree.cpp:810-825 | the left subtree loses the points in the box; if it waits for the background rebuild it is walked without rebuilding, exactly as the value walk |
| `KdTrees.KdTree.DeleteByRange` | fast_lio/include/ikd-Tree/ikd_Tree.cpp:767-851 | the heap tree loses exactly the live points in the box and the result counts them; a present root stays present; balance and the share of deleted points are kept when rebuilds are immediate; each removed point stays marked in the tree or is recorded |
| `KdTrees.KdTree.Build` | fast_lio/include/ikd-Tree/ikd_Tree.cpp:409-423 | the map is exactly the given points, with every descendant balanced and nothing deleted |
| `KdTrees.KdTree.Validnum` | fast_lio/include/ikd-Tree/ikd_Tree.cpp:140-163 | the number of live points |
| `KdTrees.KdTree.BoxSearch` | fast_lio/include/ikd-Tree/ikd_Tree.cpp:464-469 | the points of the map in the box, and the map unchanged |
| `KdTrees.KdTree.NearestSearch` | fast_lio/include/ikd-Tree/ikd_Tree.cpp:426-461 | k nearest points of the map, sorted, with their squared distances in coordinates; the map is unchanged |
| `KdTrees.KdTree.AddPoint` | fast_lio/include/ikd-Tree/ikd_Tree.cpp:549-569 | the map gains one point and the root stays non-null |
| `KdTrees.KdTree.DeleteBox` | fast_lio/include/ikd-Tree/ikd_Tree.cpp:632-658 | the map loses the points in one box |
| `KdTrees.KdTree.DeletePointBoxes` | fast_lio/include/ikd-Tree/ikd_Tree.cpp:632-658 | the map loses the points in any of the boxes and the result counts them; each of them stays marked in the tree or is recorded; the tree does not grow and keeps weight balance and share of deleted points when rebuilds are immediate |
| `Cells.InsertedMore` | fast_lio/include/ikd-Tree/ikd_Tree.cpp:486-547 | one more downsampled insertion extends the run of maps and the count of those that edit it |
| `Cells.PickedEdits` | fast_lio/include/ikd-Tree/ikd_Tree.cpp:502-516 | the test for editing, more than one point found or the new point chosen, says that the cell held several points or none nearer its centre than the new one |
| `KdTrees.KdTree.PickInCell` | fast_lio/include/ikd-Tree/ikd_Tree.cpp:489-513 | the cell of the point, exactly the live points in it, and one nearest its centre; the map does not change |
| `KdTrees.KdTree.ReplaceCell` | fast_lio/include/ikd-Tree/ikd_Tree.cpp:514-533 | the chosen point takes the place of what the cell holds, and nothing is recorded as removed |
| `KdTrees.KdTree.PickNearestCentre` | fast_lio/include/ikd-Tree/ikd_Tree.cpp:500-513 | a point nearest the midpoint of the cell (CentreDistMeaning), preferring the new point on a tie |
| `KdTrees.KdTree.AddDownsampled` | fast_lio/include/ikd-Tree/ikd_Tree.cpp:486-547 | the map after one downsampled insertion, in coordinates by DownsampledMeaning: exactly one point in the cell, nearest its middle, everything else unchanged; the tree is edited exactly if the cell held several points or none nearer its middle than the new one |
| `KdTrees.KdTree.AddPointsPlain` | fast_lio/include/ikd-Tree/ikd_Tree.cpp:549-572 | the map and the account of all points gain exactly the listed points |
| `KdTrees.KdTree.AddPointsDownsampled` | fast_lio/include/ikd-Tree/ikd_Tree.cpp:478-573 | the map goes through one downsampled insertion per listed point, and the result counts those that edit it; nothing is recorded as removed |
| `Operations.PushDownFlagsIsPush` | fast_lio/include/ikd-Tree/ikd_Tree.cpp:386-401 | the replayed PUSH_DOWN does to a root what Push_Down does to a son |
| `Operations.OperationMeaning` | fast_lio/include/ikd-Tree/ikd_Tree.cpp:370-406 | running an operation on a usable tree, however stale its counters are, does to its live points what the operation stands for |
| `Operations.OperationNodes` | fast_lio/include/ikd-Tree/ikd_Tree.cpp:370-406 | an insertion adds one node and no other operation adds or removes any |
| `Operations.OperationRecords` | fast_lio/include/ikd-Tree/ikd_Tree.cpp:370-406 | on a consistent tree a replayed box delete records exactly what it removes, a downsample delete nothing, and a pushed delete what was live |
| `StaleTrees.UsableFlags` | fast_lio/include/ikd-Tree/ikd_Tree.cpp:1458-1602 | with TreeSize only an upper bound and the counters of deleted points stale with it, TreeSize - invalid_point_num is still the number of live points, tree_deleted holds exactly when nothing is live, and the box is exact |
| `StaleTrees.SizeCovers` | fast_lio/include/ikd-Tree/ikd_Tree.cpp:335-346 | TreeSize never understates the number of nodes |
| `StaleTrees.PushKeepsUsable` | fast_lio/include/ikd-Tree/ikd_Tree.cpp:1373-1412 | a pushed whole-subtree delete keeps such a tree usable |
| `StaleTrees.UpdateUsable` | fast_lio/include/ikd-Tree/ikd_Tree.cpp:1458-1612 | Update makes a node usable over usable sons, also under a leftover push flag |
| `StaleTrees.AddKeepsUsable` | fast_lio/include/ikd-Tree/ikd_Tree.cpp:995-1059 | an insertion adds exactly its point to such a tree and keeps it usable |
| `StaleTrees.DeleteKeepsUsable` | fast_lio/include/ikd-Tree/ikd_Tree.cpp:767-851 | a box delete removes exactly the live points in the box from such a tree, returns their number and keeps it usable |
| `StaleTrees.CutAlive` | fast_lio/include/ikd-Tree/ikd_Tree.cpp:801-842 | a node that a box delete updates is left alive |
| `StaleTrees.AddKeepsOrder` | fast_lio/include/ikd-Tree/ikd_Tree.cpp:1014-1048 | an insertion keeps the k-d order |
| `StaleTrees.DeleteKeepsOrder` | fast_lio/include/ikd-Tree/ikd_Tree.cpp:767-851 | a box delete keeps the k-d order |
| `StaleTrees.PushesKeepUsable` | fast_lio/include/ikd-Tree/ikd_Tree.cpp:1627-1658 | walks that only push keep such a tree usable |
| `TreeWays.PlugKeepsLive` | fast_lio/include/ikd-Tree/ikd_Tree.cpp:315-331 | replacing a subtree anywhere by one with the same live points leaves the live points of the whole unchanged, under any pending deletes and with any counters, flags and boxes above it |
| `TreeWays.PlugKeepsUsable` | fast_lio/include/ikd-Tree/ikd_Tree.cpp:315-331 | between two walks it keeps the whole usable as well: every flag, box and number of live points above stays exact although nothing above is recomputed |
| `TreeWays.PlugKeepsOrder` | fast_lio/include/ikd-Tree/ikd_Tree.cpp:315-331 | replacing a subtree by one that stores no other points keeps the k-d order of the whole |
| `TreeWays.UpdateExact` | fast_lio/include/ikd-Tree/ikd_Tree.cpp:1458-1602 | Update of a node keeps its live points if and only if no whole-subtree delete is pending at it over a living son |
| `TreeWays.UpdateHarmless` | fast_lio/include/ikd-Tree/ikd_Tree.cpp:1458-1602 | in that case it keeps the node usable |
| `MapWalks.WalkAt` | fast_lio/include/ikd-Tree/ikd_Tree.cpp:767-851 | an insertion or box delete over the whole map does to the subtree at one place exactly the operations that are logged for it: the push from its father, then the edit if the walk gets there |
| `MapWalks.WalkPerformed` | fast_lio/include/ikd-Tree/ikd_Tree.cpp:1360-1455 | a push among them is a whole-subtree delete, or a leftover over a lone live node |
| `MapWalks.PushAt` | fast_lio/include/ikd-Tree/ikd_Tree.cpp:1360-1455 | a single Push_Down somewhere in the map does to the subtree at another place exactly what is logged for it |
| `BackgroundRebuild.PushReplayable` | fast_lio/include/ikd-Tree/ikd_Tree.cpp:1386-1409 | what is logged for a subtree of two or more points can be replayed: a push among it is a whole-subtree delete |
| `BackgroundRebuild.LoggedCorresponds` | fast_lio/include/ikd-Tree/ikd_Tree.cpp:523-547 | operations applied to the designated subtree and logged keep the correspondence of snapshot or new tree, log and designated subtree |
| `BackgroundRebuild.EditKeeps` | fast_lio/include/ikd-Tree/ikd_Tree.cpp:641-655 | a whole-map insertion or box delete changes the map by exactly its points and keeps the correspondence |
| `BackgroundRebuild.PushKeeps` | fast_lio/include/ikd-Tree/ikd_Tree.cpp:1386-1409 | a push down above, beside or inside the designated subtree keeps map and correspondence |
| `BackgroundRebuild.RebuildSmallKeeps` | fast_lio/include/ikd-Tree/ikd_Tree.cpp:750-762 | an immediate rebuild of a small subtree keeps them |
| `BackgroundRebuild.RefreshKeeps` | fast_lio/include/ikd-Tree/ikd_Tree.cpp:335-346 | Update of a node with no delete pending over a living son keeps them |
| `BackgroundRebuild.SnapshotKeeps` | fast_lio/include/ikd-Tree/ikd_Tree.cpp:238-278 | flattening under the locks starts the correspondence |
| `BackgroundRebuild.BuildKeeps` | fast_lio/include/ikd-Tree/ikd_Tree.cpp:281-284 | building from a non-empty snapshot keeps it |
| `BackgroundRebuild.PopKeeps` | fast_lio/include/ikd-Tree/ikd_Tree.cpp:289-295 | taking an operation from the log keeps it, with the operation in flight |
| `BackgroundRebuild.RunPoppedKeeps` | fast_lio/include/ikd-Tree/ikd_Tree.cpp:296 | running the operation in flight on the new subtree keeps it |
| `BackgroundRebuild.SwapKeeps` | fast_lio/include/ikd-Tree/ikd_Tree.cpp:315-352 | when the log is empty the new subtree stands for the designated one, with no more nodes, and takes its place |
| `BackgroundRebuild.StepRefines` | fast_lio/include/ikd-Tree/ikd_Tree.cpp:229-406 | every step of either thread keeps the map usable and in k-d order and changes its points only by what the main thread applied |
| `BackgroundRebuild.RunRefines` | fast_lio/include/ikd-Tree/ikd_Tree.cpp:229-406 | over every interleaving of edits, pushes, immediate rebuilds and any number of background rebuilds nothing is lost or duplicated: the map stands for the points the edits leave of the initial ones, is sound, which is all that searches and edits ask of it, and flag, box and number of live points at its root are exact, provided that no Update meets a delete pending over a living son |
| `BackgroundRebuild.SwapKeepsMap` | fast_lio/include/ikd-Tree/ikd_Tree.cpp:315-352 | the swap leaves the map unchanged and sound, with flag, box and number of live points at the root exact |
| `BackgroundRebuild.SwapMidWalk` | fast_lio/include/ikd-Tree/ikd_Tree.cpp:315-331 | the swap leaves the live points of the map unchanged also when the nodes above are in the middle of a walk |
| `BackgroundRebuild.WalkEndsAfterSwap` | fast_lio/include/ikd-Tree/ikd_Tree.cpp:335-346 | a swap in the middle of a walk leads to the same tree as a swap after it followed by updating the nodes of its path again |
| `BackgroundRebuild.WalkEndKeeps` | fast_lio/include/ikd-Tree/ikd_Tree.cpp:335-346 | these updates are harmless where the nodes of the path are alive: the walk leaves the same points as without the swap, and a usable map |
| `BackgroundRebuild.InsertionPathAlive` | fast_lio/include/ikd-Tree/ikd_Tree.cpp:1014-1050 | the nodes an insertion updates are alive |
| `BackgroundRebuild.StepStays` | fast_lio/include/ikd-Tree/ikd_Tree.cpp:843-844 | Rebuild_Ptr is not withdrawn during the rebuild of a subtree that has at least as many nodes as the threshold |
| `BackgroundRebuild.RunStays` | fast_lio/include/ikd-Tree/ikd_Tree.cpp:843-844 | the same over every run, from the snapshot to the swap |
| `RebuildLimits.RefreshExact` | fast_lio/include/ikd-Tree/ikd_Tree.cpp:335-346 | with no push pending above, Update of a node in the map keeps the points of the map if and only if no delete is pending at the node over a living son |
| `RebuildLimits.UpdateRevives` | fast_lio/include/ikd-Tree/ikd_Tree.cpp:335-346 | from every sound map whose left-left subtree is alive and large enough, the run Register, Snapshot, delete of the whole map, insertion on the right, Build, Swap, Update of the left son brings deleted points back |
| `RebuildLimits.BuiltMapsRevive` | fast_lio/include/ikd-Tree/ikd_Tree.cpp:335-346 | every map built over at least four times the threshold and three points can be led there |
| `RebuildLimits.WithdrawnExactly` | fast_lio/include/ikd-Tree/ikd_Tree.cpp:1050-1052 | an insertion that reaches the designated subtree withdraws Rebuild_Ptr if and only if the sizes beside its path add up to less than the threshold |
| `RebuildLimits.StaleWithdrawal` | fast_lio/include/ikd-Tree/ikd_Tree.cpp:1050-1052 | a run in which a first background rebuild leaves sizes overstated, a larger subtree is designated by such a size, and an insertion during its rebuild withdraws Rebuild_Ptr |
| `RebuildLimits.StaleWithdrawalSomewhere` | fast_lio/include/ikd-Tree/ikd_Tree.cpp:1050-1052 | such a run from a map built over one point |
| `OperationQueues.OperationQueue.constructor` | fast_lio/include/ikd-Tree/ikd_Tree.h:203-208 | an empty log |
| `OperationQueues.OperationQueue.Push` | fast_lio/include/ikd-Tree/ikd_Tree.h:238-246 | appends an operation in order; a full buffer overwrites the slots congruent to its counter |
| `OperationQueues.OperationQueue.Pop` | fast_lio/include/ikd-Tree/ikd_Tree.h:211-221 | drops the oldest operation; an empty log stays as it is |
| `OperationQueues.OperationQueue.Front` | fast_lio/include/ikd-Tree/ikd_Tree.h:222-225 | the oldest operation |
| `OperationQueues.OperationQueue.Empty` | fast_lio/include/ikd-Tree/ikd_Tree.h:247-250 | true exactly for an empty log |
| `OperationQueues.OperationQueue.Clear` | fast_lio/include/ikd-Tree/ikd_Tree.h:230-237 | empties the log |
| `OperationQueues.PushFaithful` | fast_lio/include/ikd-Tree/ikd_Tree.h:238-246 | a push disturbs nothing, whatever is pushed, if and only if fewer than Q_LEN operations are logged |
| `SearchGate.StepKeepsExact` | fast_lio/include/ikd-Tree/ikd_Tree.cpp:260-277 | every critical section keeps the counter exact |
| `SearchGate.Exclusion` | fast_lio/include/ikd-Tree/ikd_Tree.cpp:307-349 | in every reachable state with any number of searching threads search_mutex_counter is -1 exactly while the rebuild flattens or swaps, otherwise it counts the readers, and no counted reader is inside meanwhile |
| `SearchGate.RebuildsInOrder` | fast_lio/include/ikd-Tree/ikd_Tree.cpp:278-356 | over every run each rebuild flattens, builds and swaps in this order and ends before the next one begins |
| `SearchGate.ReaderSeesOneVersion` | fast_lio/include/ikd-Tree/ikd_Tree.cpp:437-449 | a counted reader sees the same subtree from entry to exit |
| `LocalMaps.SlabsSafe` | fast_lio/src/laserMapping.cpp:266-280 | whatever the distance of a move, the listed boxes hold every point left behind and none of the new cube |
| `LocalMaps.SlabsExact` | fast_lio/src/laserMapping.cpp:266-280 | the listed boxes are exactly old cube minus new cube, for a move on any axes, if and only if mov_dist is at most the side |
| `LocalMaps.MoveWithinSide` | fast_lio/src/laserMapping.cpp:265 | mov_dist, rounded down to the coordinate grid, is at most the side exactly for detection ranges up to twice the side plus one grid unit |
| `LocalMaps.MovedCubeMeaning` | fast_lio/src/laserMapping.cpp:255-281 | along every axis the cube moves down if the sensor is within 1.5 detection ranges of its lower edge, else up if it is within them of the upper edge, else not |
| `LocalMaps.MoveDistanceMeaning` | fast_lio/src/laserMapping.cpp:265 | mov_dist is 0.45 of what the side leaves beyond three detection ranges, at least half a detection range, rounded down to the coordinate grid |
| `LocalMaps.MoveFollowsSensor` | fast_lio/src/laserMapping.cpp:255-281 | for a side of at least three detection ranges a sensor inside the cube stays inside, and its distance from the edge it was near grows by mov_dist |
| `LocalMaps.LocalMap.MoveCube` | fast_lio/src/laserMapping.cpp:255-281 | the cube keeps its side, moves by mov_dist along every axis on which the sensor is near an edge, following the sensor, and the removal boxes are listed |
| `LocalMaps.LocalMap.FovSegment` | fast_lio/src/laserMapping.cpp:240-286 | a sensor inside the cube stays inside, farther from the edge it was near; no live point of the new cube is lost and none of old minus new remains; for moves up to the side nothing else changes; the tree does not grow and keeps balance, exact counters and the account of all points |
| `JsonAgreement.ParsersAgree` | livox_ros_driver2/3rdparty/rapidjson/reader.h:1901-2433 | for every input, handler and flags both parsers send the same events with the same counts, accept alike and leave the same rest; they set the same error code exactly unless the document starts with a closing bracket, a comma or a colon |
| `JsonAgreement.MisplacedStart` | livox_ros_driver2/3rdparty/rapidjson/reader.h:2353-2362 | on a document that starts with a closing bracket, a comma or a colon descent reports an invalid value and the table parser an empty document |
| `JsonAgreement.ValueSimulated` | livox_ros_driver2/3rdparty/rapidjson/reader.h:1872-1896 | from any state that expects a value the table parser comes by the configuration that descent reaches behind it |
| `JsonAgreement.ElementsSimulated` | livox_ros_driver2/3rdparty/rapidjson/reader.h:869-913 | the loop over elements corresponds to the element and delimiter states and the count on the stack |
| `JsonAgreement.MembersSimulated` | livox_ros_driver2/3rdparty/rapidjson/reader.h:798-865 | the loop over members corresponds to the key, value and delimiter states and the count on the stack |
| `JsonAgreement.RootEnd` | livox_ros_driver2/3rdparty/rapidjson/reader.h:2401-2433 | behind a complete document both parsers treat further input alike |
| `JsonTable.StepWellFormed` | livox_ros_driver2/3rdparty/rapidjson/reader.h:2192-2349 | every transition keeps the stack discipline: the outermost frame returns to the start, all others into a container, and a frame is there whenever one is popped, and the assertions at 2240 and 2340 hold |
| `JsonSyntax.ValueReads` | livox_ros_driver2/3rdparty/rapidjson/reader.h:1872-1896 | a successful ParseValue has read exactly one JSON value (RFC 8259, sections 2 to 5) and sent its events |
| `JsonSyntax.ValueAccepted` | livox_ros_driver2/3rdparty/rapidjson/reader.h:1872-1896 | every spelled JSON value is read as a whole whatever follows it |
| `JsonSyntax.AcceptsExactly` | livox_ros_driver2/3rdparty/rapidjson/reader.h:614-646 | exactly the JSON texts are accepted, with an optional comma behind the last element or member if the flag allows it, or with stop-when-done the inputs that start with one |
| `JsonSyntax.SpelledEvents` | livox_ros_driver2/3rdparty/rapidjson/reader.h:614-646 | a JSON text is read with the events of its value |
| `JsonSyntax.DocumentErrors` | livox_ros_driver2/3rdparty/rapidjson/reader.h:614-646 | no input is an empty document, and input behind a value is a root that is not singular unless the parse stops when done |
| `JsonSyntax.NameError` | livox_ros_driver2/3rdparty/rapidjson/reader.h:814-816 | behind an opening brace anything but a string or the closing brace is a missing name |
| `JsonSyntax.ColonError` | livox_ros_driver2/3rdparty/rapidjson/reader.h:824-825 | behind a member name anything but a colon is a missing colon |
| `JsonSyntax.MemberError` | livox_ros_driver2/3rdparty/rapidjson/reader.h:837-854 | behind a member anything but a comma or the closing brace is reported as that |
| `JsonSyntax.ElementError` | livox_ros_driver2/3rdparty/rapidjson/reader.h:892-902 | behind an element anything but a comma or the closing bracket is reported as that |
| `JsonReaders.Reader.constructor` | livox_ros_driver2/3rdparty/rapidjson/reader.h:600-605 | a reader at the start of a stream |
| `JsonReaders.Reader.ParseValue` | livox_ros_driver2/3rdparty/rapidjson/reader.h:1872-1896 | the stream, the events and the result after a value, as descent defines them |
| `JsonReaders.Reader.ParseObject` | livox_ros_driver2/3rdparty/rapidjson/reader.h:798-865 | the same for an object, by the loop of the source |
| `JsonReaders.Reader.ParseArray` | livox_ros_driver2/3rdparty/rapidjson/reader.h:869-913 | the same for an array |
| `JsonReaders.Reader.ParseString` | livox_ros_driver2/3rdparty/rapidjson/reader.h:1021-1051 | a member name or a string value |
| `JsonReaders.Reader.ParseNumber` | livox_ros_driver2/3rdparty/rapidjson/reader.h:1862-1892 | a number; anything that starts no value is an invalid value |
| `JsonReaders.Reader.ParseLiteral` | livox_ros_driver2/3rdparty/rapidjson/reader.h:916-953 | null, true or false |
| `JsonReaders.Reader.Parse` | livox_ros_driver2/3rdparty/rapidjson/reader.h:614-646 | the whole descent parse |
| `JsonReaders.Reader.TransitOpen` | livox_ros_driver2/3rdparty/rapidjson/reader.h:2203-2230 | pushes the state to return to and a zero count and sends the opening event |
| `JsonReaders.Reader.TransitClose` | livox_ros_driver2/3rdparty/rapidjson/reader.h:2269-2325 | pops count and state and sends the closing event with the right count |
| `JsonReaders.Reader.Transit` | livox_ros_driver2/3rdparty/rapidjson/reader.h:2192-2350 | one transition of the table parser on its stack in place |
| `JsonReaders.Reader.HandleError` | livox_ros_driver2/3rdparty/rapidjson/reader.h:2353-2388 | the error for a state without transition, if none is set |
| `JsonReaders.Reader.Turn` | livox_ros_driver2/3rdparty/rapidjson/reader.h:2408-2416 | one turn of the loop |
| `JsonReaders.Reader.IterativeParse` | livox_ros_driver2/3rdparty/rapidjson/reader.h:2401-2433 | the whole table-driven parse |
| `JsonDocuments.NumberRoundTrip` | livox_ros_driver2/3rdparty/rapidjson/document.h:855-905 | a number reported by its flags and constructed again has the same payload and the same kinds |
| `JsonDocuments.NumberKinds` | livox_ros_driver2/3rdparty/rapidjson/document.h:855-905 | a value made from an integer is an int, unsigned, 64-bit and unsigned 64-bit integer exactly if the integer is in the range of that type, never a double, and reads as that integer in each of its kinds |
| `JsonDocuments.ReportedNarrowest` | livox_ros_driver2/3rdparty/rapidjson/document.h:2318-2330 | an integer is reported to the narrowest handler method that holds it, signed before unsigned |
| `JsonDocuments.ValueRepresents` | livox_ros_driver2/3rdparty/rapidjson/document.h:2926-3000 | the tree a value stands for has its shape, names, texts and numbers node by node, numbers with exactly the kinds their value has |
| `JsonDocuments.ParseLeavesOneValue` | livox_ros_driver2/3rdparty/rapidjson/document.h:2738-2750 | the events of any parse never pop below the base; those of a successful one leave exactly one value if and only if no array or object of the value read has 2^32 entries or more, and that value is then its tree |
| `JsonDocuments.EventsRaise` | livox_ros_driver2/3rdparty/rapidjson/document.h:2982-3000 | the events of a value leave one value and the entries that wrapped counts fail to pop |
| `JsonDocuments.WrappedCountFails` | livox_ros_driver2/3rdparty/rapidjson/document.h:2744 | an array of 2^32 nulls is accepted and leaves more than one value |
| `JsonDocuments.EventsBuild` | livox_ros_driver2/3rdparty/rapidjson/document.h:2926-3000 | the events of a JSON value push exactly the tree it stands for |
| `JsonDocuments.SpelledTree` | livox_ros_driver2/3rdparty/rapidjson/document.h:2738-2750 | a JSON text is parsed to the tree it stands for |
| `JsonDocuments.PairsOfFlat` | livox_ros_driver2/3rdparty/rapidjson/document.h:2982-2988 | names and values popped in turn are the members in their order |
| `JsonDocuments.Document.EndObject` | livox_ros_driver2/3rdparty/rapidjson/document.h:2982-2988 | pops the members and stores them in the object below |
| `JsonDocuments.Document.EndArray` | livox_ros_driver2/3rdparty/rapidjson/document.h:2995-3000 | pops the elements and stores them in the array below |
| `JsonDocuments.Document.StartObject` | livox_ros_driver2/3rdparty/rapidjson/document.h:2973-2976 | pushes an empty object |
| `JsonDocuments.Document.StartArray` | livox_ros_driver2/3rdparty/rapidjson/document.h:2990-2993 | pushes an empty array |
| `JsonDocuments.Document.String` | livox_ros_driver2/3rdparty/rapidjson/document.h:2964-2971 | pushes a string |
| `JsonDocuments.Document.Key` | livox_ros_driver2/3rdparty/rapidjson/document.h:2978-2980 | pushes a member name |
| `JsonDocuments.Document.Number` | livox_ros_driver2/3rdparty/rapidjson/document.h:2934-2953 | pushes a number that has exactly the kinds whose range holds it and reads as itself in each of them |
| `JsonDocuments.Document.Replay` | livox_ros_driver2/3rdparty/rapidjson/document.h:2926-3000 | the calls of a parse, one after another, leave the stack they stand for |
| `JsonDocuments.Document.ParseStream` | livox_ros_driver2/3rdparty/rapidjson/document.h:2738-2750 | the parse succeeds exactly for the JSON texts; it then makes the document the value on top of the stack, which is the tree of the value read, node by node and with exactly the number kinds its numbers have, unless a container of it has 2^32 entries or more; a failed one leaves the document as it was |
| `JsonDocuments.Accept` | livox_ros_driver2/3rdparty/rapidjson/document.h:2286-2331 | reporting a tree to a document pushes an equal tree, number kinds included |
| `JsonDocuments.AcceptArray` | livox_ros_driver2/3rdparty/rapidjson/document.h:2308-2312 | the same for an array |
| `JsonDocuments.AcceptObject` | livox_ros_driver2/3rdparty/rapidjson/document.h:2295-2306 | the same for an object |
| `Utf8.EncodedDecodes` | livox_ros_driver2/3rdparty/rapidjson/encodings.h:108-125 | whatever follows, an encoded code point is decoded as itself, and accepted if and only if it is no surrogate (RFC 3629, section 3) |
| `Utf8.DecodedIsEncoding` | livox_ros_driver2/3rdparty/rapidjson/encodings.h:148-211 | a stream decoded without failure starts with the encoding of the scalar value found: no overlong form, no surrogate, no cut sequence (RFC 3629, sections 3 and 4) |
| `Utf8.TextRoundTrip` | livox_ros_driver2/3rdparty/rapidjson/encodings.h:108-211 | encoding any sequence of scalar values and decoding it returns it |
| `Utf8.DecodedText` | livox_ros_driver2/3rdparty/rapidjson/encodings.h:148-211 | a text decoded without failure is the encoding of the values found |
| `Utf8.TextDecodable` | livox_ros_driver2/3rdparty/rapidjson/encodings.h:148-211 | decoding succeeds if and only if the text is the encoding of scalar values |
| `Utf8.EncodingUnique` | livox_ros_driver2/3rdparty/rapidjson/encodings.h:108-125 | no text encodes two different sequences |
| `Utf8.BytesValue` | livox_ros_driver2/3rdparty/rapidjson/encodings.h:108-125 | the bytes of a code point as numbers: one below 80, else a lead byte of C0, E0 or F0 plus the highest digit in base 64 and 80 plus each further digit, two bytes below 800, three below 10000, four above (RFC 3629, section 3) |
| `Utf8.ValidatedIsEncoding` | livox_ros_driver2/3rdparty/rapidjson/encodings.h:214-261 | what Validate copies from a stream it accepts is the encoding of one scalar value |
| `Utf8.Accepted3` | livox_ros_driver2/3rdparty/rapidjson/encodings.h:269-298 | three bytes are accepted exactly if the second one excludes overlong forms and surrogates |
| `Utf8.Accepted4` | livox_ros_driver2/3rdparty/rapidjson/encodings.h:269-298 | four bytes are accepted exactly if the second one excludes overlong forms and values above 10FFFF |
| `Utf8.Encode` | livox_ros_driver2/3rdparty/rapidjson/encodings.h:108-125 | puts exactly the bytes of the code point |
| `Utf8.Decode` | livox_ros_driver2/3rdparty/rapidjson/encodings.h:148-211 | verdict, code point and the rest of the stream |
| `Utf8.Validate` | livox_ros_driver2/3rdparty/rapidjson/encodings.h:214-261 | the verdict of Decode; copies exactly the bytes Decode takes |
| `Utf8.InputStream.Take` | livox_ros_driver2/3rdparty/rapidjson/memorystream.h:55 | the next byte, or zero at the end |
| `JsonPointers.StringRoundTrip` | livox_ros_driver2/3rdparty/rapidjson/pointer.h:996-1179 | reading the string form of any names returns those names with no error (RFC 6901, sections 3 and 4) |
| `JsonPointers.UriRoundTrip` | livox_ros_driver2/3rdparty/rapidjson/pointer.h:996-1179 | reading the URI fragment form of any well-formed UTF-8 names returns those names (RFC 6901, section 6) |
| `JsonPointers.UriEscapable` | livox_ros_driver2/3rdparty/rapidjson/pointer.h:1166-1173 | a name has a URI fragment form if and only if it is well-formed UTF-8 |
| `JsonPointers.IndexRoundTrip` | livox_ros_driver2/3rdparty/rapidjson/pointer.h:374-390 | the name of an index below 2^32 - 1 is read as that index |
| `JsonPointers.IndexExactly` | livox_ros_driver2/3rdparty/rapidjson/pointer.h:1107-1126 | a name whose digits are worth less than 2^32 - 1 has that index if it is the decimal form of it, and the invalid index otherwise: no digits, leading zeros |
| `JsonPointers.IndexMeaning` | livox_ros_driver2/3rdparty/rapidjson/pointer.h:1107-1126 | any name has an index exactly if it is the decimal form of a number whose value in 32 bits drops with no digit, and the index is that value |
| `JsonPointers.OverflowTest` | livox_ros_driver2/3rdparty/rapidjson/pointer.h:1116-1123 | up to ten times 2^32 the overflow test refuses a number exactly if its value in 32 bits is below a tenth of it |
| `JsonPointers.OverflowMissed` | livox_ros_driver2/3rdparty/rapidjson/pointer.h:1116-1123 | the name 5000000000 is not refused: it gets the index 705032704 |
| `JsonPointers.PointerIndexed` | livox_ros_driver2/3rdparty/rapidjson/pointer.h:1013-1142 | every token of a pointer read in either form has the index of its name |
| `JsonPointers.EscapedByte` | livox_ros_driver2/3rdparty/rapidjson/pointer.h:1158-1165 | a tilde is written as ~0, a solidus as ~1, every other byte as itself (RFC 6901, section 3) |
| `JsonPointers.UriAscii` | livox_ros_driver2/3rdparty/rapidjson/pointer.h:1158-1176 | the URI form of an ASCII byte: escapes, the unreserved characters of section 2.3 of RFC 3986 as themselves, percent triplets for all others |
| `JsonPointers.TripletText` | livox_ros_driver2/3rdparty/rapidjson/pointer.h:1237-1248 | a percent sign and two upper-case digits in base sixteen |
| `JsonPointers.EscapeError` | livox_ros_driver2/3rdparty/rapidjson/pointer.h:1080-1098 | behind any well-formed part a tilde without 0 or 1 is an invalid escape, reported behind the tilde |
| `JsonPointers.PercentError` | livox_ros_driver2/3rdparty/rapidjson/pointer.h:1054-1063 | in the URI form a percent sign without two digits in base sixteen is an invalid percent encoding |
| `JsonPointers.CharacterError` | livox_ros_driver2/3rdparty/rapidjson/pointer.h:1073-1076 | in the URI form a character that needs percent encoding must not stand for itself |
| `JsonPointers.StartError` | livox_ros_driver2/3rdparty/rapidjson/pointer.h:1038-1041 | a pointer that is not empty must begin with a solidus |
| `JsonPointers.IndexTokenRoundTrip` | livox_ros_driver2/3rdparty/rapidjson/pointer.h:374-390 | an index token appended to any names keeps its index through writing and reading |
| `JsonPointers.TripletRoundTrip` | livox_ros_driver2/3rdparty/rapidjson/pointer.h:1187-1252 | a byte written as a percent triplet is read back |
| `JsonPointers.FollowDecodable` | livox_ros_driver2/3rdparty/rapidjson/pointer.h:1054-1063 | validating triplet by triplet gives the verdict of UTF-8 validation on the decoded bytes |
| `JsonPointers.Pointer.TakeTriplet` | livox_ros_driver2/3rdparty/rapidjson/pointer.h:1199-1222 | one percent triplet, or zero and an invalid stream |
| `JsonPointers.Pointer.DecodePercent` | livox_ros_driver2/3rdparty/rapidjson/pointer.h:1054-1063 | accepts exactly the triplets of one well-formed UTF-8 sequence and copies its bytes inside the name buffer |
| `JsonPointers.Pointer.PutChar` | livox_ros_driver2/3rdparty/rapidjson/pointer.h:1079-1103 | one character or escape of a name |
| `JsonPointers.Pointer.ReadTokenName` | livox_ros_driver2/3rdparty/rapidjson/pointer.h:1047-1104 | the name of one token in the buffer, which stays behind the source |
| `JsonPointers.Pointer.ToIndex` | livox_ros_driver2/3rdparty/rapidjson/pointer.h:1105-1126 | the index of a name with the 32-bit overflow test |
| `JsonPointers.Pointer.ReadToken` | livox_ros_driver2/3rdparty/rapidjson/pointer.h:1043-1128 | one token with its terminator, earlier tokens untouched |
| `JsonPointers.Pointer.Parse` | livox_ros_driver2/3rdparty/rapidjson/pointer.h:1013-1142 | the stored tokens, or error code and offset, for every source; every write is inside a buffer as long as the source, which is the assertion at 1130 |
| `JsonPointers.Pointer.StringifyName` | livox_ros_driver2/3rdparty/rapidjson/pointer.h:1158-1176 | one name in either form, or failure |
| `JsonPointers.Pointer.PutPercent` | livox_ros_driver2/3rdparty/rapidjson/pointer.h:1166-1173 | one code point as percent triplets |
| `JsonPointers.Pointer.Stringify` | livox_ros_driver2/3rdparty/rapidjson/pointer.h:1151-1179 | the string form, or the URI fragment form, or failure exactly when there is none |
| `PoseFilter.PredictDet` | lidar_to_mavros/src/lidar_to_mavros.cpp:102-117 | prediction adds to the determinant exactly the process noise times a positive factor |
| `PoseFilter.PredictSound` | lidar_to_mavros/src/lidar_to_mavros.cpp:102-117 | prediction keeps P01 = P10 >= 0, P00 > 0, P11 > 0 and a positive determinant and lowers neither the determinant nor the innovation variance |
| `PoseFilter.UpdateSound` | lidar_to_mavros/src/lidar_to_mavros.cpp:160-174 | an accepted measurement multiplies the determinant by exactly r^2/S, makes P00 < r^2, keeps the covariance sound; the position gain is in (0, 1) and the velocity gain not negative |
| `PoseFilter.ResetSound` | lidar_to_mavros/src/lidar_to_mavros.cpp:87-100 | a reset makes the covariance sound: sigma_r^2 for the position, 25 for the velocity, uncorrelated |
| `PoseFilter.PredictIsKalman` | lidar_to_mavros/src/lidar_to_mavros.cpp:102-117 | between messages position and velocity move at constant velocity, and the covariance becomes F P F^T + Q with the noise of an acceleration of variance sigma_a^2 |
| `PoseFilter.UpdatePull` | lidar_to_mavros/src/lidar_to_mavros.cpp:160-174 | S times the change of position is P00 times the innovation, S times the change of velocity is P10 times it, with S = P00 + sigma_r^2 |
| `PoseFilter.UpdateIsKalman` | lidar_to_mavros/src/lidar_to_mavros.cpp:160-174 | the covariance after a measurement is (I - K H) P, with the innovation variance S = P00 + sigma_r^2 |
| `PoseFilter.UpdateBetween` | lidar_to_mavros/src/lidar_to_mavros.cpp:160-174 | the new position lies strictly between prediction and measurement, unless these are equal |
| `PoseFilter.UpdateLeastSquares` | lidar_to_mavros/src/lidar_to_mavros.cpp:160-174 | the new position is the least-squares estimate: no other fits prediction and measurement better, each weighed by its variance |
| `PoseFilter.GainOptimal` | lidar_to_mavros/src/lidar_to_mavros.cpp:160-174 | no other gains give smaller variances of position and velocity |
| `PoseFilter.StepFollows` | lidar_to_mavros/src/lidar_to_mavros.cpp:120-177 | one message leads every axis to the measurement at rest (start, restart), along the constant-velocity prediction (coasting) or strictly in between (accepted), and counts or clears the rejects |
| `PoseFilter.FollowedWhenFull` | lidar_to_mavros/src/lidar_to_mavros.cpp:145-155 | a restart onto the measurement comes exactly with the reject that fills the limit |
| `PoseFilter.StepConsistent` | lidar_to_mavros/src/lidar_to_mavros.cpp:120-177 | in every reachable state the covariance is sound, the three axes share it and the reject count is below the limit |
| `PoseFilter.GateIsBall` | lidar_to_mavros/src/lidar_to_mavros.cpp:134-143 | a measurement is accepted exactly when its distance from the prediction is within one radius, the same in all directions, whose square is gate_thresh times the innovation variance |
| `PoseFilter.CoastingGrowsGate` | lidar_to_mavros/src/lidar_to_mavros.cpp:145-160 | the gate never shrinks while the filter coasts |
| `PoseFilter.NeverStuck` | lidar_to_mavros/src/lidar_to_mavros.cpp:145-155 | among any max_rejects consecutive measurements at least one is accepted or reset onto |
| `PoseFilter.StampMonotone` | lidar_to_mavros/src/lidar_to_mavros.cpp:187-196 | a published stamp falls with neither the last update nor the clock and never leads the last update by more than extrap_max |
| `PoseFilter.StampMeaning` | lidar_to_mavros/src/lidar_to_mavros.cpp:187-196 | the published stamp is the clock reading between the last update and extrap_max after it, and stays at these bounds outside |
| `PoseFilter.StampsNeverGoBack` | lidar_to_mavros/src/lidar_to_mavros.cpp:187-196 | over every run with non-decreasing times the published stamps never go backwards |
| `PoseFilter.PoseEKF.Reset` | lidar_to_mavros/src/lidar_to_mavros.cpp:87-100 | all three axes start over at the measurement |
| `PoseFilter.PoseEKF.Predict` | lidar_to_mavros/src/lidar_to_mavros.cpp:102-117 | every axis is predicted |
| `PoseFilter.PoseEKF.FilterPosition` | lidar_to_mavros/src/lidar_to_mavros.cpp:120-177 | the state after one message, as the step function defines it; each published coordinate is the measurement after a start or restart, the constant-velocity prediction while coasting, strictly between prediction and measurement when accepted; ignored messages pass through |
| `PoseFilter.PoseEKF.Judge` | lidar_to_mavros/src/lidar_to_mavros.cpp:134-176 | gate, coasting, reset or update, as the step function defines them |
| `PoseFilter.PoseEKF.Update` | lidar_to_mavros/src/lidar_to_mavros.cpp:160-174 | every axis is pulled to the measurement by its covariances over the innovation variance |
| `PoseFilter.PoseEKF.ExtrapolateTo` | lidar_to_mavros/src/lidar_to_mavros.cpp:187-196 | position and stamp to publish, the stamp being the clock reading within extrap_max after the last update; the filter does not change |
| `ZeroDrift.StillIsNorm` | lidar_to_mavros/src/lidar_to_mavros.cpp:280-283 | comparing squares is comparing the distance, in coordinates, with motion_thresh |
| `ZeroDrift.SumInBall` | lidar_to_mavros/src/lidar_to_mavros.cpp:276-292 | the summed samples stay within count times the threshold of count times the first position |
| `ZeroDrift.MeanInBall` | lidar_to_mavros/src/lidar_to_mavros.cpp:290-293 | the average of any number of still samples lies within motion_thresh of the first one |
| `ZeroDrift.ZeroDriftCalibrator.Process` | lidar_to_mavros/src/lidar_to_mavros.cpp:260-313 | waiting, calibrating, then done or failed, the last two absorbing; on done the count is positive and the offset is the mean of the samples, within motion_thresh of the first position; only later positions are corrected, by exactly the offset |
| `Reals.CauchySchwarz` | lidar_to_mavros/src/lidar_to_mavros.cpp:280-283 | the Cauchy-Schwarz inequality behind the offset bound |
| `ImuInit.WelfordStep` | fast_lio/src/IMU_Processing.hpp:240-247 | one step of the running mean and M2 keeps them equal to the batch mean and sum of squared deviations |
| `ImuInit.WindowStep` | fast_lio/src/IMU_Processing.hpp:233-248 | the same for all six channels |
| `ImuInit.RunningVariance` | fast_lio/src/IMU_Processing.hpp:249-253 | M2 over N - 1 is the batch sample variance |
| `ImuInit.VarianceOfPairs` | fast_lio/src/IMU_Processing.hpp:249-253 | 2 N (N - 1) times the sample variance is the sum of the squared differences of all pairs of samples |
| `ImuInit.SteadyMeaning` | fast_lio/src/IMU_Processing.hpp:478-486 | the test in norms and standard deviations: mean acceleration not zero and within the tolerance of the expected norm, mean angular velocity and all six standard deviations within their limits |
| `ImuInit.SteadyByRunning` | fast_lio/src/IMU_Processing.hpp:478-486 | the running statistics decide as the batch statistics do |
| `ImuInit.NormWithinMeans` | fast_lio/src/IMU_Processing.hpp:481 | the test on squares is the test on the norm |
| `ImuInit.RootAtMostMeans` | fast_lio/src/IMU_Processing.hpp:475-476 | the test on squares is the test on the standard deviation |
| `ImuInit.ImuProcess.Accumulate` | fast_lio/src/IMU_Processing.hpp:233-248 | one sample joins the window |
| `ImuInit.ImuProcess.Collect` | fast_lio/src/IMU_Processing.hpp:213-253 | the samples of one group join the window, which begins with its first sample or where the rejected one ended |
| `ImuInit.ImuProcess.RejectInitWindow` | fast_lio/src/IMU_Processing.hpp:440-452 | the window is emptied and the next one begins at the latest sample |
| `ImuInit.ImuProcess.Reset` | fast_lio/src/IMU_Processing.hpp:133-158 | everything starts over |
| `ImuInit.ImuProcess.Process` | fast_lio/src/IMU_Processing.hpp:454-516 | over any batching and any number of rejections the window is accepted if and only if it spans the duration, from its first sample or the last one rejected, and its batch mean and true sample variances are within the limits (and the mount check passes) |

## Left out

- Add_by_range and Add_Point_Boxes: they revive points by boxes that cover live points only and are not called by the mapping node.
- Delete_by_point and its replay: equal coordinates may lie left of a node but are searched on the right only, so it is no function of the live points.
- Search_by_radius, size, tree_range and root_alpha: nothing harder than the box and nearest searches.
- The father pointers, STATIC_ROOT_NODE and working_flag: which nodes the loop after a swap (335-346) updates is left open, every choice is a run.
- KdNodes.KdNode.Update: radius_sq, the father pointers of the sons and the alpha values it sets are not modelled; no other operation modelled here reads them.
- KdTrees.KdTree.Validnum: the answer -1 while the rebuild thread holds the mutex.
- KdTrees.KdTree.AddByPoint: the class is the main thread alone; locks, logging and the second thread are in BackgroundRebuild, where the same walk runs on values. Its contracts hold on trees with stale counters too.
- KdTrees.KdTree.DeleteByRange: the same.
- TreeBuilder.BuildTree: works on the slices of the storage it is given; that the source permutes one shared buffer in place is not modelled.
- KdTrees.KdTree.AddPointsPlain: Add_Points with its flag off; AddPointsDownsampled is the same method with the flag on.
- KdTrees.KdTree.Rebuild: the registration is skipped in the source when its try-lock fails, which in BackgroundRebuild is a run without that step. acquire_removed_points only hands Points_deleted over.
- Search_by_range is not counted by search_mutex_counter in the source, so SearchGate does not cover it.
- Reclaiming of nodes (delete_tree_nodes), alpha values and printing.
- Floating-point rounding, in the tree and in the filters.
- Lexical JSON: comments, escapes, number conversion, in-situ and SIMD scanning, parse-error offsets, and allocation of string copies in the document.
- JsonDocuments.Document.ParseStream: for a container of 2^32 entries or more the assertion at 2744 fails; the model goes on as the source does without assertions. The reader's calls are replayed after the parse instead of made during it; the handler methods always answer true, so the order of calls is the same.
- Pointer copying, resolution against a document and Append of names: no parsing or printing in them.
- UTF-16 and UTF-32, byte order marks and the run-time encoding selection.
- Undistortion, the state update on manifolds, plane fitting, feature extraction, ROS nodes, drivers, launch files and plotting.
- ImuInit.ImuProcess.Process: the mount tilt itself and the filter state it initializes need trigonometry and libraries that are not part of this model.
- Nothing was executed.
