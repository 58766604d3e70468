/** The hand-written bounded max-heap that holds the candidates of a nearest-neighbour query. */
module ManualHeap {
  import opened Geometry
  import opened Folding

  datatype Candidate = Candidate(point: Point, dist: int)

  /** Nearer first; equal distances are ordered by the x coordinate. */
  predicate Less(a: Candidate, b: Candidate) {
    if a.dist == b.dist then a.point.x < b.point.x else a.dist < b.dist
  }

  /** The order looks at the distance first and then at the x coordinate; it is total up to these two. */
  lemma {:induction false} LessMeaning(a: Candidate, b: Candidate)
    ensures a.dist < b.dist ==> Less(a, b)
    ensures a.dist == b.dist && a.point.x < b.point.x ==> Less(a, b)
    ensures !Less(a, b) && !Less(b, a) <==> a.dist == b.dist && a.point.x == b.point.x
    ensures !(Less(a, b) && Less(b, a))
  {
  }

  function Father(i: int): (f: int)
    ensures i > 0 ==> 0 <= f < i && (i == f * 2 + 1 || i == f * 2 + 2)
  {
    (i - 1) / 2
  }

  /** The element at `j` does not exceed its father. */
  predicate BelowFather(s: seq<Candidate>, j: int)
    requires 0 < j < |s|
  {
    !Less(s[Father(j)], s[j])
  }

  /** No son of `hole` exceeds `c`. */
  predicate BoundsSons(s: seq<Candidate>, hole: nat, c: Candidate) {
    && (hole * 2 + 1 < |s| ==> !Less(c, s[hole * 2 + 1]))
    && (hole * 2 + 2 < |s| ==> !Less(c, s[hole * 2 + 2]))
  }

  ghost predicate IsHeap(s: seq<Candidate>) {
    forall j :: 0 < j < |s| ==> BelowFather(s, j)
  }

  /** A heap except that the element at `hole` may be smaller than its sons. */
  ghost predicate HeapButDown(s: seq<Candidate>, hole: nat) {
    && hole < |s|
    && (forall j :: 0 < j < |s| && Father(j) != hole ==> BelowFather(s, j))
    && (hole > 0 ==> BoundsSons(s, hole, s[Father(hole)]))
  }

  /** A heap except that the element at `hole` may be larger than its father. */
  ghost predicate HeapButUp(s: seq<Candidate>, hole: nat) {
    && hole < |s|
    && (forall j :: 0 < j < |s| && j != hole ==> BelowFather(s, j))
    && (hole > 0 ==> BoundsSons(s, hole, s[Father(hole)]))
  }

  /** The root of a heap is a maximum. */
  lemma {:induction false} TopIsMax(s: seq<Candidate>, i: nat)
    requires IsHeap(s) && i < |s|
    ensures !Less(s[0], s[i]) && s[i].dist <= s[0].dist
  {
    if i > 0 {
      assert BelowFather(s, i);
      TopIsMax(s, Father(i));
    }
  }

  lemma {:induction false} SwapMultiset<T>(s: seq<T>, i: nat, j: nat)
    requires i < |s| && j < |s|
    ensures multiset(s[i := s[j]][j := s[i]]) == multiset(s)
  {
  }

  /** The heap array as a sequence whose hole is filled by the element being sifted. */
  function Filled(s: seq<Candidate>, hole: nat, tmp: Candidate): seq<Candidate>
    requires hole < |s|
  {
    s[hole := tmp]
  }

  lemma {:induction false} MoveHole(s: seq<Candidate>, hole: nat, k: nat, tmp: Candidate)
    requires hole < |s| && k < |s| && hole != k
    ensures multiset(Filled(s[hole := s[k]], k, tmp)) == multiset(Filled(s, hole, tmp))
  {
    var v := Filled(s, hole, tmp);
    SwapMultiset(v, hole, k);
    assert v[hole := v[k]][k := v[hole]] == Filled(s[hole := s[k]], k, tmp);
  }

  /** The larger son `l` moves up into the hole. */
  lemma {:induction false} SinkStep(s: seq<Candidate>, hole: nat, l: nat, tmp: Candidate)
    requires 0 < l < |s| && hole == Father(l) && HeapButDown(Filled(s, hole, tmp), hole)
    requires Less(tmp, s[l]) && BoundsSons(s, hole, s[l])
    ensures HeapButDown(Filled(s[hole := s[l]], l, tmp), l)
  {
    var v, w := Filled(s, hole, tmp), Filled(s[hole := s[l]], l, tmp);
    forall j | 0 < j < |w| && Father(j) != l
      ensures BelowFather(w, j)
    {
      if Father(j) != hole {
        assert BelowFather(v, j);
      }
    }
    var a, b := l * 2 + 1, l * 2 + 2;
    assert a < |w| ==> Father(a) == l && BelowFather(v, a);
    assert b < |w| ==> Father(b) == l && BelowFather(v, b);
  }

  /** The smaller father moves down into the hole. */
  lemma {:induction false} FloatStep(s: seq<Candidate>, hole: nat, tmp: Candidate)
    requires 0 < hole < |s| && HeapButUp(Filled(s, hole, tmp), hole) && Less(s[Father(hole)], tmp)
    ensures var f := Father(hole); HeapButUp(Filled(s[hole := s[f]], f, tmp), f)
  {
    var f := Father(hole);
    var v, w := Filled(s, hole, tmp), Filled(s[hole := s[f]], f, tmp);
    forall j | 0 < j < |w| && j != f
      ensures BelowFather(w, j)
    {
      if j != hole && Father(j) != hole {
        assert BelowFather(v, j);
      }
    }
    if f > 0 {
      assert BelowFather(v, f);
      var a, b := f * 2 + 1, f * 2 + 2;
      assert a < |w| && a != hole ==> Father(a) == f && BelowFather(v, a);
      assert b < |w| && b != hole ==> Father(b) == f && BelowFather(v, b);
    }
  }

  /** The sift-down loop with the element `tmp` in hand: a heap but for the hole, over the elements `bag`. */
  ghost predicate Sinking(s: seq<Candidate>, hole: nat, tmp: Candidate, bag: multiset<Candidate>)
    requires hole < |s|
  {
    forall k :: OpenHeap(k) ==> HeapButDown(Filled(s, hole, tmp), hole) && multiset(Filled(s, hole, tmp)) == bag
  }

  ghost predicate Floating(s: seq<Candidate>, hole: nat, tmp: Candidate, bag: multiset<Candidate>)
    requires hole < |s|
  {
    forall k :: OpenHeap(k) ==> HeapButUp(Filled(s, hole, tmp), hole) && multiset(Filled(s, hole, tmp)) == bag
  }

  /** `s` is a heap over the elements `bag`. */
  ghost predicate HeapOf(s: seq<Candidate>, bag: multiset<Candidate>) {
    forall k :: OpenHeap(k) ==> IsHeap(s) && multiset(s) == bag
  }

  lemma {:induction false} OpenHeapOf(s: seq<Candidate>, bag: multiset<Candidate>)
    requires HeapOf(s, bag)
    ensures IsHeap(s) && multiset(s) == bag
  {
    assert OpenHeap(0);
  }

  lemma {:induction false} StartSinking(s: seq<Candidate>, hole: nat)
    requires HeapButDown(s, hole)
    ensures Sinking(s, hole, s[hole], multiset(s))
  {
    assert Filled(s, hole, s[hole]) == s;
  }

  lemma {:induction false} StartFloating(s: seq<Candidate>, hole: nat)
    requires HeapButUp(s, hole)
    ensures Floating(s, hole, s[hole], multiset(s))
  {
    assert Filled(s, hole, s[hole]) == s;
  }

  function LargerSon(s: seq<Candidate>, hole: nat): nat
    requires hole * 2 + 1 < |s|
  {
    var l := hole * 2 + 1;
    if l + 1 < |s| && Less(s[l], s[l + 1]) then l + 1 else l
  }

  lemma {:induction false} SinkDone(s: seq<Candidate>, hole: nat, tmp: Candidate)
    requires hole < |s| && HeapButDown(Filled(s, hole, tmp), hole) && BoundsSons(s, hole, tmp)
    ensures IsHeap(Filled(s, hole, tmp))
  {
  }

  /** One turn of the sift-down loop. */
  lemma {:induction false} SinkTurn(s: seq<Candidate>, hole: nat, tmp: Candidate, bag: multiset<Candidate>)
    requires hole * 2 + 1 < |s| && Sinking(s, hole, tmp, bag)
    ensures var l := LargerSon(s, hole);
            && hole < l < |s|
            && (Less(tmp, s[l]) ==> Sinking(Filled(s, hole, s[l]), l, tmp, bag))
            && (!Less(tmp, s[l]) ==> HeapOf(Filled(s, hole, tmp), bag))
  {
    assert OpenHeap(0);
    var l := LargerSon(s, hole);
    assert Father(l) == hole;
    if Less(tmp, s[l]) {
      SinkStep(s, hole, l, tmp);
      MoveHole(s, hole, l, tmp);
    } else {
      SinkDone(s, hole, tmp);
    }
  }

  lemma {:induction false} SinkEnd(s: seq<Candidate>, hole: nat, tmp: Candidate, bag: multiset<Candidate>)
    requires hole < |s| <= hole * 2 + 1 && Sinking(s, hole, tmp, bag)
    ensures HeapOf(Filled(s, hole, tmp), bag)
  {
    assert OpenHeap(0);
    SinkDone(s, hole, tmp);
  }

  /** One turn of the sift-up loop. */
  lemma {:induction false} FloatTurn(s: seq<Candidate>, hole: nat, tmp: Candidate, bag: multiset<Candidate>)
    requires 0 < hole < |s| && Floating(s, hole, tmp, bag)
    ensures var f := Father(hole);
            && (Less(s[f], tmp) ==> Floating(Filled(s, hole, s[f]), f, tmp, bag))
            && (!Less(s[f], tmp) ==> HeapOf(Filled(s, hole, tmp), bag))
  {
    assert OpenHeap(0);
    var f := Father(hole);
    if Less(s[f], tmp) {
      FloatStep(s, hole, tmp);
      MoveHole(s, hole, f, tmp);
    } else {
      assert BelowFather(Filled(s, hole, tmp), hole);
    }
  }

  lemma {:induction false} FloatEnd(s: seq<Candidate>, tmp: Candidate, bag: multiset<Candidate>)
    requires s != [] && Floating(s, 0, tmp, bag)
    ensures HeapOf(Filled(s, 0, tmp), bag)
  {
    assert OpenHeap(0);
  }

  class Heap {
    const cap: nat
    const heap: array<Candidate>
    var heapSize: nat

    ghost predicate Valid()
      reads this, heap
    {
      heap.Length == cap && heapSize <= cap && IsHeap(heap[..heapSize])
    }

    ghost function Contents(): multiset<Candidate>
      reads this, heap
      requires heapSize <= heap.Length
    {
      multiset(heap[..heapSize])
    }

    constructor (capacity: nat)
      ensures Valid() && fresh(heap) && cap == capacity && heapSize == 0 && Contents() == multiset{}
    {
      cap := capacity;
      heap := new Candidate[capacity](_ => Candidate(Point(0, 0, 0), 0));
      heapSize := 0;
    }

    method Pop()
      requires Valid()
      modifies this, heap
      ensures Valid()
      ensures heapSize == if old(heapSize) == 0 then 0 else old(heapSize) - 1
      ensures old(heapSize) > 0 ==> Contents() == old(Contents()) - multiset{old(heap[0])}
    {
      if heapSize == 0 {
        return;
      }
      ghost var s := heap[..heapSize];
      assert s == [s[0]] + s[1..];
      heap[0] := heap[heapSize - 1];
      heapSize := heapSize - 1;
      if heapSize > 0 {
        ghost var t := heap[..heapSize];
        RemoveFirst(s, t);
        MoveDown(0);
        OpenHeapOf(heap[..heapSize], multiset(t));
      } else {
        // With an empty heap the source sifts a slot beyond the contents onto itself.
        assert s[1..] == [];
      }
    }

    method Top() returns (c: Candidate)
      requires Valid() && heapSize > 0
      ensures c == heap[0] && c in Contents()
      ensures forall d :: d in Contents() ==> !Less(c, d) && d.dist <= c.dist
    {
      c := heap[0];
      ghost var s := heap[..heapSize];
      assert s[0] in multiset(s);
      forall d | d in multiset(s) ensures !Less(c, d) && d.dist <= c.dist {
        var i :| 0 <= i < |s| && s[i] == d;
        TopIsMax(s, i);
      }
    }

    method Push(c: Candidate)
      requires Valid()
      modifies this, heap
      ensures Valid()
      ensures old(heapSize) >= cap ==> heapSize == old(heapSize) && Contents() == old(Contents())
      ensures old(heapSize) < cap ==>
                heapSize == old(heapSize) + 1 && Contents() == old(Contents()) + multiset{c}
    {
      if heapSize >= cap {
        return;
      }
      ghost var s := heap[..heapSize];
      heap[heapSize] := c;
      assert heap[..heapSize + 1] == s + [c];
      Appended(s, c);
      FloatUp(heapSize);
      OpenHeapOf(heap[..heapSize + 1], multiset(s + [c]));
      heapSize := heapSize + 1;
    }

    /** Stores one element; `size` elements are in view. */
    method Store(i: nat, c: Candidate, ghost size: nat)
      requires i < size <= heap.Length
      modifies heap
      ensures heap[..size] == Filled(old(heap[..size]), i, c)
    {
      heap[i] := c;
    }

    method MoveDown(start: nat)
      requires heap.Length == cap && heapSize <= cap && HeapButDown(heap[..heapSize], start)
      modifies heap
      ensures HeapOf(heap[..heapSize], old(multiset(heap[..heapSize])))
    {
      var size := heapSize;
      var hole := start;
      var l := hole * 2 + 1;
      var tmp := heap[hole];
      ghost var s := heap[..size];
      ghost var bag := multiset(s);
      StartSinking(s, hole);
      while l < size
        invariant hole < size && l == hole * 2 + 1 && s == heap[..size]
        invariant Sinking(s, hole, tmp, bag)
        decreases size - hole
      {
        SinkTurn(s, hole, tmp, bag);
        if l + 1 < size && Less(heap[l], heap[l + 1]) {
          l := l + 1;
        }
        assert l == LargerSon(s, hole);
        if !Less(tmp, heap[l]) {
          break;
        }
        s := Filled(s, hole, s[l]);
        Store(hole, heap[l], size);
        hole := l;
        l := hole * 2 + 1;
      }
      if size <= hole * 2 + 1 {
        SinkEnd(s, hole, tmp, bag);
      }
      Store(hole, tmp, size);
    }

    /** Sifts up the element just behind the contents. */
    method FloatUp(start: nat)
      requires heap.Length == cap && start < cap && HeapButUp(heap[..start + 1], start)
      modifies heap
      ensures HeapOf(heap[..start + 1], old(multiset(heap[..start + 1])))
    {
      var hole := start;
      var ancestor := (hole - 1) / 2;
      var tmp := heap[hole];
      ghost var s := heap[..start + 1];
      ghost var bag := multiset(s);
      StartFloating(s, hole);
      while hole > 0
        invariant hole <= start && ancestor == Father(hole) && s == heap[..start + 1]
        invariant Floating(s, hole, tmp, bag)
      {
        FloatTurn(s, hole, tmp, bag);
        if !Less(heap[ancestor], tmp) {
          break;
        }
        s := Filled(s, hole, s[ancestor]);
        Store(hole, heap[ancestor], start + 1);
        hole := ancestor;
        ancestor := (hole - 1) / 2;
      }
      if hole == 0 {
        FloatEnd(s, tmp, bag);
      }
      Store(hole, tmp, start + 1);
    }
  }

  lemma {:induction false} Appended(s: seq<Candidate>, c: Candidate)
    requires IsHeap(s)
    ensures HeapButUp(s + [c], |s|)
  {
    forall j | 0 < j < |s| ensures BelowFather(s + [c], j) {
      assert BelowFather(s, j);
    }
  }

  lemma {:induction false} RemoveFirst(s: seq<Candidate>, t: seq<Candidate>)
    requires |s| > 1 && |t| == |s| - 1 && t == s[..|t|][0 := s[|t|]] && IsHeap(s)
    ensures HeapButDown(t, 0)
    ensures multiset(t) == multiset(s) - multiset{s[0]}
  {
    forall j | 0 < j < |t| && Father(j) != 0 ensures BelowFather(t, j) {
      assert BelowFather(s, j);
    }
    var last := |s| - 1;
    assert s == s[..last] + [s[last]];
    assert s[..last] == [s[0]] + s[1..last];
    assert t == [s[last]] + s[1..last];
  }
}
