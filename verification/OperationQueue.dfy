/** The ring buffer in which the main thread logs the operations the background rebuild has missed. */
module OperationQueues {
  import opened Operations

  /** `s` after its slots congruent to |s| modulo the buffer length have been overwritten by `x`. */
  function Overwritten(s: seq<Operation>, length: nat, x: Operation): (r: seq<Operation>)
    requires length > 0
    ensures |r| == |s|
  {
    seq(|s|, i requires 0 <= i < |s| => if i % length == |s| % length then x else s[i])
  }

  /** The array index of the i-th operation behind the head. */
  function Slot(head: nat, i: nat, length: nat): (k: nat)
    requires length > 0
    ensures k < length
  {
    (head + i) % length
  }

  /** A non-zero multiple of the length is at least one length away from zero. */
  lemma {:induction false} Multiple(k: int, length: int)
    requires length > 0
    ensures k > 0 ==> k * length >= length
    ensures k < 0 ==> k * length <= -length
    ensures k == 0 ==> k * length == 0
  {
    if k > 0 {
      PositiveMultiple(k, length);
    } else if k < 0 {
      PositiveMultiple(-k, length);
      assert k * length == -((-k) * length);
    }
  }

  lemma {:induction false} PositiveMultiple(k: int, length: int)
    requires k > 0 && length > 0
    ensures k * length >= length
  {
    if k > 1 {
      PositiveMultiple(k - 1, length);
      assert k * length == (k - 1) * length + length;
    }
  }

  lemma {:induction false} Remainder(x: int, d: int, r: int, length: nat)
    requires length > 0 && x == d * length + r && 0 <= r < length
    ensures x % length == r
  {
    assert (x / length - d) * length == r - x % length;
    Multiple(x / length - d, length);
  }

  /** Two offsets from the same head fall on the same slot exactly when they are congruent. */
  lemma {:induction false} SameSlot(head: nat, i: nat, j: nat, length: nat)
    requires length > 0
    ensures Slot(head, i, length) == Slot(head, j, length) <==> i % length == j % length
  {
    var a: int, b: int := (head + i) / length - (head + j) / length, i / length - j / length;
    var x: int, y: int := Slot(head, i, length) - Slot(head, j, length), i % length - j % length;
    assert i - j == a * length + x && i - j == b * length + y;
    assert (b - a) * length == x - y;
    Multiple(b - a, length);
  }

  /** Moving the head on by one turns the i-th operation into the one before it. */
  lemma {:induction false} HeadMoves(head: nat, i: nat, length: nat)
    requires length > 0
    ensures Slot((head + 1) % length, i, length) == Slot(head, i + 1, length)
  {
    var d, r := (head + 1) / length, (head + 1) % length;
    var e, x := (r + i) / length, (r + i) % length;
    assert head + (i + 1) == (d + e) * length + x;
    Remainder(head + (i + 1), d + e, x, length);
  }

  lemma {:induction false} TailMoves(head: nat, i: nat, length: nat)
    requires length > 0
    ensures (Slot(head, i, length) + 1) % length == Slot(head, i + 1, length)
  {
    var d, r := (head + i) / length, (head + i) % length;
    var e, x := (r + 1) / length, (r + 1) % length;
    assert head + (i + 1) == (d + e) * length + x;
    Remainder(head + (i + 1), d + e, x, length);
  }

  /** A push disturbs nothing, whatever is pushed, exactly while the buffer is not full. */
  lemma {:induction false} PushFaithful(s: seq<Operation>, length: nat)
    requires length > 0
    ensures |s| < length <==> forall x :: Overwritten(s, length, x) == s
  {
    if |s| < length {
      forall x ensures Overwritten(s, length, x) == s {
        KeptBelowLength(s, length, x);
      }
    } else {
      var i := |s| % length;
      var x := if s[i].AddPoint? then PushDownFlags(true, true) else AddPoint(Geometry.Point(0, 0, 0));
      Remainder(i, 0, i, length);
      assert Overwritten(s, length, x)[i] == x != s[i];
    }
  }

  lemma {:induction false} KeptBelowLength(s: seq<Operation>, length: nat, x: Operation)
    requires |s| < length
    ensures Overwritten(s, length, x) == s
  {
    Remainder(|s|, 0, |s|, length);
    forall i | 0 <= i < |s| ensures Overwritten(s, length, x)[i] == s[i] {
      Remainder(i, 0, i, length);
    }
  }

  class OperationQueue {
    var head: int
    var tail: int
    var counter: int
    const q: array<Operation>
    var isEmpty: bool

    predicate Valid()
      reads this
    {
      && q.Length > 0
      && 0 <= head < q.Length && 0 <= counter
      && tail == Slot(head, counter, q.Length)
      && (isEmpty <==> counter == 0)
    }

    /** The logged operations, oldest first. */
    ghost function Contents(): (s: seq<Operation>)
      requires Valid()
      reads this, q
      ensures |s| == counter
    {
      seq(counter, i requires 0 <= i < counter reads this, q requires Valid() => q[Slot(head, i, q.Length)])
    }

    constructor (length: nat)
      requires length > 0
      ensures Valid() && fresh(q) && q.Length == length && Contents() == []
    {
      q := new Operation[length](_ => PushDownFlags(false, false));
      head, tail, counter, isEmpty := 0, 0, 0, true;
    }

    method Clear()
      requires Valid()
      modifies this
      ensures Valid() && Contents() == []
    {
      head, tail, counter, isEmpty := 0, 0, 0, true;
    }

    /** Drops the oldest operation; an empty queue stays as it is. */
    method Pop()
      requires Valid()
      modifies this
      ensures Valid()
      ensures Contents() == if old(counter) == 0 then [] else old(Contents())[1..]
    {
      if counter == 0 {
        return;
      }
      ghost var s, h := Contents(), head;
      head := (head + 1) % q.Length;
      counter := counter - 1;
      if counter == 0 {
        isEmpty := true;
      }
      forall i: nat | i <= counter ensures Slot(head, i, q.Length) == Slot(h, i + 1, q.Length) {
        HeadMoves(h, i, q.Length);
      }
      assert Contents() == s[1..];
    }

    method Front() returns (op: Operation)
      requires Valid()
      ensures counter > 0 ==> op == Contents()[0]
    {
      op := q[head];
      Remainder(head, 0, head, q.Length);
    }

    /** Appends an operation; beyond the buffer length it overwrites operations that are still logged. */
    method Push(op: Operation)
      requires Valid()
      modifies this, q
      ensures Valid()
      ensures Contents() == Overwritten(old(Contents()), q.Length, op) + [op]
      ensures old(counter) < q.Length ==> Contents() == old(Contents()) + [op]
    {
      ghost var s := Contents();
      ghost var length := q.Length;
      forall i: nat ensures Slot(head, i, length) == tail <==> i % length == counter % length {
        SameSlot(head, i, counter, length);
      }
      TailMoves(head, counter, length);
      q[tail] := op;
      counter := counter + 1;
      if isEmpty {
        isEmpty := false;
      }
      tail := (tail + 1) % q.Length;
      assert Contents() == Overwritten(s, length, op) + [op];
      if |s| < length {
        KeptBelowLength(s, length, op);
      }
    }

    method Empty() returns (b: bool)
      requires Valid()
      ensures b <==> Contents() == []
    {
      b := isEmpty;
    }
  }
}
