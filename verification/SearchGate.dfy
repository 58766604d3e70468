/**
  The counter that keeps the background rebuild from flattening or replacing a subtree while a
  nearest-neighbour search is inside it. One step per critical section of the search mutex.
 */
module SearchGate {
  datatype Rebuilder = Idle | Flattening | Building | Swapping

  /**
    `readers[i]` is how many counted entries thread i is inside of; `version` changes with each swap.
    `counter` is search_mutex_counter.
   */
  datatype State = State(counter: int, rebuilder: Rebuilder, readers: seq<nat>, version: nat)

  datatype Step =
    | Enter(reader: nat)
    | Leave(reader: nat)
    | StartFlatten
    | EndFlatten
    | StartSwap
    /** The son pointer is replaced between the two critical sections. */
    | Replace
    | EndSwap

  function Total(readers: seq<nat>): nat {
    if readers == [] then 0 else readers[0] + Total(readers[1..])
  }

  /** A thread that finds the gate closed leaves the mutex and tries again: no step. */
  predicate Enabled(s: State, step: Step) {
    match step
    case Enter(i) => i < |s.readers| && s.counter != -1
    case Leave(i) => i < |s.readers| && s.readers[i] > 0
    case StartFlatten => s.rebuilder == Idle && s.counter == 0
    case EndFlatten => s.rebuilder == Flattening
    case StartSwap => s.rebuilder == Building && s.counter == 0
    case Replace => s.rebuilder == Swapping
    case EndSwap => s.rebuilder == Swapping
  }

  function Take(s: State, step: Step): State
    requires Enabled(s, step)
  {
    match step
    case Enter(i) => s.(counter := s.counter + 1, readers := s.readers[i := s.readers[i] + 1])
    case Leave(i) => s.(counter := s.counter - 1, readers := s.readers[i := s.readers[i] - 1])
    case StartFlatten => s.(counter := -1, rebuilder := Flattening)
    case EndFlatten => s.(counter := 0, rebuilder := Building)
    case StartSwap => s.(counter := -1, rebuilder := Swapping)
    case Replace => s.(version := s.version + 1)
    case EndSwap => s.(counter := 0, rebuilder := Idle)
  }

  predicate Closed(s: State) {
    s.rebuilder == Flattening || s.rebuilder == Swapping
  }

  /** The counter is -1 exactly while the rebuild holds the gate, and otherwise counts the readers inside. */
  predicate Exact(s: State) {
    && (Closed(s) <==> s.counter == -1)
    && Total(s.readers) == (if Closed(s) then 0 else s.counter)
  }

  predicate Initial(s: State) {
    s.counter == 0 && s.rebuilder == Idle && forall i :: 0 <= i < |s.readers| ==> s.readers[i] == 0
  }

  lemma {:induction false} TotalNothing(readers: seq<nat>)
    requires forall i :: 0 <= i < |readers| ==> readers[i] == 0
    ensures Total(readers) == 0
  {
    if readers != [] {
      TotalNothing(readers[1..]);
    }
  }

  lemma {:induction false} TotalUpdate(readers: seq<nat>, i: nat, n: nat)
    requires i < |readers|
    ensures Total(readers[i := n]) == Total(readers) - readers[i] + n
  {
    if i > 0 {
      TotalUpdate(readers[1..], i - 1, n);
      assert readers[i := n][1..] == readers[1..][i - 1 := n];
    } else {
      assert readers[i := n][1..] == readers[1..];
    }
  }

  lemma {:induction false} TotalBounds(readers: seq<nat>, i: nat)
    requires i < |readers|
    ensures readers[i] <= Total(readers)
  {
    if i > 0 {
      TotalBounds(readers[1..], i - 1);
    }
  }

  lemma {:induction false} StepKeepsExact(s: State, step: Step)
    requires Exact(s) && Enabled(s, step)
    ensures Exact(Take(s, step))
  {
    match step
    case Enter(i) => TotalUpdate(s.readers, i, s.readers[i] + 1);
    case Leave(i) =>
      TotalBounds(s.readers, i);
      TotalUpdate(s.readers, i, s.readers[i] - 1);
    case _ =>
  }

  /** No reader is inside while the gate is closed. */
  lemma {:induction false} ClosedMeansNoReader(s: State, i: nat)
    requires Exact(s) && i < |s.readers| && s.readers[i] > 0
    ensures !Closed(s) && s.counter > 0
  {
    TotalBounds(s.readers, i);
  }

  // ---- Whole runs ----

  function StateAfter(s: State, steps: seq<Step>): State
    requires Runs(s, steps)
    decreases steps
  {
    if steps == [] then s else StateAfter(Take(s, steps[0]), steps[1..])
  }

  predicate Runs(s: State, steps: seq<Step>)
    decreases steps
  {
    steps == [] || (Enabled(s, steps[0]) && Runs(Take(s, steps[0]), steps[1..]))
  }

  lemma {:induction false} RunKeepsExact(s: State, steps: seq<Step>)
    requires Exact(s) && Runs(s, steps)
    ensures Exact(StateAfter(s, steps)) && |StateAfter(s, steps).readers| == |s.readers|
    decreases steps
  {
    if steps != [] {
      StepKeepsExact(s, steps[0]);
      RunKeepsExact(Take(s, steps[0]), steps[1..]);
    }
  }

  /**
    In every reachable state, with any number of searching threads, the counter is exact, and neither
    flattening nor a swap overlaps a counted reader.
   */
  lemma {:induction false} Exclusion(s: State, steps: seq<Step>, i: nat)
    requires Initial(s) && Runs(s, steps) && i < |s.readers|
    ensures var t := StateAfter(s, steps);
            && |t.readers| == |s.readers|
            && (t.counter == -1 <==> Closed(t))
            && (!Closed(t) ==> t.counter == Total(t.readers))
            && (Closed(t) ==> t.readers[i] == 0)
  {
    TotalNothing(s.readers);
    RunKeepsExact(s, steps);
    var t := StateAfter(s, steps);
    if t.readers[i] > 0 {
      ClosedMeansNoReader(t, i);
    }
  }

  function Occurrences(steps: seq<Step>, e: Step): nat {
    if steps == [] then 0 else (if steps[0] == e then 1 else 0) + Occurrences(steps[1..], e)
  }

  /** How often the rebuild has started and ended what it does in turn, counted from a state in which it is idle. */
  predicate InTurn(r: Rebuilder, startFlatten: int, endFlatten: int, startSwap: int, endSwap: int) {
    && startFlatten == endSwap + (if r == Idle then 0 else 1)
    && endFlatten == endSwap + (if r == Building || r == Swapping then 1 else 0)
    && startSwap == endSwap + (if r == Swapping then 1 else 0)
  }

  /** Flattening, building, swapping: each rebuild goes through them in this order and ends before the next begins. */
  lemma {:induction false} RebuildsInOrder(s: State, steps: seq<Step>, a: int, b: int, c: int, d: int)
    requires Runs(s, steps) && InTurn(s.rebuilder, a, b, c, d)
    ensures InTurn(StateAfter(s, steps).rebuilder, a + Occurrences(steps, StartFlatten),
                   b + Occurrences(steps, EndFlatten), c + Occurrences(steps, StartSwap),
                   d + Occurrences(steps, EndSwap))
    decreases steps
  {
    if steps != [] {
      var e := steps[0];
      RebuildsInOrder(Take(s, e), steps[1..], if e == StartFlatten then a + 1 else a,
                      if e == EndFlatten then b + 1 else b, if e == StartSwap then c + 1 else c,
                      if e == EndSwap then d + 1 else d);
    }
  }

  /** Reader i never leaves the subtree during the run. */
  predicate StaysInside(s: State, steps: seq<Step>, i: nat)
    requires Runs(s, steps)
    decreases steps
  {
    && i < |s.readers| && s.readers[i] > 0
    && (steps != [] ==> StaysInside(Take(s, steps[0]), steps[1..], i))
  }

  /** A counted reader sees one and the same subtree from its entry to its exit. */
  lemma {:induction false} ReaderSeesOneVersion(s: State, steps: seq<Step>, i: nat)
    requires Exact(s) && Runs(s, steps) && StaysInside(s, steps, i)
    ensures StateAfter(s, steps).version == s.version
    decreases steps
  {
    if steps != [] {
      ClosedMeansNoReader(s, i);
      StepKeepsExact(s, steps[0]);
      ReaderSeesOneVersion(Take(s, steps[0]), steps[1..], i);
    }
  }
}
