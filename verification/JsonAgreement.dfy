/** The recursive-descent parser and the table-driven parser read the same language and send the same events. */
module JsonAgreement {
  import Folding
  import opened Options
  import opened JsonEvents
  import opened JsonDescent
  import opened JsonTable

  /** Same events and same error; the same rest of the stream unless there is an error. */
  ghost predicate Agree(a: Cursor, b: Cursor) {
    a.events == b.events && a.error == b.error && (a.error.None? ==> a.rest == b.rest)
  }

  /** The states in which a value may start. */
  predicate ExpectsValue(s: ParsingState) {
    s == StartState || s == ArrayInitialState || s == ElementDelimiterState || s == KeyValueDelimiterState
  }

  /** The state after a value that started in `s`. */
  function After(s: ParsingState): ParsingState {
    Restored(SavedState(s))
  }

  predicate OpensNoValue(l: Option<Lexeme>) {
    match l
    case None => true
    case Some(l) => l.RightBracket? || l.RightCurly? || l.Comma? || l.Colon?
  }

  /** A machine in which the descent parser would call ParseValue. */
  ghost predicate AtValue(m: Machine, g: Rules) {
    && WellFormed(m) && ExpectsValue(m.state)
    && (m.state == StartState ==> !OpensNoValue(Next(m.cur)))
    && (m.state == ArrayInitialState ==> Next(m.cur) != Some(RightBracket))
    && (m.state == ElementDelimiterState && g.trailingCommas ==> Next(m.cur) != Some(RightBracket))
  }

  /** The machine after the innermost array or object has been closed at `c`. */
  function Popped(m: Machine, c: Cursor): Machine
    requires m.stack != []
  {
    Machine(Restored(m.stack[|m.stack| - 1].saved), m.stack[..|m.stack| - 1], c)
  }

  lemma {:induction false} RunStep(m: Machine, g: Rules)
    requires WellFormed(m) && m.cur.rest != []
    ensures Step(m, g).cur.error.None? ==> WellFormed(Step(m, g)) && |Step(m, g).cur.rest| < |m.cur.rest|
    ensures Run(m, g) == Continue(Step(m, g), g)
  {
    if Step(m, g).cur.error.None? {
      StepWellFormed(m, g);
    }
  }

  /** The next turn of the loop leads to `n`. */
  ghost predicate StepsTo(m: Machine, n: Machine, g: Rules)
    requires WellFormed(m) && m.cur.rest != []
  {
    forall k :: Folding.Open(k) ==> Step(m, g) == n
  }

  /** The next turn of the loop fails as `c` does. */
  ghost predicate StepFails(m: Machine, c: Cursor, g: Rules)
    requires WellFormed(m) && m.cur.rest != []
  {
    c.error.Some? && forall k :: Folding.Open(k) ==> Agree(Step(m, g).cur, c)
  }

  // ---- Scalars ----

  lemma {:induction false} ScalarStep(m: Machine, g: Rules)
    requires AtValue(m, g) && m.cur.rest != [] && !m.cur.rest[0].LeftCurly? && !m.cur.rest[0].LeftBracket?
    ensures var c := Scalar(m.cur, g);
            if c.error.Some? then StepFails(m, c, g) else StepsTo(m, Machine(After(m.state), m.stack, c), g)
  {
    OpenShape(m);
  }

  // ---- Closing and separating ----

  /**
    `e` closes the innermost container at the next lexeme: behind a value or a trailing comma, or right after it opened.
   */
  predicate Closes(m: Machine, e: Event, g: Rules)
    requires m.stack != [] && m.cur.rest != []
  {
    if m.cur.rest[0].RightBracket? then
      && (m.state == ArrayInitialState || m.state == ElementState
          || (m.state == ElementDelimiterState && g.trailingCommas))
      && e == EndArray(Closing(m, ElementState))
    else
      && m.cur.rest[0].RightCurly?
      && (m.state == ObjectInitialState || m.state == MemberValueState
          || (m.state == MemberDelimiterState && g.trailingCommas))
      && e == EndObject(Closing(m, MemberValueState))
  }

  lemma {:induction false} CloseStep(m: Machine, e: Event, g: Rules)
    requires WellFormed(m) && m.stack != [] && m.cur.rest != [] && Closes(m, e, g)
    ensures var c := Emit(Take(m.cur), e, g);
            if c.error.Some? then StepFails(m, c, g) else StepsTo(m, Popped(m, c), g)
    ensures var c := EndThenTake(m.cur, e, g);
            if c.error.Some? then StepFails(m, c, g) else StepsTo(m, Popped(m, c), g)
  {
    OpenShape(m);
  }

  function Closing(m: Machine, last: ParsingState): nat
    requires m.stack != []
  {
    var count := m.stack[|m.stack| - 1].count;
    if m.state == last then Increment(count) else count
  }

  lemma {:induction false} CommaStep(m: Machine, c: Cursor, g: Rules)
    requires WellFormed(m) && m.stack != [] && Next(m.cur) == Some(Comma)
    requires m.state == ElementState || m.state == MemberValueState
    ensures var d := Delimit(m, if m.state == ElementState then ElementDelimiterState else MemberDelimiterState);
            && StepsTo(m, d, g) && WellFormed(d) && d.stack != [] && |d.stack| == |m.stack|
            && d.stack[|d.stack| - 1].count == Increment(m.stack[|m.stack| - 1].count)
            && Popped(d, c) == Popped(m, c)
  {
    OpenShape(m);
  }

  // ---- One level of the descent at a time ----

  // Each predicate says that the function it is named after leads from `c0` to `c`.

  ghost predicate ValueIs(c0: Cursor, g: Rules, c: Cursor)
    requires c0.error.None?
  {
    forall k :: Folding.Open(k) ==> Value(c0, g) == c
  }

  ghost predicate ObjectIs(c0: Cursor, g: Rules, c: Cursor)
    requires c0.error.None? && Next(c0) == Some(LeftCurly)
  {
    forall k :: Folding.Open(k) ==> Object(c0, g) == c
  }

  ghost predicate ArrayIs(c0: Cursor, g: Rules, c: Cursor)
    requires c0.error.None? && Next(c0) == Some(LeftBracket)
  {
    forall k :: Folding.Open(k) ==> Array(c0, g) == c
  }

  ghost predicate ElementsIs(c0: Cursor, count: nat, g: Rules, c: Cursor)
    requires c0.error.None?
  {
    forall k :: Folding.Open(k) ==> Elements(c0, count, g) == c
  }

  ghost predicate ElementEndIs(c0: Cursor, count: nat, g: Rules, c: Cursor)
    requires c0.error.None?
  {
    forall k :: Folding.Open(k) ==> ElementEnd(c0, count, g) == c
  }

  ghost predicate MembersIs(c0: Cursor, count: nat, g: Rules, c: Cursor)
    requires c0.error.None?
  {
    forall k :: Folding.Open(k) ==> Members(c0, count, g) == c
  }

  ghost predicate NamedValueIs(c0: Cursor, count: nat, g: Rules, c: Cursor)
    requires c0.error.None?
  {
    forall k :: Folding.Open(k) ==> NamedValue(c0, count, g) == c
  }

  ghost predicate MemberValueIs(c0: Cursor, count: nat, g: Rules, c: Cursor)
    requires c0.error.None?
  {
    forall k :: Folding.Open(k) ==> MemberValue(c0, count, g) == c
  }

  ghost predicate MemberEndIs(c0: Cursor, count: nat, g: Rules, c: Cursor)
    requires c0.error.None?
  {
    forall k :: Folding.Open(k) ==> MemberEnd(c0, count, g) == c
  }

  lemma {:induction false} ValueCases(c0: Cursor, g: Rules, c: Cursor)
    requires c0.error.None? && ValueIs(c0, g, c)
    ensures match Next(c0)
            case Some(LeftCurly) => ObjectIs(c0, g, c)
            case Some(LeftBracket) => ArrayIs(c0, g, c)
            case _ => c == Scalar(c0, g)
  {
    assert Folding.Open(0);
  }

  lemma {:induction false} ArrayCases(c0: Cursor, g: Rules, c: Cursor)
    requires c0.error.None? && Next(c0) == Some(LeftBracket) && ArrayIs(c0, g, c)
    ensures var s := Emit(Take(c0), StartArray, g);
            if s.error.Some? then c == s
            else if Next(s) == Some(RightBracket) then c == Emit(Take(s), EndArray(0), g)
            else ElementsIs(s, 0, g, c)
  {
    assert Folding.Open(0);
  }

  lemma {:induction false} ElementsCases(c0: Cursor, count: nat, g: Rules, c: Cursor) returns (v: Cursor)
    requires c0.error.None? && ElementsIs(c0, count, g, c)
    ensures ValueIs(c0, g, v)
    ensures if v.error.Some? then c == v else |v.rest| < |c0.rest| && ElementEndIs(v, count, g, c)
  {
    assert Folding.Open(0);
    v := Value(c0, g);
  }

  lemma {:induction false} ElementEndCases(c0: Cursor, count: nat, g: Rules, c: Cursor)
    requires c0.error.None? && ElementEndIs(c0, count, g, c)
    ensures match Next(c0)
            case Some(Comma) =>
              (var d := Take(c0);
               if g.trailingCommas && Next(d) == Some(RightBracket) then c == EndThenTake(d,
                   EndArray(Increment(count)), g)
               else ElementsIs(d, Increment(count), g, c))
            case Some(RightBracket) => c == Emit(Take(c0), EndArray(Increment(count)), g)
            case _ => c == Fail(c0, ArrayMissCommaOrSquareBracket)
  {
    assert Folding.Open(0);
  }

  lemma {:induction false} ObjectCases(c0: Cursor, g: Rules, c: Cursor)
    requires c0.error.None? && Next(c0) == Some(LeftCurly) && ObjectIs(c0, g, c)
    ensures var s := Emit(Take(c0), StartObject, g);
            if s.error.Some? then c == s
            else if Next(s) == Some(RightCurly) then c == Emit(Take(s), EndObject(0), g)
            else MembersIs(s, 0, g, c)
  {
    assert Folding.Open(0);
  }

  lemma {:induction false} MembersCases(c0: Cursor, count: nat, g: Rules, c: Cursor)
    requires c0.error.None? && MembersIs(c0, count, g, c)
    ensures if c0.rest == [] || !c0.rest[0].Quoted? then c == Fail(c0, ObjectMissName)
            else
              var k := Name(c0, g);
              if k.error.Some? then c == k else NamedValueIs(k, count, g, c)
  {
    assert Folding.Open(0);
  }

  lemma {:induction false} NamedValueCases(c0: Cursor, count: nat, g: Rules, c: Cursor)
    requires c0.error.None? && NamedValueIs(c0, count, g, c)
    ensures if Next(c0) != Some(Colon) then c == Fail(c0, ObjectMissColon) else MemberValueIs(Take(c0), count, g, c)
  {
    assert Folding.Open(0);
  }

  lemma {:induction false} MemberValueCases(c0: Cursor, count: nat, g: Rules, c: Cursor) returns (v: Cursor)
    requires c0.error.None? && MemberValueIs(c0, count, g, c)
    ensures ValueIs(c0, g, v)
    ensures if v.error.Some? then c == v else |v.rest| < |c0.rest| && MemberEndIs(v, count, g, c)
  {
    assert Folding.Open(0);
    v := Value(c0, g);
  }

  lemma {:induction false} MemberEndCases(c0: Cursor, count: nat, g: Rules, c: Cursor)
    requires c0.error.None? && MemberEndIs(c0, count, g, c)
    ensures match Next(c0)
            case Some(Comma) =>
              (var d := Take(c0);
               if g.trailingCommas && Next(d) == Some(RightCurly) then c == EndThenTake(d, EndObject(Increment(count)),
                   g)
               else MembersIs(d, Increment(count), g, c))
            case Some(RightCurly) => c == Emit(Take(c0), EndObject(Increment(count)), g)
            case _ => c == Fail(c0, ObjectMissCommaOrCurlyBracket)
  {
    assert Folding.Open(0);
  }

  // ---- Simulation ----

  /**
    The descent parser went from `m.cur` to `c`. Either it failed and the table parser fails alike, or the
    table parser comes by the machine `after`, which stands at `c`.
   */
  ghost predicate Simulates(m: Machine, c: Cursor, after: Machine, g: Rules)
    requires WellFormed(m)
  {
    forall k :: Folding.OpenAside(k) ==>
      if c.error.Some? then Agree(Run(m, g), c)
      else WellFormed(after) && after.cur == c && Run(m, g) == Continue(after, g)
  }

  /** Both fail at the end of the input. */
  lemma {:induction false} FailsAtEnd(m: Machine, after: Machine, g: Rules)
    requires WellFormed(m) && m.cur.rest == [] && m.state != FinishState
    ensures Simulates(m, Fail(m.cur, ErrorOf(m.state)), after, g)
  {
  }

  /** Both fail in the next turn of the loop. */
  lemma {:induction false} FailsInStep(m: Machine, c: Cursor, after: Machine, g: Rules)
    requires WellFormed(m) && m.cur.rest != [] && StepFails(m, c, g)
    ensures Simulates(m, c, after, g)
  {
    assert Folding.Open(0) && Folding.OpenAside(0);
    RunStep(m, g);
  }

  /** The next turn of the loop arrives. */
  lemma {:induction false} Arrives(m: Machine, after: Machine, g: Rules)
    requires WellFormed(m) && m.cur.rest != [] && StepsTo(m, after, g) && after.cur.error.None?
    ensures Simulates(m, after.cur, after, g)
  {
    assert Folding.Open(0) && Folding.OpenAside(0);
    RunStep(m, g);
  }

  /** A turn of the loop, and on from there. */
  lemma {:induction false} StepsOn(m: Machine, n: Machine, c: Cursor, after: Machine, g: Rules)
    requires WellFormed(m) && m.cur.rest != [] && StepsTo(m, n, g) && !Done(n, g)
    requires WellFormed(n) && Simulates(n, c, after, g)
    ensures Simulates(m, c, after, g)
  {
    assert Folding.Open(0) && Folding.OpenAside(0);
    RunStep(m, g);
  }

  /** A simulated stretch, and on from there. */
  lemma {:induction false} GoesOn(m: Machine, n: Machine, c: Cursor, after: Machine, g: Rules)
    requires WellFormed(m) && Simulates(m, n.cur, n, g) && !Done(n, g)
    requires WellFormed(n) && Simulates(n, c, after, g)
    ensures Simulates(m, c, after, g)
  {
    assert Folding.OpenAside(0);
  }

  lemma {:induction false} FailsBefore(m: Machine, c: Cursor, any: Machine, after: Machine, g: Rules)
    requires WellFormed(m) && c.error.Some? && Simulates(m, c, any, g)
    ensures Simulates(m, c, after, g)
  {
    assert Folding.OpenAside(0);
  }

  lemma {:induction false} AfterWellFormed(m: Machine, c: Cursor, g: Rules)
    requires AtValue(m, g) && c.error.None?
    ensures WellFormed(Machine(After(m.state), m.stack, c))
  {
    OpenShape(m);
  }

  lemma {:induction false} ValueSimulated(m: Machine, c: Cursor, g: Rules)
    requires AtValue(m, g) && ValueIs(m.cur, g, c)
    ensures Simulates(m, c, Machine(After(m.state), m.stack, c), g)
    decreases |m.cur.rest|, 1
  {
    var after := Machine(After(m.state), m.stack, c);
    ValueCases(m.cur, g, c);
    if m.cur.rest == [] {
      FailsAtEnd(m, after, g);
    } else if m.cur.rest[0].LeftBracket? {
      ArraySimulated(m, c, g);
    } else if m.cur.rest[0].LeftCurly? {
      ObjectSimulated(m, c, g);
    } else {
      ScalarStep(m, g);
      if c.error.Some? {
        FailsInStep(m, c, after, g);
      } else {
        Arrives(m, after, g);
      }
    }
  }

  lemma {:induction false} OpenStep(m: Machine, g: Rules)
    requires AtValue(m, g) && m.cur.rest != [] && (m.cur.rest[0].LeftBracket? || m.cur.rest[0].LeftCurly?)
    ensures var isArray := m.cur.rest[0].LeftBracket?;
            var s := Emit(Take(m.cur), if isArray then StartArray else StartObject, g);
            var n := Machine(if isArray then ArrayInitialState else ObjectInitialState,
                m.stack + [Frame(SavedState(m.state), 0)], s);
            if s.error.Some? then StepFails(m, s, g) else StepsTo(m, n, g) && WellFormed(n)
  {
    OpenShape(m);
  }

  lemma {:induction false} ArraySimulated(m: Machine, c: Cursor, g: Rules)
    requires AtValue(m, g) && Next(m.cur) == Some(LeftBracket) && ArrayIs(m.cur, g, c)
    ensures Simulates(m, c, Machine(After(m.state), m.stack, c), g)
    decreases |m.cur.rest|, 0
  {
    var s := Emit(Take(m.cur), StartArray, g);
    var after, n := Machine(After(m.state), m.stack, c), Machine(ArrayInitialState,
        m.stack + [Frame(SavedState(m.state), 0)], s);
    ArrayCases(m.cur, g, c);
    OpenStep(m, g);
    if s.error.Some? {
      FailsInStep(m, c, after, g);
    } else {
      assert Popped(n, c) == after;
      if Next(s) == Some(RightBracket) {
        CloseSimulated(n, EndArray(0), g);
      } else {
        ElementsSimulated(n, c, g);
      }
      StepsOn(m, n, c, after, g);
    }
  }

  /** A closing bracket. */
  lemma {:induction false} CloseSimulated(m: Machine, e: Event, g: Rules)
    requires WellFormed(m) && m.stack != [] && m.cur.rest != [] && Closes(m, e, g)
    ensures var c := Emit(Take(m.cur), e, g); Simulates(m, c, Popped(m, c), g)
    ensures var c := EndThenTake(m.cur, e, g); Simulates(m, c, Popped(m, c), g)
  {
    CloseStep(m, e, g);
    var c, d := Emit(Take(m.cur), e, g), EndThenTake(m.cur, e, g);
    if c.error.Some? {
      FailsInStep(m, c, Popped(m, c), g);
      FailsInStep(m, d, Popped(m, d), g);
    } else {
      Arrives(m, Popped(m, c), g);
    }
  }

  lemma {:induction false} ElementsSimulated(m: Machine, c: Cursor, g: Rules)
    requires AtValue(m, g) && m.stack != [] && (m.state == ArrayInitialState || m.state == ElementDelimiterState)
    requires ElementsIs(m.cur, m.stack[|m.stack| - 1].count, g, c)
    ensures Simulates(m, c, Popped(m, c), g)
    decreases |m.cur.rest|, 2
  {
    var v := ElementsCases(m.cur, m.stack[|m.stack| - 1].count, g, c);
    var n := Machine(ElementState, m.stack, v);
    ValueSimulated(m, v, g);
    if v.error.Some? {
      FailsBefore(m, v, n, Popped(m, c), g);
    } else {
      AfterWellFormed(m, v, g);
      ElementEndSimulated(n, c, g);
      GoesOn(m, n, c, Popped(n, c), g);
    }
  }

  /** Behind an element. */
  lemma {:induction false} ElementEndSimulated(m: Machine, c: Cursor, g: Rules)
    requires WellFormed(m) && m.stack != [] && m.state == ElementState
    requires ElementEndIs(m.cur, m.stack[|m.stack| - 1].count, g, c)
    ensures Simulates(m, c, Popped(m, c), g)
    decreases |m.cur.rest|, 3
  {
    var count := m.stack[|m.stack| - 1].count;
    ElementEndCases(m.cur, count, g, c);
    if m.cur.rest == [] {
      FailsAtEnd(m, Popped(m, c), g);
    } else if m.cur.rest[0].Comma? {
      CommaStep(m, c, g);
      var d := Delimit(m, ElementDelimiterState);
      if g.trailingCommas && Next(d.cur) == Some(RightBracket) {
        CloseSimulated(d, EndArray(Increment(count)), g);
      } else {
        ElementsSimulated(d, c, g);
      }
      StepsOn(m, d, c, Popped(m, c), g);
    } else if m.cur.rest[0].RightBracket? {
      CloseSimulated(m, EndArray(Increment(count)), g);
    } else {
      NoSeparator(m, g);
      FailsInStep(m, c, Popped(m, c), g);
    }
  }

  /** Behind an element or member anything but a comma or the closing bracket is an error. */
  lemma {:induction false} NoSeparator(m: Machine, g: Rules)
    requires WellFormed(m) && m.cur.rest != [] && !m.cur.rest[0].Comma?
    requires (m.state == ElementState && !m.cur.rest[0].RightBracket?)
          || (m.state == MemberValueState && !m.cur.rest[0].RightCurly?)
    ensures StepFails(m, Fail(m.cur, ErrorOf(m.state)), g)
  {
    OpenShape(m);
  }

  lemma {:induction false} ObjectSimulated(m: Machine, c: Cursor, g: Rules)
    requires AtValue(m, g) && Next(m.cur) == Some(LeftCurly) && ObjectIs(m.cur, g, c)
    ensures Simulates(m, c, Machine(After(m.state), m.stack, c), g)
    decreases |m.cur.rest|, 0
  {
    var s := Emit(Take(m.cur), StartObject, g);
    var after, n := Machine(After(m.state), m.stack, c), Machine(ObjectInitialState,
        m.stack + [Frame(SavedState(m.state), 0)], s);
    ObjectCases(m.cur, g, c);
    OpenStep(m, g);
    if s.error.Some? {
      FailsInStep(m, c, after, g);
    } else {
      assert Popped(n, c) == after;
      if Next(s) == Some(RightCurly) {
        CloseSimulated(n, EndObject(0), g);
      } else {
        MembersSimulated(n, c, g);
      }
      StepsOn(m, n, c, after, g);
    }
  }

  /** A machine in which the descent parser would look for a member name. */
  ghost predicate AtName(m: Machine, g: Rules) {
    && WellFormed(m) && m.stack != [] && (m.state == ObjectInitialState || m.state == MemberDelimiterState)
    && (m.state == ObjectInitialState || g.trailingCommas ==> Next(m.cur) != Some(RightCurly))
  }

  lemma {:induction false} NoNameStep(m: Machine, g: Rules)
    requires AtName(m, g) && m.cur.rest != [] && !m.cur.rest[0].Quoted?
    ensures StepFails(m, Fail(m.cur, ObjectMissName), g)
  {
    OpenShape(m);
  }

  lemma {:induction false} NameStep(m: Machine, g: Rules)
    requires AtName(m, g) && m.cur.rest != [] && m.cur.rest[0].Quoted?
    ensures var k := Name(m.cur, g);
            var n := Machine(MemberKeyState, m.stack, k);
            if k.error.Some? then StepFails(m, k, g) else StepsTo(m, n, g) && WellFormed(n)
  {
    OpenShape(m);
  }

  lemma {:induction false} ColonStep(m: Machine, g: Rules)
    requires WellFormed(m) && m.state == MemberKeyState && m.cur.rest != []
    ensures var n := Machine(KeyValueDelimiterState, m.stack, Take(m.cur));
            if m.cur.rest[0].Colon? then StepsTo(m, n, g) && WellFormed(n)
            else StepFails(m, Fail(m.cur, ObjectMissColon), g)
  {
    OpenShape(m);
  }

  lemma {:induction false} MembersSimulated(m: Machine, c: Cursor, g: Rules)
    requires AtName(m, g) && MembersIs(m.cur, m.stack[|m.stack| - 1].count, g, c)
    ensures Simulates(m, c, Popped(m, c), g)
    decreases |m.cur.rest|, 2
  {
    MembersCases(m.cur, m.stack[|m.stack| - 1].count, g, c);
    if m.cur.rest == [] {
      FailsAtEnd(m, Popped(m, c), g);
    } else if !m.cur.rest[0].Quoted? {
      NoNameStep(m, g);
      FailsInStep(m, c, Popped(m, c), g);
    } else {
      NameStep(m, g);
      var k := Name(m.cur, g);
      if k.error.Some? {
        FailsInStep(m, c, Popped(m, c), g);
      } else {
        var n := Machine(MemberKeyState, m.stack, k);
        ColonSimulated(n, c, g);
        StepsOn(m, n, c, Popped(m, c), g);
      }
    }
  }

  /** Behind a member name. */
  lemma {:induction false} ColonSimulated(m: Machine, c: Cursor, g: Rules)
    requires WellFormed(m) && m.stack != [] && m.state == MemberKeyState
    requires NamedValueIs(m.cur, m.stack[|m.stack| - 1].count, g, c)
    ensures Simulates(m, c, Popped(m, c), g)
    decreases |m.cur.rest|, 2
  {
    NamedValueCases(m.cur, m.stack[|m.stack| - 1].count, g, c);
    if m.cur.rest == [] {
      FailsAtEnd(m, Popped(m, c), g);
    } else {
      ColonStep(m, g);
      if m.cur.rest[0].Colon? {
        var n := Machine(KeyValueDelimiterState, m.stack, Take(m.cur));
        MemberValueSimulated(n, c, g);
        StepsOn(m, n, c, Popped(m, c), g);
      } else {
        FailsInStep(m, c, Popped(m, c), g);
      }
    }
  }

  /** The value behind a colon leads to the state behind a member. */
  lemma {:induction false} ValueOfMember(m: Machine, v: Cursor, g: Rules)
    requires WellFormed(m) && m.stack != [] && m.state == KeyValueDelimiterState
    ensures AtValue(m, g) && After(m.state) == MemberValueState
    ensures v.error.None? ==> WellFormed(Machine(MemberValueState, m.stack, v))
  {
    if v.error.None? {
      AfterWellFormed(m, v, g);
    }
  }

  /** Behind a colon. */
  lemma {:induction false} MemberValueSimulated(m: Machine, c: Cursor, g: Rules)
    requires WellFormed(m) && m.stack != [] && m.state == KeyValueDelimiterState
    requires MemberValueIs(m.cur, m.stack[|m.stack| - 1].count, g, c)
    ensures Simulates(m, c, Popped(m, c), g)
    decreases |m.cur.rest|, 2
  {
    var v := MemberValueCases(m.cur, m.stack[|m.stack| - 1].count, g, c);
    var n := Machine(MemberValueState, m.stack, v);
    ValueOfMember(m, v, g);
    ValueSimulated(m, v, g);
    if v.error.Some? {
      FailsBefore(m, v, n, Popped(m, c), g);
    } else {
      BehindMemberSimulated(m, n, c, g);
    }
  }

  /** Behind the value of a member, which has been simulated. */
  lemma {:induction false} BehindMemberSimulated(m: Machine, n: Machine, c: Cursor, g: Rules)
    requires WellFormed(m) && m.stack != [] && Simulates(m, n.cur, n, g)
    requires WellFormed(n) && n.state == MemberValueState && n.stack == m.stack && |n.cur.rest| < |m.cur.rest|
    requires MemberEndIs(n.cur, n.stack[|n.stack| - 1].count, g, c)
    ensures Simulates(m, c, Popped(m, c), g)
    decreases |m.cur.rest|, 1
  {
    MemberEndSimulated(n, c, g);
    GoesOn(m, n, c, Popped(n, c), g);
  }

  /** Behind a member. */
  lemma {:induction false} MemberEndSimulated(m: Machine, c: Cursor, g: Rules)
    requires WellFormed(m) && m.stack != [] && m.state == MemberValueState
    requires MemberEndIs(m.cur, m.stack[|m.stack| - 1].count, g, c)
    ensures Simulates(m, c, Popped(m, c), g)
    decreases |m.cur.rest|, 3
  {
    var count := m.stack[|m.stack| - 1].count;
    MemberEndCases(m.cur, count, g, c);
    if m.cur.rest == [] {
      FailsAtEnd(m, Popped(m, c), g);
    } else if m.cur.rest[0].Comma? {
      CommaStep(m, c, g);
      var d := Delimit(m, MemberDelimiterState);
      if g.trailingCommas && Next(d.cur) == Some(RightCurly) {
        CloseSimulated(d, EndObject(Increment(count)), g);
      } else {
        MembersSimulated(d, c, g);
      }
      StepsOn(m, d, c, Popped(m, c), g);
    } else if m.cur.rest[0].RightCurly? {
      CloseSimulated(m, EndObject(Increment(count)), g);
    } else {
      NoSeparator(m, g);
      FailsInStep(m, c, Popped(m, c), g);
    }
  }

  // ---- Whole documents ----

  /** A document that starts with a closing bracket, a comma or a colon. */
  predicate Misplaced(rest: seq<Lexeme>) {
    rest != [] && OpensNoValue(Some(rest[0]))
  }

  lemma {:induction false} MisplacedStart(c: Cursor, g: Rules)
    requires c.error.None? && Misplaced(c.rest)
    ensures DescentDocument(c, g) == Fail(c, ValueInvalid) && TableDocument(c, g) == Fail(c, DocumentEmpty)
  {
    RunStep(Machine(StartState, [], c), g);
  }

  lemma {:induction false} RootEnd(c: Cursor, g: Rules)
    requires c.error.None?
    ensures Continue(Machine(FinishState, [], c), g)
         == if !g.stopWhenDone && c.rest != [] then Fail(c, DocumentRootNotSingular) else c
  {
    if !g.stopWhenDone && c.rest != [] {
      RunStep(Machine(FinishState, [], c), g);
    }
  }

  /**
    On every input, under every handler and either flag, the two parsers send the same events and accept
    alike, leaving the same rest of the stream; they even set the same error code, except exactly on
    documents that start with a closing bracket, a comma or a colon.
   */
  lemma {:induction false} ParsersAgree(c: Cursor, g: Rules)
    requires c.error.None?
    ensures var a, b := DescentDocument(c, g), TableDocument(c, g);
            && a.events == b.events
            && (a.error.None? <==> b.error.None?)
            && (a.error.None? ==> a.rest == b.rest)
            && (a.error == b.error <==> !Misplaced(c.rest))
  {
    var m := Machine(StartState, [], c);
    if Misplaced(c.rest) {
      MisplacedStart(c, g);
    } else if c.rest != [] {
      var v := Value(c, g);
      ValueSimulated(m, v, g);
      assert Folding.OpenAside(0);
      if v.error.None? {
        RootEnd(v, g);
      }
    }
  }
}
