/** The reader object: both parsers, working on the stream, the parse result and the stack in place. */
module JsonReaders {
  import opened Options
  import opened JsonEvents
  import opened JsonDescent
  import opened JsonTable
  import opened JsonAgreement

  class Reader {
    const rules: Rules
    /** What is left of the stream. */
    var rest: seq<Lexeme>
    /** What the handler has been sent so far. */
    var events: seq<Event>
    var parseResult: Option<ErrorCode>
    var stack: seq<Frame>

    ghost function Cur(): Cursor
      reads this
    {
      Cursor(rest, events, parseResult)
    }

    constructor (rules: Rules, input: seq<Lexeme>)
      ensures this.rules == rules && Cur() == Cursor(input, [], None) && stack == []
    {
      this.rules, rest, events, parseResult, stack := rules, input, [], None, [];
    }

    predicate Sees(l: Lexeme)
      reads this
    {
      rest != [] && rest[0] == l
    }

    method Skip()
      requires rest != []
      modifies `rest
      ensures rest == old(rest)[1..]
    {
      rest := rest[1..];
    }

    /** Calls the handler; an answer of false sets the error. */
    method Send(e: Event)
      requires parseResult.None?
      modifies `events, `parseResult
      ensures Cur() == Emit(old(Cur()), e, rules)
    {
      events := events + [e];
      if !rules.handler(events) {
        parseResult := Some(Termination);
      }
    }

    // ---- Recursive descent ----

    method ParseString(isKey: bool)
      requires parseResult.None? && rest != [] && rest[0].Quoted?
      modifies `rest, `events, `parseResult
      ensures Cur() == if isKey then Name(old(Cur()), rules) else Scalar(old(Cur()), rules)
    {
      match rest[0].text {
        case Good(text) =>
          Skip();
          Send(if isKey then KeyEvent(text) else StringEvent(text));
        case Bad(code) =>
          parseResult := Some(code);
      }
    }

    method ParseLiteral()
      requires parseResult.None? && rest != [] && rest[0].Word?
      modifies `rest, `events, `parseResult
      ensures Cur() == Scalar(old(Cur()), rules)
    {
      var word := rest[0];
      if word.spelled {
        Skip();
        Send(LiteralEvent(word.literal));
      } else {
        parseResult := Some(ValueInvalid);
      }
    }

    /** Also reached by any lexeme that starts no value. */
    method ParseNumber()
      requires parseResult.None?
      requires rest != [] ==> !rest[0].Word? && !rest[0].Quoted? && !rest[0].LeftCurly? && !rest[0].LeftBracket?
      modifies `rest, `events, `parseResult
      ensures Cur() == Scalar(old(Cur()), rules)
    {
      if rest == [] || !rest[0].Numeral? {
        parseResult := Some(ValueInvalid);
        return;
      }
      match rest[0].number {
        case Good(n) =>
          Skip();
          Send(NumberEvent(n));
        case Bad(code) =>
          parseResult := Some(code);
      }
    }

    method ParseValue()
      requires parseResult.None?
      modifies `rest, `events, `parseResult
      ensures Cur() == Value(old(Cur()), rules)
      decreases |rest|, 1
    {
      if rest == [] {
        ParseNumber();
      } else {
        match rest[0] {
          case Word(_, _) => ParseLiteral();
          case Quoted(_) => ParseString(false);
          case LeftCurly => ParseObject();
          case LeftBracket => ParseArray();
          case _ => ParseNumber();
        }
      }
    }

    method ParseObject()
      requires parseResult.None? && Sees(LeftCurly)
      modifies `rest, `events, `parseResult
      ensures Cur() == Object(old(Cur()), rules)
      decreases |rest|, 0
    {
      Skip();
      Send(StartObject);
      if parseResult.Some? {
        return;
      }
      if Sees(RightCurly) {
        Skip();
        Send(EndObject(0));
        return;
      }
      var memberCount := 0;
      while true
        invariant parseResult.None? && |rest| < |old(rest)|
        invariant Members(Cur(), memberCount, rules) == Object(old(Cur()), rules)
        decreases |rest|
      {
        if rest == [] || !rest[0].Quoted? {
          parseResult := Some(ObjectMissName);
          return;
        }
        ParseString(true);
        if parseResult.Some? {
          return;
        }
        ghost var k := Cur();
        assert NamedValue(k, memberCount, rules) == Object(old(Cur()), rules);
        assert Next(k) == Some(Colon) <==> Sees(Colon);
        assert NamedValue(k, memberCount, rules) == if Sees(Colon) then MemberValue(Take(k), memberCount,
            rules) else Fail(k, ObjectMissColon);
        if !Sees(Colon) {
          parseResult := Some(ObjectMissColon);
          return;
        }
        Skip();
        ParseValue();
        if parseResult.Some? {
          return;
        }
        assert MemberEnd(Cur(), memberCount, rules) == Object(old(Cur()), rules);
        memberCount := Increment(memberCount);
        if Sees(Comma) {
          Skip();
        } else if Sees(RightCurly) {
          Skip();
          Send(EndObject(memberCount));
          return;
        } else {
          parseResult := Some(ObjectMissCommaOrCurlyBracket);
          return;
        }
        if rules.trailingCommas && Sees(RightCurly) {
          Send(EndObject(memberCount));
          if parseResult.None? {
            Skip();
          }
          return;
        }
      }
    }

    method ParseArray()
      requires parseResult.None? && Sees(LeftBracket)
      modifies `rest, `events, `parseResult
      ensures Cur() == Array(old(Cur()), rules)
      decreases |rest|, 0
    {
      Skip();
      Send(StartArray);
      if parseResult.Some? {
        return;
      }
      if Sees(RightBracket) {
        Skip();
        Send(EndArray(0));
        return;
      }
      var elementCount := 0;
      while true
        invariant parseResult.None? && |rest| < |old(rest)|
        invariant Elements(Cur(), elementCount, rules) == Array(old(Cur()), rules)
        decreases |rest|
      {
        ParseValue();
        if parseResult.Some? {
          return;
        }
        assert ElementEnd(Cur(), elementCount, rules) == Array(old(Cur()), rules);
        elementCount := Increment(elementCount);
        if Sees(Comma) {
          Skip();
        } else if Sees(RightBracket) {
          Skip();
          Send(EndArray(elementCount));
          return;
        } else {
          parseResult := Some(ArrayMissCommaOrSquareBracket);
          return;
        }
        if rules.trailingCommas && Sees(RightBracket) {
          Send(EndArray(elementCount));
          if parseResult.None? {
            Skip();
          }
          return;
        }
      }
    }

    /** The recursive-descent parse of a document. */
    method Parse()
      modifies `rest, `events, `parseResult
      ensures Cur() == DescentDocument(old(Cur()).(error := None), rules)
    {
      parseResult := None;
      if rest == [] {
        parseResult := Some(DocumentEmpty);
        return;
      }
      ParseValue();
      if parseResult.Some? {
        return;
      }
      if !rules.stopWhenDone {
        if rest != [] {
          parseResult := Some(DocumentRootNotSingular);
        }
      }
    }

    // ---- The table-driven parser ----

    ghost function MachineAt(state: ParsingState): Machine
      reads this
    {
      Machine(state, stack, Cur())
    }

    /** Pushes the state to return to and a zero count, and opens an array or object. */
    method TransitOpen(src: ParsingState, dst: ParsingState) returns (d: ParsingState)
      requires parseResult.None? && rest != [] && (dst == ObjectInitialState || dst == ArrayInitialState)
      modifies this
      ensures MachineAt(d) == Open(old(MachineAt(src)), dst, rules)
    {
      var n := src;
      if src == ArrayInitialState || src == ElementDelimiterState {
        n := ElementState;
      } else if src == KeyValueDelimiterState {
        n := MemberValueState;
      }
      stack := stack + [Frame(n, 0)];
      Send(if dst == ObjectInitialState then StartObject else StartArray);
      if parseResult.Some? {
        return ErrorState;
      }
      Skip();
      d := dst;
    }

    /** Pops the count and the state to return to, and closes an array or object. */
    method TransitClose(src: ParsingState, isObject: bool) returns (d: ParsingState)
      requires parseResult.None? && rest != [] && stack != []
      modifies this
      ensures MachineAt(d) == if isObject
                then Close(old(MachineAt(src)), MemberDelimiterState, MemberValueState, ObjectMissName, true, rules)
                else Close(old(MachineAt(src)), ElementDelimiterState, ElementState, ValueInvalid, false, rules)
    {
      if !rules.trailingCommas && src == (if isObject then MemberDelimiterState else ElementDelimiterState) {
        parseResult := Some(if isObject then ObjectMissName else ValueInvalid);
        return ErrorState;
      }
      var c := stack[|stack| - 1].count;
      if src == (if isObject then MemberValueState else ElementState) {
        c := Increment(c);
      }
      var n := stack[|stack| - 1].saved;
      stack := stack[..|stack| - 1];
      if n == StartState {
        n := FinishState;
      }
      Send(if isObject then EndObject(c) else EndArray(c));
      if parseResult.Some? {
        return ErrorState;
      }
      Skip();
      d := n;
    }

    method Transit(src: ParsingState, dst: ParsingState) returns (d: ParsingState)
      requires parseResult.None? && rest != [] && dst == Predict(src, Tokenize(rest[0]))
      requires NeedsFrame(dst) ==> stack != []
      modifies this
      ensures MachineAt(d) == JsonTable.Transit(old(MachineAt(src)), dst, rules)
    {
      match dst {
        case ErrorState =>
          d := dst;
        case ObjectInitialState =>
          d := TransitOpen(src, dst);
        case ArrayInitialState =>
          d := TransitOpen(src, dst);
        case MemberKeyState =>
          ParseString(true);
          d := if parseResult.Some? then ErrorState else dst;
        case KeyValueDelimiterState =>
          Skip();
          d := dst;
        case MemberDelimiterState =>
          var last := |stack| - 1;
          Skip();
          stack := stack[last := stack[last].(count := Increment(stack[last].count))];
          d := dst;
        case ElementDelimiterState =>
          var last := |stack| - 1;
          Skip();
          stack := stack[last := stack[last].(count := Increment(stack[last].count))];
          d := dst;
        case ObjectFinishState =>
          d := TransitClose(src, true);
        case ArrayFinishState =>
          d := TransitClose(src, false);
        case MemberValueState =>
          ParseValue();
          d := if parseResult.Some? then ErrorState else dst;
        case ElementState =>
          ParseValue();
          d := if parseResult.Some? then ErrorState else dst;
        case ValueState =>
          ParseValue();
          d := if parseResult.Some? then ErrorState else FinishState;
        case _ =>
          // The table never predicts the start, nor a finish that Transit itself derives.
          assert false;
      }
    }

    method HandleError(src: ParsingState)
      requires Resting(src)
      modifies `parseResult
      ensures Cur() == JsonTable.HandleError(old(Cur()), src)
    {
      if parseResult.None? {
        parseResult := Some(ErrorOf(src));
      }
    }

    /** One turn of the loop. */
    method Turn(state: ParsingState) returns (d: ParsingState)
      requires WellFormed(MachineAt(state)) && rest != []
      modifies this
      ensures MachineAt(d) == Step(old(MachineAt(state)), rules)
      ensures d == ErrorState <==> parseResult.Some?
    {
      OpenShape(MachineAt(state));
      TopOk(stack);
      var n := Predict(state, Tokenize(rest[0]));
      d := Transit(state, n);
      if d == ErrorState {
        HandleError(state);
      }
    }

    /** The table-driven parse of a document. */
    method IterativeParse()
      modifies this
      ensures Cur() == TableDocument(old(Cur()).(error := None), rules)
    {
      parseResult := None;
      stack := [];
      var state := StartState;
      while rest != []
        invariant WellFormed(MachineAt(state))
        invariant Run(MachineAt(state), rules) == TableDocument(old(Cur()).(error := None), rules)
        decreases |rest|
      {
        ghost var m := MachineAt(state);
        RunStep(m, rules);
        var d := Turn(state);
        if d == ErrorState {
          stack := [];
          return;
        }
        state := d;
        if rules.stopWhenDone && state == FinishState {
          return;
        }
      }
      OpenShape(MachineAt(state));
      if state != FinishState {
        HandleError(state);
      }
      stack := [];
    }
  }
}
