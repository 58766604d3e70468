/** The table-driven pushdown parser as functions: the table, one transition, and the whole loop. */
module JsonTable {
  import opened JsonEvents
  import opened JsonDescent
  import Folding

  datatype Token =
    | LeftBracketToken
    | RightBracketToken
    | LeftCurlyBracketToken
    | RightCurlyBracketToken
    | CommaToken
    | ColonToken
    | StringToken
    | FalseToken
    | TrueToken
    | NullToken
    | NumberToken

  datatype ParsingState =
    | FinishState
    | ErrorState
    | StartState
    | ObjectInitialState
    | MemberKeyState
    | MemberValueState
    | ObjectFinishState
    | ArrayInitialState
    | ElementState
    | ArrayFinishState
    | ValueState
    | ElementDelimiterState
    | MemberDelimiterState
    | KeyValueDelimiterState

  function Tokenize(l: Lexeme): Token {
    match l
    case LeftBracket => LeftBracketToken
    case RightBracket => RightBracketToken
    case LeftCurly => LeftCurlyBracketToken
    case RightCurly => RightCurlyBracketToken
    case Comma => CommaToken
    case Colon => ColonToken
    case Quoted(_) => StringToken
    case Word(FalseLiteral, _) => FalseToken
    case Word(TrueLiteral, _) => TrueToken
    case Word(NullLiteral, _) => NullToken
    case Numeral(_) => NumberToken
  }

  /** A table row for states in which a value may follow: `scalar` for one that is no array or object. */
  function ValueRow(token: Token, scalar: ParsingState, rightBracket: ParsingState): ParsingState {
    match token
    case LeftBracketToken => ArrayInitialState
    case LeftCurlyBracketToken => ObjectInitialState
    case RightBracketToken => rightBracket
    case RightCurlyBracketToken => ErrorState
    case CommaToken => ErrorState
    case ColonToken => ErrorState
    case _ => scalar
  }

  /** The table: current state and one token of lookahead to the state to go to. */
  function Predict(state: ParsingState, token: Token): ParsingState {
    match state
    case FinishState => ErrorState
    case ErrorState => ErrorState
    case StartState => ValueRow(token, ValueState, ErrorState)
    case ObjectInitialState =>
      (match token
       case RightCurlyBracketToken => ObjectFinishState
       case StringToken => MemberKeyState
       case _ => ErrorState)
    case MemberKeyState => if token == ColonToken then KeyValueDelimiterState else ErrorState
    case MemberValueState =>
      (match token
       case RightCurlyBracketToken => ObjectFinishState
       case CommaToken => MemberDelimiterState
       case _ => ErrorState)
    case ObjectFinishState => ErrorState
    case ArrayInitialState => ValueRow(token, ElementState, ArrayFinishState)
    case ElementState =>
      (match token
       case RightBracketToken => ArrayFinishState
       case CommaToken => ElementDelimiterState
       case _ => ErrorState)
    case ArrayFinishState => ErrorState
    case ValueState => ErrorState
    case ElementDelimiterState => ValueRow(token, ElementState, ArrayFinishState)
    case MemberDelimiterState =>
      (match token
       case RightCurlyBracketToken => ObjectFinishState
       case StringToken => MemberKeyState
       case _ => ErrorState)
    case KeyValueDelimiterState => ValueRow(token, MemberValueState, ErrorState)
  }

  /** What the stack keeps of an enclosing array or object: the state to return to, and the count so far. */
  datatype Frame = Frame(saved: ParsingState, count: nat)

  datatype Machine = Machine(state: ParsingState, stack: seq<Frame>, cur: Cursor)

  /** The states in which the loop can be. */
  predicate Resting(s: ParsingState) {
    !s.ErrorState? && !s.ObjectFinishState? && !s.ArrayFinishState? && !s.ValueState?
  }

  /**
    Outside any array or object the stack is empty; the outermost frame returns to the start, all others into a
    container.
   */
  ghost predicate WellFormed(m: Machine) {
    m.cur.error.None? && forall k :: Folding.Open(k) ==>
      && Resting(m.state) && (m.stack == [] <==> m.state == StartState || m.state == FinishState)
      && StackOk(m.stack)
  }

  lemma {:induction false} OpenShape(m: Machine)
    requires WellFormed(m)
    ensures Resting(m.state) && (m.stack == [] <==> m.state == StartState || m.state == FinishState)
    ensures StackOk(m.stack)
  {
    assert Folding.Open(0);
  }

  ghost predicate StackOk(stack: seq<Frame>) {
    forall k :: Folding.Open(k) ==> forall i :: 0 <= i < |stack| ==> FrameOk(stack[i], i)
  }

  predicate FrameOk(f: Frame, i: int) {
    if i == 0 then f.saved == StartState else f.saved == ElementState || f.saved == MemberValueState
  }

  /** The state saved when an array or object opens in state `src`. */
  function SavedState(src: ParsingState): ParsingState {
    match src
    case ArrayInitialState => ElementState
    case ElementDelimiterState => ElementState
    case KeyValueDelimiterState => MemberValueState
    case _ => src
  }

  function Restored(saved: ParsingState): ParsingState {
    if saved == StartState then FinishState else saved
  }

  function Halt(m: Machine, c: Cursor): Machine {
    m.(state := ErrorState, cur := c)
  }

  function ErrorOr(m: Machine, dst: ParsingState): Machine {
    if m.cur.error.Some? then m.(state := ErrorState) else m.(state := dst)
  }

  function Open(m: Machine, dst: ParsingState, g: Rules): Machine
    requires m.cur.rest != []
  {
    var pushed := m.(stack := m.stack + [Frame(SavedState(m.state), 0)],
                     cur := Emit(m.cur, if dst == ObjectInitialState then StartObject else StartArray, g));
    if pushed.cur.error.Some? then Halt(pushed, pushed.cur) else pushed.(state := dst, cur := Take(pushed.cur))
  }

  /** Closing an object or array: a transition from a delimiter needs the trailing-comma flag. */
  function Close(m: Machine, delimiter: ParsingState, last: ParsingState, missing: ErrorCode, isObject: bool,
                 g: Rules): Machine
    requires m.cur.rest != [] && m.stack != []
  {
    if !g.trailingCommas && m.state == delimiter then Halt(m, Fail(m.cur, missing))
    else
      var top := m.stack[|m.stack| - 1];
      var count := if m.state == last then Increment(top.count) else top.count;
      var popped := m.(stack := m.stack[..|m.stack| - 1],
                       cur := Emit(m.cur, if isObject then EndObject(count) else EndArray(count), g));
      if popped.cur.error.Some? then Halt(popped, popped.cur)
      else popped.(state := Restored(top.saved), cur := Take(popped.cur))
  }

  /** Whether a transition to `dst` works on the innermost frame. */
  predicate NeedsFrame(dst: ParsingState) {
    dst == ObjectFinishState || dst == ArrayFinishState || dst == MemberDelimiterState || dst == ElementDelimiterState
  }

  function Transit(m: Machine, dst: ParsingState, g: Rules): Machine
    requires m.cur.error.None? && m.cur.rest != [] && (NeedsFrame(dst) ==> m.stack != [])
    requires dst == MemberKeyState ==> m.cur.rest[0].Quoted?
  {
    match dst
    case ErrorState => m.(state := ErrorState)
    case ObjectInitialState => Open(m, dst, g)
    case ArrayInitialState => Open(m, dst, g)
    case MemberKeyState => ErrorOr(m.(cur := Name(m.cur, g)), dst)
    case KeyValueDelimiterState => m.(state := dst, cur := Take(m.cur))
    case MemberValueState => ErrorOr(m.(cur := Scalar(m.cur, g)), dst)
    case ElementState => ErrorOr(m.(cur := Scalar(m.cur, g)), dst)
    case MemberDelimiterState => Delimit(m, dst)
    case ElementDelimiterState => Delimit(m, dst)
    case ObjectFinishState => Close(m, MemberDelimiterState, MemberValueState, ObjectMissName, true, g)
    case ArrayFinishState => Close(m, ElementDelimiterState, ElementState, ValueInvalid, false, g)
    case _ => ErrorOr(m.(cur := Scalar(m.cur, g)), FinishState)
  }

  function Delimit(m: Machine, dst: ParsingState): Machine
    requires m.cur.rest != [] && m.stack != []
  {
    var last := |m.stack| - 1;
    m.(state := dst, cur := Take(m.cur),
        stack := m.stack[last := m.stack[last].(count := Increment(m.stack[last].count))])
  }

  /** The error HandleError sets for a state in which no transition was possible. */
  function ErrorOf(src: ParsingState): ErrorCode {
    match src
    case StartState => DocumentEmpty
    case FinishState => DocumentRootNotSingular
    case ObjectInitialState => ObjectMissName
    case MemberDelimiterState => ObjectMissName
    case MemberKeyState => ObjectMissColon
    case MemberValueState => ObjectMissCommaOrCurlyBracket
    case KeyValueDelimiterState => ValueInvalid
    case ArrayInitialState => ValueInvalid
    case ElementDelimiterState => ValueInvalid
    case _ => ArrayMissCommaOrSquareBracket
  }

  function HandleError(c: Cursor, src: ParsingState): Cursor {
    if c.error.Some? then c else Fail(c, ErrorOf(src))
  }

  /** One turn of the loop. */
  function Step(m: Machine, g: Rules): Machine
    requires WellFormed(m) && m.cur.rest != []
  {
    OpenShape(m);
    TopOk(m.stack);
    var d := Transit(m, Predict(m.state, Tokenize(m.cur.rest[0])), g);
    if d.state == ErrorState then d.(cur := HandleError(d.cur, m.state)) else d
  }

  lemma {:induction false} TopOk(stack: seq<Frame>)
    requires StackOk(stack)
    ensures stack != [] ==> FrameOk(stack[|stack| - 1], |stack| - 1) && StackOk(stack[..|stack| - 1])
  {
    assert Folding.Open(0);
  }

  lemma {:induction false} PushOk(stack: seq<Frame>, f: Frame)
    requires StackOk(stack) && FrameOk(f, |stack|)
    ensures StackOk(stack + [f])
  {
    assert Folding.Open(0);
  }

  lemma {:induction false} CountOk(stack: seq<Frame>, count: nat)
    requires StackOk(stack) && stack != []
    ensures StackOk(stack[|stack| - 1 := stack[|stack| - 1].(count := count)])
  {
    assert Folding.Open(0);
  }

  lemma {:induction false} CloseShape(m: Machine, dst: ParsingState, g: Rules)
    requires WellFormed(m) && m.cur.rest != [] && m.stack != [] && (dst == ObjectFinishState || dst == ArrayFinishState)
    ensures var n := Transit(m, dst, g); n.cur.error.None? ==> WellFormed(n)
  {
    OpenShape(m);
    TopOk(m.stack);
  }

  /** A turn of the loop without error keeps the machine well-formed and takes at least one lexeme. */
  lemma {:induction false} StepWellFormed(m: Machine, g: Rules)
    requires WellFormed(m) && m.cur.rest != [] && Step(m, g).cur.error.None?
    ensures WellFormed(Step(m, g)) && |Step(m, g).cur.rest| < |m.cur.rest|
  {
    OpenShape(m);
    TopOk(m.stack);
    var dst := Predict(m.state, Tokenize(m.cur.rest[0]));
    if dst == ObjectInitialState || dst == ArrayInitialState {
      PushOk(m.stack, Frame(SavedState(m.state), 0));
    } else if dst == MemberDelimiterState || dst == ElementDelimiterState {
      CountOk(m.stack, Increment(m.stack[|m.stack| - 1].count));
    } else if dst == ObjectFinishState || dst == ArrayFinishState {
      CloseShape(m, dst, g);
    }
  }

  /** The loop from a given machine on, up to the result of the parse. */
  function Run(m: Machine, g: Rules): Cursor
    requires WellFormed(m)
    decreases |m.cur.rest|
  {
    if m.cur.rest == [] then (if m.state == FinishState then m.cur else HandleError(m.cur, m.state))
    else
      var n := Step(m, g);
      if Done(n, g) then n.cur
      else
        StepWellFormed(m, g);
        Run(n, g)
  }

  /** The loop ends at an error, and at a complete document if that is asked for. */
  predicate Done(m: Machine, g: Rules) {
    m.cur.error.Some? || (g.stopWhenDone && m.state == FinishState)
  }

  /** What becomes of the parse after a turn of the loop. */
  function Continue(m: Machine, g: Rules): Cursor
    requires m.cur.error.None? ==> WellFormed(m)
  {
    if Done(m, g) then m.cur else Run(m, g)
  }

  function TableDocument(c: Cursor, g: Rules): Cursor
    requires c.error.None?
  {
    Run(Machine(StartState, [], c), g)
  }
}
