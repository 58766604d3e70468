/** Lexemes, handler events and error codes shared by the two parsers and the document. */
module JsonEvents {
  import opened Options

  /** The parse error codes that these parsers can set. */
  datatype ErrorCode =
    | DocumentEmpty
    | DocumentRootNotSingular
    | ValueInvalid
    | ObjectMissName
    | ObjectMissColon
    | ObjectMissCommaOrCurlyBracket
    | ArrayMissCommaOrSquareBracket
    | Termination
    /** Any error inside a string or a number. */
    | Lexical(code: int)

  type int32 = i: int | -0x8000_0000 <= i < 0x8000_0000
  type uint32 = i: int | 0 <= i < 0x1_0000_0000
  type int64 = i: int | -0x8000_0000_0000_0000 <= i < 0x8000_0000_0000_0000
  type uint64 = i: int | 0 <= i < 0x1_0000_0000_0000_0000

  /** A number as the reader hands it over: the handler method chosen, and its argument. */
  datatype Number =
    | Int(i: int32)
    | Uint(u: uint32)
    | Int64(i64: int64)
    | Uint64(u64: uint64)
    | Double(d: real)

  datatype Event =
    | NullEvent
    | BoolEvent(b: bool)
    | NumberEvent(n: Number)
    | StringEvent(text: string)
    | KeyEvent(text: string)
    | StartObject
    | EndObject(memberCount: nat)
    | StartArray
    | EndArray(elementCount: nat)

  datatype Literal = NullLiteral | TrueLiteral | FalseLiteral

  datatype Outcome<+T> = Good(value: T) | Bad(code: ErrorCode)

  /** One token of the input, scalars with what scanning them yields. White space and comments lie between lexemes. */
  datatype Lexeme =
    | LeftBracket
    | RightBracket
    | LeftCurly
    | RightCurly
    | Comma
    | Colon
    | Quoted(text: Outcome<string>)
    | Word(literal: Literal, spelled: bool)
    | Numeral(number: Outcome<Number>)

  /** A handler sees every event after the ones before it, and may end the parse by answering false. */
  datatype Rules = Rules(handler: seq<Event> -> bool, trailingCommas: bool, stopWhenDone: bool)

  /** The stream, the events sent so far and the parse result. */
  datatype Cursor = Cursor(rest: seq<Lexeme>, events: seq<Event>, error: Option<ErrorCode>)

  function Next(c: Cursor): Option<Lexeme> {
    if c.rest == [] then None else Some(c.rest[0])
  }

  function Take(c: Cursor): Cursor
    requires c.rest != []
  {
    c.(rest := c.rest[1..])
  }

  function Fail(c: Cursor, code: ErrorCode): Cursor {
    c.(error := Some(code))
  }

  function Emit(c: Cursor, e: Event, g: Rules): Cursor {
    var events := c.events + [e];
    c.(events := events, error := if g.handler(events) then c.error else Some(Termination))
  }

  /** Member and element counts are 32-bit and wrap around. */
  const COUNT_MODULUS: nat := 0x1_0000_0000

  function Increment(count: nat): nat {
    (count + 1) % COUNT_MODULUS
  }

  /** Counting is exact up to 2^32 - 1; the next one is zero again. */
  lemma {:induction false} IncrementWraps(count: nat)
    requires count <= 0xFFFF_FFFF
    ensures Increment(count) == if count == 0xFFFF_FFFF then 0 else count + 1
  {
  }

  function LiteralEvent(l: Literal): Event {
    match l
    case NullLiteral => NullEvent
    case TrueLiteral => BoolEvent(true)
    case FalseLiteral => BoolEvent(false)
  }
}
