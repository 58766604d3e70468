/** The recursive-descent parser as functions on the stream and the event history. */
module JsonDescent {
  import opened Options
  import opened JsonEvents

  /** ParseValue on anything that does not open an array or an object. */
  function Scalar(c: Cursor, g: Rules): (r: Cursor)
    requires c.error.None?
    ensures |r.rest| <= |c.rest| && (r.error.None? ==> |r.rest| < |c.rest|)
  {
    match Next(c)
    case Some(Word(l, true)) => Emit(Take(c), LiteralEvent(l), g)
    case Some(Quoted(Good(text))) => Emit(Take(c), StringEvent(text), g)
    case Some(Quoted(Bad(code))) => Fail(c, code)
    case Some(Numeral(Good(n))) => Emit(Take(c), NumberEvent(n), g)
    case Some(Numeral(Bad(code))) => Fail(c, code)
    case _ => Fail(c, ValueInvalid)
  }

  /** A member name; the next lexeme is a string. */
  function Name(c: Cursor, g: Rules): (r: Cursor)
    requires c.error.None? && c.rest != [] && c.rest[0].Quoted?
    ensures |r.rest| <= |c.rest| && (r.error.None? ==> |r.rest| < |c.rest|)
  {
    match c.rest[0].text
    case Good(text) => Emit(Take(c), KeyEvent(text), g)
    case Bad(code) => Fail(c, code)
  }

  function Value(c: Cursor, g: Rules): (r: Cursor)
    requires c.error.None?
    ensures |r.rest| <= |c.rest| && (r.error.None? ==> |r.rest| < |c.rest|)
    decreases |c.rest|, 1
  {
    match Next(c)
    case Some(LeftCurly) => Object(c, g)
    case Some(LeftBracket) => Array(c, g)
    case _ => Scalar(c, g)
  }

  function Object(c: Cursor, g: Rules): (r: Cursor)
    requires c.error.None? && Next(c) == Some(LeftCurly)
    ensures |r.rest| <= |c.rest| && (r.error.None? ==> |r.rest| < |c.rest|)
    decreases |c.rest|, 0
  {
    var s := Emit(Take(c), StartObject, g);
    if s.error.Some? then s
    else if Next(s) == Some(RightCurly) then Emit(Take(s), EndObject(0), g)
    else Members(s, 0, g)
  }

  /** The rest of an object from a member name on, `count` members having been read. */
  function Members(c: Cursor, count: nat, g: Rules): (r: Cursor)
    requires c.error.None?
    ensures |r.rest| <= |c.rest| && (r.error.None? ==> |r.rest| < |c.rest|)
    decreases |c.rest|, 2
  {
    if c.rest == [] || !c.rest[0].Quoted? then Fail(c, ObjectMissName)
    else
      var k := Name(c, g);
      if k.error.Some? then k else NamedValue(k, count, g)
  }

  /** Behind a member name. */
  function NamedValue(c: Cursor, count: nat, g: Rules): (r: Cursor)
    requires c.error.None?
    ensures |r.rest| <= |c.rest| && (r.error.None? ==> |r.rest| < |c.rest|)
    decreases |c.rest|, 2
  {
    if Next(c) != Some(Colon) then Fail(c, ObjectMissColon) else MemberValue(Take(c), count, g)
  }

  /** Behind a colon. */
  function MemberValue(c: Cursor, count: nat, g: Rules): (r: Cursor)
    requires c.error.None?
    ensures |r.rest| <= |c.rest| && (r.error.None? ==> |r.rest| < |c.rest|)
    decreases |c.rest|, 2
  {
    var v := Value(c, g);
    if v.error.Some? then v else MemberEnd(v, count, g)
  }

  /** Behind a member, `count` members having been read before it. */
  function MemberEnd(c: Cursor, count: nat, g: Rules): (r: Cursor)
    requires c.error.None?
    ensures |r.rest| <= |c.rest| && (r.error.None? ==> |r.rest| < |c.rest|)
    decreases |c.rest|, 3
  {
    match Next(c)
    case Some(Comma) =>
      var d := Take(c);
      if g.trailingCommas && Next(d) == Some(RightCurly) then EndThenTake(d, EndObject(Increment(count)), g)
      else Members(d, Increment(count), g)
    case Some(RightCurly) => Emit(Take(c), EndObject(Increment(count)), g)
    case _ => Fail(c, ObjectMissCommaOrCurlyBracket)
  }

  function Array(c: Cursor, g: Rules): (r: Cursor)
    requires c.error.None? && Next(c) == Some(LeftBracket)
    ensures |r.rest| <= |c.rest| && (r.error.None? ==> |r.rest| < |c.rest|)
    decreases |c.rest|, 0
  {
    var s := Emit(Take(c), StartArray, g);
    if s.error.Some? then s
    else if Next(s) == Some(RightBracket) then Emit(Take(s), EndArray(0), g)
    else Elements(s, 0, g)
  }

  /** The rest of an array from an element on, `count` elements having been read. */
  function Elements(c: Cursor, count: nat, g: Rules): (r: Cursor)
    requires c.error.None?
    ensures |r.rest| <= |c.rest| && (r.error.None? ==> |r.rest| < |c.rest|)
    decreases |c.rest|, 2
  {
    var v := Value(c, g);
    if v.error.Some? then v else ElementEnd(v, count, g)
  }

  /** Behind an element, `count` elements having been read before it. */
  function ElementEnd(c: Cursor, count: nat, g: Rules): (r: Cursor)
    requires c.error.None?
    ensures |r.rest| <= |c.rest| && (r.error.None? ==> |r.rest| < |c.rest|)
    decreases |c.rest|, 3
  {
    match Next(c)
    case Some(Comma) =>
      var d := Take(c);
      if g.trailingCommas && Next(d) == Some(RightBracket) then EndThenTake(d, EndArray(Increment(count)), g)
      else Elements(d, Increment(count), g)
    case Some(RightBracket) => Emit(Take(c), EndArray(Increment(count)), g)
    case _ => Fail(c, ArrayMissCommaOrSquareBracket)
  }

  /** Behind a trailing comma the closing event is sent before the bracket is taken. */
  function EndThenTake(c: Cursor, e: Event, g: Rules): (r: Cursor)
    requires c.rest != []
    ensures |r.rest| <= |c.rest| && (r.error.None? ==> |r.rest| < |c.rest|)
  {
    var s := Emit(c, e, g);
    if s.error.Some? then s else Take(s)
  }

  /** The parse of a whole document. */
  function DescentDocument(c: Cursor, g: Rules): Cursor
    requires c.error.None?
  {
    if c.rest == [] then Fail(c, DocumentEmpty)
    else
      var v := Value(c, g);
      if v.error.None? && !g.stopWhenDone && v.rest != [] then Fail(v, DocumentRootNotSingular) else v
  }
}
