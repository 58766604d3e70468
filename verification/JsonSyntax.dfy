/**
  The JSON grammar (sections 2 to 5 of RFC 8259) over lexemes: what a value is spelled like and which
  events it stands for. The grammar is extended by one optional comma behind the last element or member,
  which the parser allows by a flag; with or without it, exactly the spelled values are accepted.
 */
module JsonSyntax {
  import opened Options
  import opened Sequences
  import opened JsonEvents
  import opened JsonDescent

  /**
    A value as it is written: `comma` says that the last element or member, if there is one, is followed by a comma.
   */
  datatype Json =
    | JsonNull
    | JsonBool(b: bool)
    | JsonNumber(n: Number)
    | JsonString(text: string)
    | JsonArray(items: seq<Json>, comma: bool)
    | JsonObject(members: seq<JsonMember>, comma: bool)

  datatype JsonMember = JsonMember(name: string, value: Json)

  // ---- Spelling ----

  function Lexemes(v: Json): seq<Lexeme>
    decreases v
  {
    match v
    case JsonNull => [Word(NullLiteral, true)]
    case JsonBool(b) => [Word(if b then TrueLiteral else FalseLiteral, true)]
    case JsonNumber(n) => [Numeral(Good(n))]
    case JsonString(text) => [Quoted(Good(text))]
    case JsonArray(items, comma) =>
      if items == [] then [LeftBracket, RightBracket] else [LeftBracket] + ItemLexemes(items, comma)
    case JsonObject(members, comma) =>
      if members == [] then [LeftCurly, RightCurly] else [LeftCurly] + MemberLexemes(members, comma)
  }

  /** The closing bracket, behind a comma or not. */
  function Closing(bracket: Lexeme, comma: bool): seq<Lexeme> {
    if comma then [Comma, bracket] else [bracket]
  }

  /** The elements, separated, up to and including the closing bracket. */
  function ItemLexemes(items: seq<Json>, comma: bool): seq<Lexeme>
    requires items != []
    decreases items
  {
    Lexemes(items[0]) + if |items| == 1 then Closing(RightBracket, comma) else [Comma] + ItemLexemes(items[1..], comma)
  }

  function MemberLexemes(members: seq<JsonMember>, comma: bool): seq<Lexeme>
    requires members != []
    decreases members
  {
    [Quoted(Good(members[0].name)), Colon] + (Lexemes(members[0].value)
      + if |members| == 1 then Closing(RightCurly, comma) else [Comma] + MemberLexemes(members[1..], comma))
  }

  /** No container is closed behind a comma: the grammar of the standard. */
  predicate Plain(v: Json)
    decreases v
  {
    match v
    case JsonArray(items, comma) => !comma && ItemsPlain(items)
    case JsonObject(members, comma) => !comma && MembersPlain(members)
    case _ => true
  }

  predicate ItemsPlain(items: seq<Json>)
    decreases items
  {
    items != [] ==> Plain(items[0]) && ItemsPlain(items[1..])
  }

  predicate MembersPlain(members: seq<JsonMember>)
    decreases members
  {
    members != [] ==> Plain(members[0].value) && MembersPlain(members[1..])
  }

  /** The spellings the parser is to accept under its flags. */
  predicate Allowed(v: Json, g: Rules) {
    g.trailingCommas || Plain(v)
  }

  // ---- Events ----

  function EventsOf(v: Json): seq<Event>
    decreases v
  {
    match v
    case JsonNull => [NullEvent]
    case JsonBool(b) => [BoolEvent(b)]
    case JsonNumber(n) => [NumberEvent(n)]
    case JsonString(text) => [StringEvent(text)]
    case JsonArray(items, _) => [StartArray] + (ItemEvents(items) + [EndArray(|items| % COUNT_MODULUS)])
    case JsonObject(members, _) => [StartObject] + (MemberEvents(members) + [EndObject(|members| % COUNT_MODULUS)])
  }

  function ItemEvents(items: seq<Json>): seq<Event>
    decreases items
  {
    if items == [] then [] else EventsOf(items[0]) + ItemEvents(items[1..])
  }

  function MemberEvents(members: seq<JsonMember>): seq<Event>
    decreases members
  {
    if members == [] then [] else [KeyEvent(members[0].name)] + EventsOf(members[0].value) + MemberEvents(members[1..])
  }

  // ---- What is accepted is spelled by a value ----

  /** Counting on behind one element or member. */
  lemma CountOn(count: nat, more: nat)
    ensures (Increment(count) + more) % COUNT_MODULUS == (count + (more + 1)) % COUNT_MODULUS
  {
  }

  /** `r` is `c` behind the spelling `text`, which sent `events`. */
  ghost predicate Behind(c: Cursor, text: seq<Lexeme>, events: seq<Event>, r: Cursor) {
    r.events == c.events + events && c.rest == text + r.rest
  }

  lemma {:induction false} ScalarReads(c: Cursor, g: Rules) returns (v: Json)
    requires c.error.None? && Scalar(c, g).error.None?
    ensures Behind(c, Lexemes(v), EventsOf(v), Scalar(c, g))
    ensures |Lexemes(v)| == 1 && Plain(v)
  {
    match c.rest[0]
    case Word(l, _) => v := if l.NullLiteral? then JsonNull else JsonBool(l.TrueLiteral?);
    case Quoted(Good(text)) => v := JsonString(text);
    case Numeral(Good(n)) => v := JsonNumber(n);
  }

  /** The bracket that opens a container in front of what was read behind it. */
  lemma {:induction false} OpenBehind(c: Cursor, bracket: Lexeme, e: Event, text: seq<Lexeme>, events: seq<Event>,
                                      s: Cursor, r: Cursor)
    requires Next(c) == Some(bracket) && s.rest == c.rest[1..] && s.events == c.events + [e]
             && Behind(s, text, events, r)
    ensures Behind(c, [bracket] + text, [e] + events, r)
  {
    assert c.rest == [bracket] + s.rest;
    Assoc([bracket], text, r.rest);
    Assoc(c.events, [e], events);
  }

  /** A successful ParseValue has read exactly one value and sent its events. */
  lemma {:induction false} ValueReads(c: Cursor, g: Rules) returns (v: Json)
    requires c.error.None? && Value(c, g).error.None?
    ensures Behind(c, Lexemes(v), EventsOf(v), Value(c, g)) && Allowed(v, g)
    decreases |c.rest|, 1
  {
    match c.rest[0]
    case LeftBracket =>
      var items, comma := ArrayReads(c, g);
      v := JsonArray(items, comma);
    case LeftCurly =>
      var members, comma := ObjectReads(c, g);
      v := JsonObject(members, comma);
    case _ =>
      v := ScalarReads(c, g);
  }

  lemma {:induction false} ArrayReads(c: Cursor, g: Rules) returns (items: seq<Json>, comma: bool)
    requires c.error.None? && Next(c) == Some(LeftBracket) && Array(c, g).error.None?
    ensures var v := JsonArray(items, comma); Behind(c, Lexemes(v), EventsOf(v), Array(c, g)) && Allowed(v, g)
    decreases |c.rest|, 0
  {
    var s := Emit(Take(c), StartArray, g);
    if Next(s) == Some(RightBracket) {
      items, comma := [], false;
      assert c.rest == [LeftBracket, RightBracket] + Array(c, g).rest;
    } else {
      items, comma := ElementsRead(s, 0, g);
      OpenBehind(c, LeftBracket, StartArray, ItemLexemes(items, comma),
          ItemEvents(items) + [EndArray(|items| % COUNT_MODULUS)],
                 s, Array(c, g));
    }
  }

  lemma {:induction false} ElementsRead(c: Cursor, count: nat, g: Rules) returns (items: seq<Json>, comma: bool)
    requires c.error.None? && Elements(c, count, g).error.None? && count < COUNT_MODULUS
    ensures items != [] && (g.trailingCommas || (!comma && ItemsPlain(items)))
    ensures Behind(c, ItemLexemes(items, comma), ItemEvents(items) + [EndArray((count + |items|) % COUNT_MODULUS)],
                   Elements(c, count, g))
    decreases |c.rest|, 2
  {
    var v := ValueReads(c, g);
    var d := Value(c, g);
    var r := Elements(c, count, g);
    var last;
    last, comma := ElementEndMeets(d, count, g);
    if last {
      items := [v];
      assert ItemEvents([v]) == EventsOf(v) + [];
      LastBehind(c, Lexemes(v), EventsOf(v), d, RightBracket, comma, EndArray(Increment(count)), r);
    } else {
      var more;
      more, comma := ElementsRead(Take(d), Increment(count), g);
      items := [v] + more;
      assert items[1..] == more;
      CountOn(count, |more|);
      MoreBehind(c, Lexemes(v), EventsOf(v), d, ItemLexemes(more, comma), ItemEvents(more),
                 EndArray((count + |items|) % COUNT_MODULUS), r);
    }
  }

  /** The last element or member of a container, with the bracket that closes it. */
  lemma {:induction false} LastBehind(c: Cursor, text: seq<Lexeme>, events: seq<Event>, d: Cursor,
                                      bracket: Lexeme, comma: bool, e: Event, r: Cursor)
    requires Behind(c, text, events, d) && r.events == d.events + [e]
    requires d.rest == Closing(bracket, comma) + r.rest
    ensures Behind(c, text + Closing(bracket, comma), events + [e], r)
  {
    Assoc(text, Closing(bracket, comma), r.rest);
    Assoc(c.events, events, [e]);
  }

  /** An element or member that is followed by others. */
  lemma {:induction false} MoreBehind(c: Cursor, text: seq<Lexeme>, events: seq<Event>, d: Cursor,
                                      moreText: seq<Lexeme>, moreEvents: seq<Event>, e: Event, r: Cursor)
    requires Behind(c, text, events, d) && Next(d) == Some(Comma)
    requires Behind(Take(d), moreText, moreEvents + [e], r)
    ensures Behind(c, text + ([Comma] + moreText), (events + moreEvents) + [e], r)
  {
    assert d.rest == [Comma] + Take(d).rest;
    assert c.events + events + (moreEvents + [e]) == c.events + ((events + moreEvents) + [e]);
    assert text + ([Comma] + (moreText + r.rest)) == (text + ([Comma] + moreText)) + r.rest;
  }

  lemma {:induction false} ObjectReads(c: Cursor, g: Rules) returns (members: seq<JsonMember>, comma: bool)
    requires c.error.None? && Next(c) == Some(LeftCurly) && Object(c, g).error.None?
    ensures var v := JsonObject(members, comma); Behind(c, Lexemes(v), EventsOf(v), Object(c, g)) && Allowed(v, g)
    decreases |c.rest|, 0
  {
    var s := Emit(Take(c), StartObject, g);
    if Next(s) == Some(RightCurly) {
      members, comma := [], false;
      assert c.rest == [LeftCurly, RightCurly] + Object(c, g).rest;
    } else {
      members, comma := MembersRead(s, 0, g);
      OpenBehind(c, LeftCurly, StartObject, MemberLexemes(members, comma),
                 MemberEvents(members) + [EndObject(|members| % COUNT_MODULUS)], s, Object(c, g));
    }
  }

  /** A name and a colon in front of what was read behind them. */
  lemma {:induction false} NameBehind(c: Cursor, text: seq<Lexeme>, events: seq<Event>, d: Cursor, r: Cursor,
                                      name: string)
    requires |c.rest| >= 2 && c.rest[0] == Quoted(Good(name)) && c.rest[1] == Colon
    requires d.rest == c.rest[2..] && d.events == c.events + [KeyEvent(name)] && Behind(d, text, events, r)
    ensures Behind(c, [Quoted(Good(name)), Colon] + text, [KeyEvent(name)] + events, r)
  {
    assert c.rest == [Quoted(Good(name)), Colon] + d.rest;
    assert c.events + [KeyEvent(name)] + events == c.events + ([KeyEvent(name)] + events);
  }

  /** A successful reading of members up to the end of the first one. */
  lemma {:induction false} MembersUnfold(c: Cursor, count: nat, g: Rules) returns (name: string, b: Cursor, d: Cursor)
    requires c.error.None? && Members(c, count, g).error.None?
    ensures |c.rest| >= 2 && c.rest[0] == Quoted(Good(name)) && c.rest[1] == Colon
    ensures b == Cursor(c.rest[2..], c.events + [KeyEvent(name)], None)
    ensures d == Value(b, g) && d.error.None? && |d.rest| < |b.rest| && Members(c, count, g) == MemberEnd(d, count, g)
  {
    name := c.rest[0].text.value;
    var k := Name(c, g);
    b := Take(k);
    d := Value(b, g);
    assert Members(c, count, g) == NamedValue(k, count, g) == MemberValue(b, count, g);
  }

  /**
    What a successful reading behind a member has met: the end of the object, or a comma in front of another member.
   */
  lemma {:induction false} MemberEndMeets(d: Cursor, count: nat, g: Rules) returns (last: bool, comma: bool)
    requires d.error.None? && MemberEnd(d, count, g).error.None?
    ensures var r := MemberEnd(d, count, g);
            if last then
              && (comma ==> g.trailingCommas) && d.rest == Closing(RightCurly, comma) + r.rest
              && r.events == d.events + [EndObject(Increment(count))]
            else Next(d) == Some(Comma) && r == Members(Take(d), Increment(count), g)
  {
    comma := d.rest[0].Comma? && g.trailingCommas && Next(Take(d)) == Some(RightCurly);
    last := d.rest[0].RightCurly? || comma;
  }

  lemma {:induction false} ElementEndMeets(d: Cursor, count: nat, g: Rules) returns (last: bool, comma: bool)
    requires d.error.None? && ElementEnd(d, count, g).error.None?
    ensures var r := ElementEnd(d, count, g);
            if last then
              && (comma ==> g.trailingCommas) && d.rest == Closing(RightBracket, comma) + r.rest
              && r.events == d.events + [EndArray(Increment(count))]
            else Next(d) == Some(Comma) && r == Elements(Take(d), Increment(count), g)
  {
    comma := d.rest[0].Comma? && g.trailingCommas && Next(Take(d)) == Some(RightBracket);
    last := d.rest[0].RightBracket? || comma;
  }

  lemma {:induction false} MembersRead(c: Cursor, count: nat, g: Rules) returns (members: seq<JsonMember>, comma: bool)
    requires c.error.None? && Members(c, count, g).error.None? && count < COUNT_MODULUS
    ensures members != [] && (g.trailingCommas || (!comma && MembersPlain(members)))
    ensures Behind(c, MemberLexemes(members, comma),
                MemberEvents(members) + [EndObject((count + |members|) % COUNT_MODULUS)],
                   Members(c, count, g))
    decreases |c.rest|, 2
  {
    var name, b, d := MembersUnfold(c, count, g);
    var v := ValueReads(b, g);
    members, comma := MembersReadOn(c, name, b, v, d, count, g);
  }

  /** The same from behind the first member on. */
  lemma {:induction false} MembersReadOn(c: Cursor, name: string, b: Cursor, v: Json, d: Cursor, count: nat, g: Rules)
    returns (members: seq<JsonMember>, comma: bool)
    requires |c.rest| >= 2 && c.rest[0] == Quoted(Good(name)) && c.rest[1] == Colon
    requires b.rest == c.rest[2..] && b.events == c.events + [KeyEvent(name)]
    requires d.error.None? && Behind(b, Lexemes(v), EventsOf(v), d) && Allowed(v, g)
    requires MemberEnd(d, count, g).error.None? && count < COUNT_MODULUS
    ensures members != [] && (g.trailingCommas || (!comma && MembersPlain(members)))
    ensures Behind(c, MemberLexemes(members, comma),
                MemberEvents(members) + [EndObject((count + |members|) % COUNT_MODULUS)],
                   MemberEnd(d, count, g))
    decreases |d.rest|, 3
  {
    var r, last := MemberEnd(d, count, g), false;
    last, comma := MemberEndMeets(d, count, g);
    if last {
      members := [JsonMember(name, v)];
      LastMember(c, name, b, v, d, comma, EndObject(Increment(count)), r);
    } else {
      var more;
      more, comma := MembersRead(Take(d), Increment(count), g);
      members := [JsonMember(name, v)] + more;
      assert members[1..] == more;
      CountOn(count, |more|);
      MoreMembers(c, name, b, v, d, more, comma, EndObject((count + |members|) % COUNT_MODULUS), r);
    }
  }

  /** The last member, with its name and the bracket behind it. */
  lemma {:induction false} LastMember(c: Cursor, name: string, b: Cursor, v: Json, d: Cursor, comma: bool, e: Event,
                                      r: Cursor)
    requires |c.rest| >= 2 && c.rest[0] == Quoted(Good(name)) && c.rest[1] == Colon
    requires b.rest == c.rest[2..] && b.events == c.events + [KeyEvent(name)]
    requires Behind(b, Lexemes(v), EventsOf(v), d) && r.events == d.events + [e]
    requires d.rest == Closing(RightCurly, comma) + r.rest
    ensures var members := [JsonMember(name, v)]; Behind(c, MemberLexemes(members, comma), MemberEvents(members) + [e],
                r)
  {
    LastBehind(b, Lexemes(v), EventsOf(v), d, RightCurly, comma, e, r);
    NameBehind(c, Lexemes(v) + Closing(RightCurly, comma), EventsOf(v) + [e], b, r, name);
    Assoc([KeyEvent(name)], EventsOf(v), [e]);
    assert MemberEvents([JsonMember(name, v)]) == [KeyEvent(name)] + EventsOf(v) + [];
  }

  /** A member in front of others. */
  lemma {:induction false} MoreMembers(c: Cursor, name: string, b: Cursor, v: Json, d: Cursor, more: seq<JsonMember>,
                                       comma: bool,
                                       e: Event, r: Cursor)
    requires |c.rest| >= 2 && c.rest[0] == Quoted(Good(name)) && c.rest[1] == Colon
    requires b.rest == c.rest[2..] && b.events == c.events + [KeyEvent(name)]
    requires more != [] && Next(d) == Some(Comma) && Behind(b, Lexemes(v), EventsOf(v), d)
    requires Behind(Take(d), MemberLexemes(more, comma), MemberEvents(more) + [e], r)
    ensures var members := [JsonMember(name, v)] + more;
            Behind(c, MemberLexemes(members, comma), MemberEvents(members) + [e], r)
  {
    var members := [JsonMember(name, v)] + more;
    assert members[1..] == more;
    var text, events := Lexemes(v) + ([Comma] + MemberLexemes(more, comma)), EventsOf(v) + MemberEvents(more);
    MoreBehind(b, Lexemes(v), EventsOf(v), d, MemberLexemes(more, comma), MemberEvents(more), e, r);
    NameBehind(c, text, events + [e], b, r, name);
    Assoc([KeyEvent(name)], EventsOf(v), MemberEvents(more));
    Assoc([KeyEvent(name)], events, [e]);
    assert MemberLexemes(members, comma) == [Quoted(Good(name)), Colon] + text;
  }

  // ---- What is spelled by a value is accepted ----

  /** A handler that never ends the parse. */
  ghost predicate Willing(g: Rules) {
    forall events :: g.handler(events)
  }

  lemma {:induction false} FirstLexeme(v: Json)
    ensures Lexemes(v) != [] && !Lexemes(v)[0].RightBracket?
  {
  }

  /** Whatever follows it, a spelled value is read as a whole and its events are sent. */
  lemma {:induction false} ValueAccepted(v: Json, rest: seq<Lexeme>, events: seq<Event>, g: Rules)
    requires Willing(g) && Allowed(v, g)
    ensures Value(Cursor(Lexemes(v) + rest, events, None), g) == Cursor(rest, events + EventsOf(v), None)
    decreases v, 1
  {
    var c := Cursor(Lexemes(v) + rest, events, None);
    match v
    case JsonArray(_, _) => ArrayAccepted(v, rest, events, g);
    case JsonObject(_, _) => ObjectAccepted(v, rest, events, g);
    case _ => assert Take(c).rest == rest;
  }

  lemma {:induction false} ArrayAccepted(v: Json, rest: seq<Lexeme>, events: seq<Event>, g: Rules)
    requires Willing(g) && v.JsonArray? && Allowed(v, g)
    ensures Value(Cursor(Lexemes(v) + rest, events, None), g) == Cursor(rest, events + EventsOf(v), None)
    decreases v, 0
  {
    if v.items == [] {
      EmptyArray(rest, events, v.comma, g);
      assert [LeftBracket, RightBracket] + rest == [LeftBracket] + ([RightBracket] + rest);
    } else {
      ItemsAccepted(v.items, v.comma, rest, events + [StartArray], 0, g);
      FullArray(v.items, v.comma, rest, events, g);
    }
  }

  /** The opening bracket in front of elements that are read as a whole. */
  lemma {:induction false} FullArray(items: seq<Json>, comma: bool, rest: seq<Lexeme>, events: seq<Event>, g: Rules)
    requires Willing(g) && items != []
    requires Elements(Cursor(ItemLexemes(items, comma) + rest, events + [StartArray], None), 0, g)
          == Cursor(rest, events + [StartArray] + (ItemEvents(items) + [EndArray(|items| % COUNT_MODULUS)]), None)
    ensures var v := JsonArray(items, comma);
            Value(Cursor(Lexemes(v) + rest, events, None), g) == Cursor(rest, events + EventsOf(v), None)
  {
    FirstItemLexeme(items, comma, rest);
    Assoc([LeftBracket], ItemLexemes(items, comma), rest);
    OpenElements(ItemLexemes(items, comma) + rest, events, g);
    Assoc(events, [StartArray], ItemEvents(items) + [EndArray(|items| % COUNT_MODULUS)]);
  }

  lemma {:induction false} EmptyArray(rest: seq<Lexeme>, events: seq<Event>, comma: bool, g: Rules)
    requires Willing(g)
    ensures Value(Cursor([LeftBracket] + ([RightBracket] + rest), events, None), g)
         == Cursor(rest, events + EventsOf(JsonArray([], comma)), None)
  {
    var c := Cursor([LeftBracket] + ([RightBracket] + rest), events, None);
    var s := Emit(Take(c), StartArray, g);
    assert s.rest == [RightBracket] + rest && Take(s).rest == rest;
    assert events + [StartArray] + [EndArray(0)] == events + ([StartArray] + ([] + [EndArray(0)]));
  }

  lemma {:induction false} OpenElements(rest: seq<Lexeme>, events: seq<Event>, g: Rules)
    requires Willing(g) && rest != [] && rest[0] != RightBracket
    ensures Value(Cursor([LeftBracket] + rest, events, None), g)
            == Elements(Cursor(rest, events + [StartArray], None), 0, g)
  {
    var c := Cursor([LeftBracket] + rest, events, None);
    assert Take(c).rest == rest;
  }

  /** What follows the first element or member: the closing bracket, or a comma and the others. */
  function ItemsTail(items: seq<Json>, comma: bool): seq<Lexeme>
    requires items != []
  {
    if |items| == 1 then Closing(RightBracket, comma) else [Comma] + ItemLexemes(items[1..], comma)
  }

  function MembersTail(members: seq<JsonMember>, comma: bool): seq<Lexeme>
    requires members != []
  {
    if |members| == 1 then Closing(RightCurly, comma) else [Comma] + MemberLexemes(members[1..], comma)
  }

  lemma {:induction false} ItemsAccepted(items: seq<Json>, comma: bool, rest: seq<Lexeme>, events: seq<Event>,
                                         count: nat, g: Rules)
    requires Willing(g) && items != [] && count < COUNT_MODULUS && (g.trailingCommas || (!comma && ItemsPlain(items)))
    ensures Elements(Cursor(ItemLexemes(items, comma) + rest, events, None), count, g)
         == Cursor(rest, events + (ItemEvents(items) + [EndArray((count + |items|) % COUNT_MODULUS)]), None)
    decreases items, 1
  {
    var v, more, tail := items[0], items[1..], ItemsTail(items, comma);
    Assoc(Lexemes(v), tail, rest);
    ValueAccepted(v, tail + rest, events, g);
    assert Elements(Cursor(ItemLexemes(items, comma) + rest, events, None), count, g)
        == ElementEnd(Cursor(tail + rest, events + EventsOf(v), None), count, g);
    ItemsEnd(items, comma, rest, events + EventsOf(v), count, g);
    var e := EndArray((count + |items|) % COUNT_MODULUS);
    Assoc(events, EventsOf(v), ItemEvents(more) + [e]);
    Assoc(EventsOf(v), ItemEvents(more), [e]);
  }

  /** Behind one element: the closing bracket, or a comma and more elements. */
  lemma {:induction false} ItemsEnd(items: seq<Json>, comma: bool, rest: seq<Lexeme>, events: seq<Event>, count: nat,
                                    g: Rules)
    requires Willing(g) && items != [] && count < COUNT_MODULUS && (g.trailingCommas || (!comma && ItemsPlain(items)))
    ensures ElementEnd(Cursor(ItemsTail(items, comma) + rest, events, None), count, g)
         == Cursor(rest, events + (ItemEvents(items[1..]) + [EndArray((count + |items|) % COUNT_MODULUS)]), None)
    decreases items, 0
  {
    var more := items[1..];
    if |items| == 1 {
      ArrayEnds(rest, events, comma, count, g);
      assert [] + [EndArray(Increment(count))] == [EndArray(Increment(count))];
    } else {
      var d := Cursor([Comma] + ItemLexemes(more, comma) + rest, events, None);
      assert Take(d).rest == ItemLexemes(more, comma) + rest;
      FirstItemLexeme(more, comma, rest);
      CommaThenElements(d, count, g);
      ItemsAccepted(more, comma, rest, events, Increment(count), g);
      CountOn(count, |more|);
    }
  }

  /** The end of an array, with a comma if that is allowed. */
  lemma {:induction false} ArrayEnds(rest: seq<Lexeme>, events: seq<Event>, comma: bool, count: nat, g: Rules)
    requires Willing(g) && (comma ==> g.trailingCommas)
    ensures ElementEnd(Cursor(Closing(RightBracket, comma) + rest, events, None), count, g)
         == Cursor(rest, events + [EndArray(Increment(count))], None)
  {
    var d := Cursor(Closing(RightBracket, comma) + rest, events, None);
    if comma {
      assert Take(d).rest == [RightBracket] + rest && Take(Take(d)).rest == rest;
    } else {
      assert Take(d).rest == rest;
    }
  }

  lemma {:induction false} FirstItemLexeme(items: seq<Json>, comma: bool, rest: seq<Lexeme>)
    requires items != []
    ensures var s := ItemLexemes(items, comma) + rest; s != [] && s[0] != RightBracket
  {
    FirstLexeme(items[0]);
  }

  lemma {:induction false} CommaThenElements(c: Cursor, count: nat, g: Rules)
    requires c.error.None? && Next(c) == Some(Comma) && Next(Take(c)) != Some(RightBracket)
    ensures ElementEnd(c, count, g) == Elements(Take(c), Increment(count), g)
  {
  }

  lemma {:induction false} CommaThenMembers(c: Cursor, count: nat, g: Rules)
    requires c.error.None? && Next(c) == Some(Comma) && Next(Take(c)) != Some(RightCurly)
    ensures MemberEnd(c, count, g) == Members(Take(c), Increment(count), g)
  {
  }

  lemma {:induction false} ObjectAccepted(v: Json, rest: seq<Lexeme>, events: seq<Event>, g: Rules)
    requires Willing(g) && v.JsonObject? && Allowed(v, g)
    ensures Value(Cursor(Lexemes(v) + rest, events, None), g) == Cursor(rest, events + EventsOf(v), None)
    decreases v, 0
  {
    if v.members == [] {
      EmptyObject(rest, events, v.comma, g);
      assert [LeftCurly, RightCurly] + rest == [LeftCurly] + ([RightCurly] + rest);
    } else {
      MembersAccepted(v.members, v.comma, rest, events + [StartObject], 0, g);
      FullObject(v.members, v.comma, rest, events, g);
    }
  }

  /** The opening brace in front of members that are read as a whole. */
  lemma {:induction false} FullObject(members: seq<JsonMember>, comma: bool, rest: seq<Lexeme>, events: seq<Event>,
                                      g: Rules)
    requires Willing(g) && members != []
    requires Members(Cursor(MemberLexemes(members, comma) + rest, events + [StartObject], None), 0, g)
          == Cursor(rest, events + [StartObject] + (MemberEvents(members) + [EndObject(|members| % COUNT_MODULUS)]),
                    None)
    ensures var v := JsonObject(members, comma);
            Value(Cursor(Lexemes(v) + rest, events, None), g) == Cursor(rest, events + EventsOf(v), None)
  {
    Assoc([LeftCurly], MemberLexemes(members, comma), rest);
    OpenMembers(MemberLexemes(members, comma) + rest, events, g);
    Assoc(events, [StartObject], MemberEvents(members) + [EndObject(|members| % COUNT_MODULUS)]);
  }

  lemma {:induction false} EmptyObject(rest: seq<Lexeme>, events: seq<Event>, comma: bool, g: Rules)
    requires Willing(g)
    ensures Value(Cursor([LeftCurly] + ([RightCurly] + rest), events, None), g)
         == Cursor(rest, events + EventsOf(JsonObject([], comma)), None)
  {
    var c := Cursor([LeftCurly] + ([RightCurly] + rest), events, None);
    var s := Emit(Take(c), StartObject, g);
    assert s.rest == [RightCurly] + rest && Take(s).rest == rest;
    assert events + [StartObject] + [EndObject(0)] == events + ([StartObject] + ([] + [EndObject(0)]));
  }

  lemma {:induction false} OpenMembers(rest: seq<Lexeme>, events: seq<Event>, g: Rules)
    requires Willing(g) && rest != [] && rest[0] != RightCurly
    ensures Value(Cursor([LeftCurly] + rest, events, None), g)
            == Members(Cursor(rest, events + [StartObject], None), 0, g)
  {
    var c := Cursor([LeftCurly] + rest, events, None);
    assert Take(c).rest == rest;
  }

  lemma {:induction false} MembersAccepted(members: seq<JsonMember>, comma: bool, rest: seq<Lexeme>,
                                           events: seq<Event>, count: nat, g: Rules)
    requires Willing(g) && members != [] && count < COUNT_MODULUS
    requires g.trailingCommas || (!comma && MembersPlain(members))
    ensures Members(Cursor(MemberLexemes(members, comma) + rest, events, None), count, g)
         == Cursor(rest, events + (MemberEvents(members) + [EndObject((count + |members|) % COUNT_MODULUS)]), None)
    decreases members, 1
  {
    var name, v, more, tail := members[0].name, members[0].value, members[1..], MembersTail(members, comma);
    Assoc([Quoted(Good(name)), Colon], Lexemes(v) + tail, rest);
    Assoc(Lexemes(v), tail, rest);
    NamedAccepted(name, v, tail + rest, events, count, g);
    var named := events + [KeyEvent(name)];
    MembersEnd(members, comma, rest, named + EventsOf(v), count, g);
    var e := EndObject((count + |members|) % COUNT_MODULUS);
    Assoc(named, EventsOf(v), MemberEvents(more) + [e]);
    Assoc(EventsOf(v), MemberEvents(more), [e]);
    Assoc(events, [KeyEvent(name)], (EventsOf(v) + MemberEvents(more)) + [e]);
    Assoc([KeyEvent(name)], EventsOf(v), MemberEvents(more));
    Assoc([KeyEvent(name)], EventsOf(v) + MemberEvents(more), [e]);
  }

  /** A name, a colon and a value. */
  lemma {:induction false} NamedAccepted(name: string, v: Json, tail: seq<Lexeme>, events: seq<Event>, count: nat,
                                         g: Rules)
    requires Willing(g) && Allowed(v, g)
    ensures Members(Cursor([Quoted(Good(name)), Colon] + (Lexemes(v) + tail), events, None), count, g)
         == MemberEnd(Cursor(tail, events + [KeyEvent(name)] + EventsOf(v), None), count, g)
    decreases v, 2
  {
    var c := Cursor([Quoted(Good(name)), Colon] + (Lexemes(v) + tail), events, None);
    var k := Name(c, g);
    assert Next(k) == Some(Colon) && Take(k).rest == Lexemes(v) + tail;
    ValueAccepted(v, tail, events + [KeyEvent(name)], g);
    assert Members(c, count, g) == NamedValue(k, count, g) == MemberValue(Take(k), count, g);
  }

  /** Behind one member: the closing bracket, or a comma and more members. */
  lemma {:induction false} MembersEnd(members: seq<JsonMember>, comma: bool, rest: seq<Lexeme>, events: seq<Event>,
                                      count: nat, g: Rules)
    requires Willing(g) && members != [] && count < COUNT_MODULUS
    requires g.trailingCommas || (!comma && MembersPlain(members))
    ensures MemberEnd(Cursor(MembersTail(members, comma) + rest, events, None), count, g)
         == Cursor(rest, events + (MemberEvents(members[1..]) + [EndObject((count + |members|) % COUNT_MODULUS)]), None)
    decreases members, 0
  {
    var more := members[1..];
    if |members| == 1 {
      ObjectEnds(rest, events, comma, count, g);
      assert [] + [EndObject(Increment(count))] == [EndObject(Increment(count))];
    } else {
      var d := Cursor([Comma] + MemberLexemes(more, comma) + rest, events, None);
      assert Take(d).rest == MemberLexemes(more, comma) + rest;
      assert Take(d).rest[0] == Quoted(Good(more[0].name));
      CommaThenMembers(d, count, g);
      MembersAccepted(more, comma, rest, events, Increment(count), g);
      CountOn(count, |more|);
    }
  }

  /** The end of an object, with a comma if that is allowed. */
  lemma {:induction false} ObjectEnds(rest: seq<Lexeme>, events: seq<Event>, comma: bool, count: nat, g: Rules)
    requires Willing(g) && (comma ==> g.trailingCommas)
    ensures MemberEnd(Cursor(Closing(RightCurly, comma) + rest, events, None), count, g)
         == Cursor(rest, events + [EndObject(Increment(count))], None)
  {
    var d := Cursor(Closing(RightCurly, comma) + rest, events, None);
    if comma {
      assert Take(d).rest == [RightCurly] + rest && Take(Take(d)).rest == rest;
    } else {
      assert Take(d).rest == rest;
    }
  }

  /**
    Under a handler that never ends the parse exactly the spelled values are accepted, or, when only the
    first value is asked for, the inputs that start with one. Without the flag for trailing commas these
    are the values spelled without them.
   */
  lemma {:induction false} AcceptsExactly(input: seq<Lexeme>, g: Rules)
    requires Willing(g)
    ensures DescentDocument(Cursor(input, [], None), g).error.None?
       <==> exists v :: Allowed(v, g) && Lexemes(v) <= input && (g.stopWhenDone || Lexemes(v) == input)
  {
    var c := Cursor(input, [], None);
    if DescentDocument(c, g).error.None? {
      var v := ValueReads(c, g);
      assert input == Lexemes(v) + Value(c, g).rest;
    }
    if v :| Allowed(v, g) && Lexemes(v) <= input && (g.stopWhenDone || Lexemes(v) == input) {
      var rest := input[|Lexemes(v)|..];
      FirstLexeme(v);
      assert input == Lexemes(v) + rest;
      ValueAccepted(v, rest, [], g);
    }
  }

  /** A spelled value is read with the events it stands for. */
  lemma {:induction false} SpelledEvents(v: Json, g: Rules)
    requires Willing(g) && Allowed(v, g)
    ensures DescentDocument(Cursor(Lexemes(v), [], None), g) == Cursor([], EventsOf(v), None)
  {
    FirstLexeme(v);
    assert Lexemes(v) + [] == Lexemes(v) && [] + EventsOf(v) == EventsOf(v);
    ValueAccepted(v, [], [], g);
  }

  // ---- What is reported where a text stops being one ----

  /** The parse of a value that ends in an error, as the parse of a document. */
  lemma {:induction false} ValueError(input: seq<Lexeme>, g: Rules)
    requires input != []
    ensures var r := Value(Cursor(input, [], None), g);
            r.error.Some? ==> DescentDocument(Cursor(input, [], None), g) == r
  {
  }

  /** No input at all, and input behind a value. */
  lemma {:induction false} DocumentErrors(v: Json, rest: seq<Lexeme>, g: Rules)
    requires Willing(g) && Allowed(v, g) && rest != []
    ensures DescentDocument(Cursor([], [], None), g).error == Some(DocumentEmpty)
    ensures DescentDocument(Cursor(Lexemes(v) + rest, [], None), g).error
         == if g.stopWhenDone then None else Some(DocumentRootNotSingular)
  {
    ValueAccepted(v, rest, [], g);
  }

  /** A value starts with none of these. */
  lemma {:induction false} StartError(l: Lexeme, rest: seq<Lexeme>, events: seq<Event>, g: Rules)
    requires l == RightBracket || l == RightCurly || l == Comma || l == Colon
    ensures Value(Cursor([l] + rest, events, None), g).error == Some(ValueInvalid)
  {
  }

  /** Behind an opening brace: neither a name nor the closing brace. */
  lemma {:induction false} NameError(l: Lexeme, rest: seq<Lexeme>, events: seq<Event>, g: Rules)
    requires Willing(g) && l != RightCurly && !l.Quoted?
    ensures Value(Cursor([LeftCurly] + ([l] + rest), events, None), g).error == Some(ObjectMissName)
  {
    OpenMembers([l] + rest, events, g);
  }

  /** Behind a member name: no colon. */
  lemma {:induction false} ColonError(name: string, rest: seq<Lexeme>, events: seq<Event>, g: Rules)
    requires Willing(g) && (rest == [] || rest[0] != Colon)
    ensures Value(Cursor([LeftCurly] + ([Quoted(Good(name))] + rest), events, None), g).error == Some(ObjectMissColon)
  {
    var c := Cursor([Quoted(Good(name))] + rest, events + [StartObject], None);
    OpenMembers([Quoted(Good(name))] + rest, events, g);
    assert Name(c, g).rest == rest;
  }

  /** Behind a member: neither a comma nor the closing brace. */
  lemma {:induction false} MemberError(name: string, v: Json, rest: seq<Lexeme>, events: seq<Event>, g: Rules)
    requires Willing(g) && Allowed(v, g) && (rest == [] || (rest[0] != Comma && rest[0] != RightCurly))
    ensures Value(Cursor([LeftCurly] + ([Quoted(Good(name)), Colon] + (Lexemes(v) + rest)), events, None), g).error
         == Some(ObjectMissCommaOrCurlyBracket)
  {
    OpenMembers([Quoted(Good(name)), Colon] + (Lexemes(v) + rest), events, g);
    NamedAccepted(name, v, rest, events + [StartObject], 0, g);
  }

  /** Behind an element: neither a comma nor the closing bracket. */
  lemma {:induction false} ElementError(v: Json, rest: seq<Lexeme>, events: seq<Event>, g: Rules)
    requires Willing(g) && Allowed(v, g) && (rest == [] || (rest[0] != Comma && rest[0] != RightBracket))
    ensures Value(Cursor([LeftBracket] + (Lexemes(v) + rest), events, None), g).error
         == Some(ArrayMissCommaOrSquareBracket)
  {
    FirstLexeme(v);
    assert (Lexemes(v) + rest)[0] == Lexemes(v)[0];
    OpenElements(Lexemes(v) + rest, events, g);
    ValueAccepted(v, rest, events + [StartArray], g);
  }
}
