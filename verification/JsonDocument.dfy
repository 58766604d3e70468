/** The document: handler methods that build a value tree on a flat stack, and the traversal that reports one. */
module JsonDocuments {
  import opened Options
  import opened Sequences
  import opened JsonEvents
  import opened JsonDescent
  import opened JsonSyntax
  import opened JsonReaders
  import opened Folding

  /** Which kinds a number may be read as. */
  datatype Flags = Flags(isInt: bool, isUint: bool, isInt64: bool, isUint64: bool, isDouble: bool)

  /** The eight bytes of a number. */
  datatype Payload = Bits(n: uint64) | Real(d: real)

  datatype GenericValue =
    | NullValue
    | BoolValue(b: bool)
    | NumberValue(flags: Flags, payload: Payload)
    | StringValue(text: string)
    | ArrayValue(elements: seq<GenericValue>)
    | ObjectValue(members: seq<Member>)

  datatype Member = Member(name: GenericValue, value: GenericValue)

  // ---- Number constructors and readers ----

  /** Two's complement in 64 bits. */
  function ToBits(i: int64): uint64 {
    if i < 0 then i + 0x1_0000_0000_0000_0000 else i
  }

  function LowSigned(bits: uint64): int32 {
    var low := bits % 0x1_0000_0000;
    if low >= 0x8000_0000 then low - 0x1_0000_0000 else low
  }

  function LowUnsigned(bits: uint64): uint32 {
    bits % 0x1_0000_0000
  }

  function Signed(bits: uint64): int64 {
    if bits >= 0x8000_0000_0000_0000 then bits - 0x1_0000_0000_0000_0000 else bits
  }

  /** The value each number constructor makes, with the kinds it can also be read as. */
  function NumberOf(n: Number): GenericValue {
    match n
    case Int(i) => NumberValue(Flags(true, i >= 0, true, i >= 0, false), Bits(ToBits(i)))
    case Uint(u) => NumberValue(Flags(u < 0x8000_0000, true, true, true, false), Bits(u))
    case Int64(i) =>
      NumberValue(if i >= 0 then Flags(i < 0x8000_0000, i < 0x1_0000_0000, true, true, false)
                  else Flags(i >= -0x8000_0000, false, true, false, false), Bits(ToBits(i)))
    case Uint64(u) =>
      NumberValue(Flags(u < 0x8000_0000, u < 0x1_0000_0000, u < 0x8000_0000_0000_0000, true, false), Bits(u))
    case Double(d) => NumberValue(Flags(false, false, false, false, true), Real(d))
  }

  /** `v` is the integer `x`: it has exactly the kinds whose range holds `x`, and reads as `x` in each of them. */
  predicate StandsForInteger(v: GenericValue, x: int) {
    && v.NumberValue? && v.payload.Bits? && !v.flags.isDouble
    && (v.flags.isInt <==> -0x8000_0000 <= x < 0x8000_0000)
    && (v.flags.isUint <==> 0 <= x < 0x1_0000_0000)
    && (v.flags.isInt64 <==> -0x8000_0000_0000_0000 <= x < 0x8000_0000_0000_0000)
    && (v.flags.isUint64 <==> 0 <= x < 0x1_0000_0000_0000_0000)
    && (v.flags.isInt ==> LowSigned(v.payload.n) == x)
    && (v.flags.isUint ==> LowUnsigned(v.payload.n) == x)
    && (v.flags.isInt64 ==> Signed(v.payload.n) == x)
    && v.payload.n == if x >= 0 then x else x + 0x1_0000_0000_0000_0000
  }

  /** `v` is the number `n`, whichever handler method it came through. */
  predicate StandsForNumber(v: GenericValue, n: Number) {
    match n
    case Int(i) => StandsForInteger(v, i)
    case Uint(u) => StandsForInteger(v, u)
    case Int64(i) => StandsForInteger(v, i)
    case Uint64(u) => StandsForInteger(v, u)
    case Double(d) => v == NumberValue(Flags(false, false, false, false, true), Real(d))
  }

  /** Every number constructor makes the number it is given. */
  lemma {:induction false} NumberKinds(n: Number)
    ensures StandsForNumber(NumberOf(n), n)
  {
    match n
    case Double(d) =>
    case Int(i) => assert LowSigned(ToBits(i)) == i;
    case Uint(u) =>
    case Int64(i) =>
      assert Signed(ToBits(i)) == i;
      assert -0x8000_0000 <= i < 0x8000_0000 ==> LowSigned(ToBits(i)) == i;
    case Uint64(u) =>
  }

  /** The handler method a number is reported to: the first kind that fits. */
  function Reported(flags: Flags, payload: Payload): Number
    requires flags.isDouble <==> payload.Real?
  {
    if flags.isDouble then Double(payload.d)
    else if flags.isInt then Int(LowSigned(payload.n))
    else if flags.isUint then Uint(LowUnsigned(payload.n))
    else if flags.isInt64 then Int64(Signed(payload.n))
    else Uint64(payload.n)
  }

  /** Reporting a constructed number and constructing it again gives the same payload and the same kinds. */
  lemma {:induction false} NumberRoundTrip(n: Number)
    ensures var v := NumberOf(n); NumberOf(Reported(v.flags, v.payload)) == v
  {
    match n
    case Double(d) =>
    case Int(i) => assert LowSigned(ToBits(i)) == i;
    case Uint(u) =>
    case Int64(i) =>
      assert Signed(ToBits(i)) == i;
      assert -0x8000_0000 <= i < 0x8000_0000 ==> LowSigned(ToBits(i)) == i;
    case Uint64(u) =>
  }

  /** An integer is reported to the narrowest handler method that holds it, signed before unsigned. */
  lemma {:induction false} ReportedNarrowest(v: GenericValue, x: int)
    requires StandsForInteger(v, x) && -0x8000_0000_0000_0000 <= x < 0x1_0000_0000_0000_0000
    ensures Reported(v.flags, v.payload)
         == if -0x8000_0000 <= x < 0x8000_0000 then Int(x)
            else if 0 <= x < 0x1_0000_0000 then Uint(x)
            else if x < 0x8000_0000_0000_0000 then Int64(x)
            else Uint64(x)
  {
  }

  // ---- The handler, on stack values ----

  function Last(stack: seq<GenericValue>): GenericValue
    requires stack != []
  {
    stack[|stack| - 1]
  }

  function Pairs(flat: seq<GenericValue>): (r: seq<Member>) {
    seq(|flat| / 2, i requires 0 <= i < |flat| / 2 => Member(flat[2 * i], flat[2 * i + 1]))
  }

  /** What a handler method does to the stack; None if it would pop below the base. */
  function Apply(stack: seq<GenericValue>, e: Event): Option<seq<GenericValue>> {
    match e
    case NullEvent => Some(stack + [NullValue])
    case BoolEvent(b) => Some(stack + [BoolValue(b)])
    case NumberEvent(n) => Some(stack + [NumberOf(n)])
    case StringEvent(text) => Some(stack + [StringValue(text)])
    case KeyEvent(text) => Some(stack + [StringValue(text)])
    case StartObject => Some(stack + [ObjectValue([])])
    case StartArray => Some(stack + [ArrayValue([])])
    case EndObject(n) =>
      var top := |stack| - 2 * n;
      if top < 1 then None else Some(stack[..top - 1] + [ObjectValue(Pairs(stack[top..]))])
    case EndArray(n) =>
      var top := |stack| - n;
      if top < 1 then None else Some(stack[..top - 1] + [ArrayValue(stack[top..])])
  }

  /** The stack after a whole sequence of events. */
  function Fold(stack: seq<GenericValue>, events: seq<Event>): Option<seq<GenericValue>> {
    if events == [] then Some(stack)
    else
      match Fold(stack, events[..|events| - 1])
      case None => None
      case Some(s) => Apply(s, events[|events| - 1])
  }

  lemma {:induction false} FoldStep(base: seq<GenericValue>, events: seq<Event>, e: Event, s: seq<GenericValue>)
    requires Fold(base, events) == Some(s)
    ensures Fold(base, events + [e]) == Apply(s, e)
  {
    assert (events + [e])[..|events|] == events;
  }

  // ---- The events of a parse never pop below the base ----

  /** The handler is fine behind `r`; if the parse has not failed there it holds at least one value more than before. */
  ghost predicate Stacked(r: Cursor, before: nat) {
    match Fold([], r.events)
    case None => false
    case Some(t) => r.error.None? ==> |t| > before
  }

  lemma {:induction false} EmitStacked(c: Cursor, e: Event, g: Rules, s: seq<GenericValue>, t: seq<GenericValue>)
    requires Fold([], c.events) == Some(s) && Apply(s, e) == Some(t)
    ensures Fold([], Emit(c, e, g).events) == Some(t)
  {
    FoldStep([], c.events, e, s);
  }

  lemma {:induction false} ScalarStacked(c: Cursor, g: Rules, s: seq<GenericValue>)
    requires c.error.None? && Fold([], c.events) == Some(s)
    ensures Stacked(Scalar(c, g), |s|)
  {
    match Next(c)
    case Some(Word(l, true)) => EmitStacked(Take(c), LiteralEvent(l), g, s, Apply(s, LiteralEvent(l)).value);
    case Some(Quoted(Good(text))) => EmitStacked(Take(c), StringEvent(text), g, s, s + [StringValue(text)]);
    case Some(Numeral(Good(n))) => EmitStacked(Take(c), NumberEvent(n), g, s, s + [NumberOf(n)]);
    case _ =>
  }

  /** The number of stack entries a closing event pops. */
  function Popped(e: Event): nat {
    match e
    case EndArray(n) => n
    case EndObject(n) => 2 * n
    case _ => 0
  }

  /**
    Closing a container with no more entries than were pushed since it was opened: a count that wrapped around is too
    small.
   */
  lemma {:induction false} EndStacked(c: Cursor, e: Event, g: Rules, before: nat, t: seq<GenericValue>)
    requires Fold([], c.events) == Some(t) && |t| > before + Popped(e) && (e.EndArray? || e.EndObject?)
    ensures Stacked(Emit(c, e, g), before) && (c.rest != [] ==> Stacked(EndThenTake(c, e, g), before))
  {
    EmitStacked(c, e, g, t, Apply(t, e).value);
  }

  lemma {:induction false} ValueStacked(c: Cursor, g: Rules, s: seq<GenericValue>)
    requires c.error.None? && Fold([], c.events) == Some(s)
    ensures Stacked(Value(c, g), |s|)
    decreases |c.rest|, 1
  {
    match Next(c)
    case Some(LeftBracket) =>
      var o := s + [ArrayValue([])];
      EmitStacked(Take(c), StartArray, g, s, o);
      var d := Emit(Take(c), StartArray, g);
      assert Value(c, g) == Array(c, g);
      if d.error.None? {
        if Next(d) == Some(RightBracket) {
          EndStacked(Take(d), EndArray(0), g, |s|, o);
        } else {
          ElementsStacked(d, 0, g, |s|, o);
        }
      }
    case Some(LeftCurly) =>
      var o := s + [ObjectValue([])];
      EmitStacked(Take(c), StartObject, g, s, o);
      var d := Emit(Take(c), StartObject, g);
      assert Value(c, g) == Object(c, g);
      if d.error.None? {
        if Next(d) == Some(RightCurly) {
          EndStacked(Take(d), EndObject(0), g, |s|, o);
        } else {
          MembersStacked(d, 0, g, |s|, o);
        }
      }
    case _ =>
      ScalarStacked(c, g, s);
  }

  lemma {:induction false} ElementsStacked(c: Cursor, count: nat, g: Rules, before: nat, t: seq<GenericValue>)
    requires c.error.None? && Fold([], c.events) == Some(t) && |t| > before + count
    ensures Stacked(Elements(c, count, g), before)
    decreases |c.rest|, 2
  {
    ValueStacked(c, g, t);
    var v := Value(c, g);
    if v.error.None? {
      ElementEndStacked(v, count, g, before, Fold([], v.events).value);
    }
  }

  lemma {:induction false} ElementEndStacked(c: Cursor, count: nat, g: Rules, before: nat, t: seq<GenericValue>)
    requires c.error.None? && Fold([], c.events) == Some(t) && |t| > before + count + 1
    ensures Stacked(ElementEnd(c, count, g), before)
    decreases |c.rest|, 3
  {
    assert Increment(count) <= count + 1;
    match Next(c)
    case Some(Comma) =>
      var d := Take(c);
      if g.trailingCommas && Next(d) == Some(RightBracket) {
        EndStacked(d, EndArray(Increment(count)), g, before, t);
      } else {
        ElementsStacked(d, Increment(count), g, before, t);
      }
    case Some(RightBracket) =>
      EndStacked(Take(c), EndArray(Increment(count)), g, before, t);
    case _ =>
  }

  lemma {:induction false} MembersStacked(c: Cursor, count: nat, g: Rules, before: nat, t: seq<GenericValue>)
    requires c.error.None? && Fold([], c.events) == Some(t) && |t| > before + 2 * count
    ensures Stacked(Members(c, count, g), before)
    decreases |c.rest|, 2
  {
    if c.rest != [] && c.rest[0].Quoted? && c.rest[0].text.Good? {
      var name := c.rest[0].text.value;
      var k := Name(c, g);
      var o := t + [StringValue(name)];
      EmitStacked(Take(c), KeyEvent(name), g, t, o);
      assert Members(c, count, g) == if k.error.Some? then k else NamedValue(k, count, g);
      if k.error.None? && Next(k) == Some(Colon) {
        ValueStacked(Take(k), g, o);
        var v := Value(Take(k), g);
        if v.error.None? {
          MemberEndStacked(v, count, g, before, Fold([], v.events).value);
        }
      }
    }
  }

  lemma {:induction false} MemberEndStacked(c: Cursor, count: nat, g: Rules, before: nat, t: seq<GenericValue>)
    requires c.error.None? && Fold([], c.events) == Some(t) && |t| > before + 2 * count + 2
    ensures Stacked(MemberEnd(c, count, g), before)
    decreases |c.rest|, 3
  {
    assert Increment(count) <= count + 1;
    match Next(c)
    case Some(Comma) =>
      var d := Take(c);
      if g.trailingCommas && Next(d) == Some(RightCurly) {
        EndStacked(d, EndObject(Increment(count)), g, before, t);
      } else {
        MembersStacked(d, Increment(count), g, before, t);
      }
    case Some(RightCurly) =>
      EndStacked(Take(c), EndObject(Increment(count)), g, before, t);
    case _ =>
  }

  /** The events of any parse, failed or not, never pop below the base of the stack. */
  lemma {:induction false} ParseNeverUnderflows(input: seq<Lexeme>, g: Rules)
    ensures Fold([], DescentDocument(Cursor(input, [], None), g).events).Some?
  {
    if input != [] {
      ValueStacked(Cursor(input, [], None), g, []);
    }
  }

  // ---- The tree that the events of a value build ----

  function ValueOf(v: Json): GenericValue
    decreases v
  {
    match v
    case JsonNull => NullValue
    case JsonBool(b) => BoolValue(b)
    case JsonNumber(n) => NumberOf(n)
    case JsonString(text) => StringValue(text)
    case JsonArray(items, _) => ArrayValue(ValuesOf(items))
    case JsonObject(members, _) => ObjectValue(MembersOf(members))
  }

  function ValuesOf(items: seq<Json>): (r: seq<GenericValue>)
    ensures |r| == |items|
    decreases items
  {
    if items == [] then [] else [ValueOf(items[0])] + ValuesOf(items[1..])
  }

  function MembersOf(members: seq<JsonMember>): (r: seq<Member>)
    ensures |r| == |members|
    decreases members
  {
    if members == [] then [] else [Member(StringValue(members[0].name),
        ValueOf(members[0].value))] + MembersOf(members[1..])
  }

  /** `t` is the tree of the value `v`, looked at node by node. */
  ghost predicate Represents(t: GenericValue, v: Json)
    decreases v
  {
    match v
    case JsonNull => t.NullValue?
    case JsonBool(b) => t.BoolValue? && t.b == b
    case JsonNumber(n) => StandsForNumber(t, n)
    case JsonString(text) => t.StringValue? && t.text == text
    case JsonArray(items, _) =>
      && t.ArrayValue? && |t.elements| == |items|
      && forall i :: 0 <= i < |items| ==> Represents(t.elements[i], items[i])
    case JsonObject(members, _) =>
      && t.ObjectValue? && |t.members| == |members|
      && forall i :: 0 <= i < |members| ==>
           && t.members[i].name == StringValue(members[i].name)
           && Represents(t.members[i].value, members[i].value)
  }

  lemma {:induction false} ValueRepresents(v: Json)
    ensures Represents(ValueOf(v), v)
    decreases v
  {
    match v
    case JsonNumber(n) => NumberKinds(n);
    case JsonArray(items, _) =>
      forall i | 0 <= i < |items| ensures Represents(ValuesOf(items)[i], items[i]) {
        ValuesAt(items, i);
        ValueRepresents(items[i]);
      }
    case JsonObject(members, _) =>
      forall i | 0 <= i < |members|
        ensures MembersOf(members)[i].name == StringValue(members[i].name)
        ensures Represents(MembersOf(members)[i].value, members[i].value)
      {
        MembersAt(members, i);
        ValueRepresents(members[i].value);
      }
    case _ =>
  }

  lemma {:induction false} ValuesAt(items: seq<Json>, i: nat)
    requires i < |items|
    ensures ValuesOf(items)[i] == ValueOf(items[i])
  {
    if i > 0 {
      ValuesAt(items[1..], i - 1);
    }
  }

  lemma {:induction false} MembersAt(members: seq<JsonMember>, i: nat)
    requires i < |members|
    ensures MembersOf(members)[i] == Member(StringValue(members[i].name), ValueOf(members[i].value))
  {
    if i > 0 {
      MembersAt(members[1..], i - 1);
    }
  }

  /** Names and values in turn, as they lie on the stack. */
  function Flat(members: seq<Member>): (r: seq<GenericValue>)
    ensures |r| == 2 * |members|
  {
    if members == [] then [] else [members[0].name, members[0].value] + Flat(members[1..])
  }

  lemma {:induction false} PairsOfFlat(members: seq<Member>)
    ensures Pairs(Flat(members)) == members
  {
    if members != [] {
      var flat, rest := Flat(members), Flat(members[1..]);
      PairsOfFlat(members[1..]);
      forall i | 0 <= i < |members| ensures Pairs(flat)[i] == members[i] {
        if i > 0 {
          assert Pairs(rest)[i - 1] == members[1..][i - 1];
        }
      }
    }
  }

  /** No array or object of the tree has 2^32 entries or more. */
  predicate Fits(v: Json)
    decreases v
  {
    match v
    case JsonArray(items, _) => |items| < COUNT_MODULUS && ItemsFit(items)
    case JsonObject(members, _) => |members| < COUNT_MODULUS && MembersFit(members)
    case _ => true
  }

  predicate ItemsFit(items: seq<Json>)
    decreases items
  {
    items != [] ==> Fits(items[0]) && ItemsFit(items[1..])
  }

  predicate MembersFit(members: seq<JsonMember>)
    decreases members
  {
    members != [] ==> Fits(members[0].value) && MembersFit(members[1..])
  }

  lemma {:induction false} FoldConcat(base: seq<GenericValue>, a: seq<Event>, b: seq<Event>, s: seq<GenericValue>)
    requires Fold(base, a) == Some(s)
    ensures Fold(base, a + b) == Fold(s, b)
  {
    if b == [] {
      assert a + b == a;
    } else {
      var last := |b| - 1;
      FoldConcat(base, a, b[..last], s);
      assert (a + b)[..|a| + last] == a + b[..last];
    }
  }

  /** The events turn the stack `s` into `t`. */
  ghost predicate Builds(s: seq<GenericValue>, events: seq<Event>, t: seq<GenericValue>) {
    forall k :: Folding.Open(k) ==> Fold(s, events) == Some(t)
  }

  lemma {:induction false} BuildsNothing(s: seq<GenericValue>)
    ensures Builds(s, [], s)
  {
  }

  lemma {:induction false} BuildsOne(s: seq<GenericValue>, e: Event, t: seq<GenericValue>)
    requires Apply(s, e) == Some(t)
    ensures Builds(s, [e], t)
  {
    assert [e][..0] == [];
  }

  lemma {:induction false} BuildsBoth(s: seq<GenericValue>, a: seq<Event>, t: seq<GenericValue>, b: seq<Event>,
                                      u: seq<GenericValue>)
    requires Builds(s, a, t) && Builds(t, b, u)
    ensures Builds(s, a + b, u)
  {
    assert Folding.Open(0);
    FoldConcat(s, a, b, t);
  }

  /** The events of an array or object: opening, contents, closing. */
  lemma {:induction false} BuildsEnclosed(s: seq<GenericValue>, first: Event, o: seq<GenericValue>, middle: seq<Event>,
                                          t: seq<GenericValue>, last: Event, u: seq<GenericValue>)
    requires Apply(s, first) == Some(o) && Builds(o, middle, t) && Apply(t, last) == Some(u)
    ensures Builds(s, [first] + (middle + [last]), u)
  {
    BuildsOne(s, first, o);
    BuildsOne(t, last, u);
    BuildsBoth(o, middle, t, [last], u);
    BuildsBoth(s, [first], o, middle + [last], u);
  }

  /** Closing an array or object over exactly what was pushed since it was opened. */
  lemma {:induction false} ApplyEnd(s: seq<GenericValue>, head: GenericValue, pushed: seq<GenericValue>, e: Event)
    requires (e.EndArray? && e.elementCount == |pushed|) || (e.EndObject? && 2 * e.memberCount == |pushed|)
    ensures Apply(s + [head] + pushed, e)
            == Some(s + [if e.EndArray? then ArrayValue(pushed) else ObjectValue(Pairs(pushed))])
  {
    var t := s + [head] + pushed;
    assert t[|s| + 1..] == pushed && t[..|s|] == s;
  }

  /** The events of a value push exactly the value they stand for. */
  lemma {:induction false} EventsBuild(v: Json, s: seq<GenericValue>)
    requires Fits(v)
    ensures Builds(s, EventsOf(v), s + [ValueOf(v)])
    decreases v
  {
    match v
    case JsonArray(items, comma) => ArrayBuilds(items, comma, s);
    case JsonObject(members, comma) => ObjectBuilds(members, comma, s);
    case JsonNull => BuildsOne(s, NullEvent, s + [NullValue]);
    case JsonBool(b) => BuildsOne(s, BoolEvent(b), s + [BoolValue(b)]);
    case JsonNumber(n) => BuildsOne(s, NumberEvent(n), s + [NumberOf(n)]);
    case JsonString(text) => BuildsOne(s, StringEvent(text), s + [StringValue(text)]);
  }

  lemma {:induction false} ArrayEvents(items: seq<Json>, comma: bool)
    requires |items| < COUNT_MODULUS
    ensures EventsOf(JsonArray(items, comma)) == [StartArray] + (ItemEvents(items) + [EndArray(|items|)])
  {
  }

  lemma {:induction false} ObjectEvents(members: seq<JsonMember>, comma: bool)
    requires |members| < COUNT_MODULUS
    ensures EventsOf(JsonObject(members, comma)) == [StartObject] + (MemberEvents(members) + [EndObject(|members|)])
  {
  }

  lemma {:induction false} ArrayBuilds(items: seq<Json>, comma: bool, s: seq<GenericValue>)
    requires |items| < COUNT_MODULUS && ItemsFit(items)
    ensures Builds(s, EventsOf(JsonArray(items, comma)), s + [ValueOf(JsonArray(items, comma))])
    decreases items, 1
  {
    var o, values, e := s + [ArrayValue([])], ValuesOf(items), EndArray(|items|);
    ArrayEvents(items, comma);
    ItemsBuild(items, o);
    ApplyEnd(s, ArrayValue([]), values, e);
    BuildsEnclosed(s, StartArray, o, ItemEvents(items), o + values, e, s + [ArrayValue(values)]);
  }

  lemma {:induction false} ObjectBuilds(members: seq<JsonMember>, comma: bool, s: seq<GenericValue>)
    requires |members| < COUNT_MODULUS && MembersFit(members)
    ensures Builds(s, EventsOf(JsonObject(members, comma)), s + [ValueOf(JsonObject(members, comma))])
    decreases members, 1
  {
    var o, flat, e := s + [ObjectValue([])], Flat(MembersOf(members)), EndObject(|members|);
    ObjectEvents(members, comma);
    MembersBuild(members, o);
    ApplyEnd(s, ObjectValue([]), flat, e);
    PairsOfFlat(MembersOf(members));
    BuildsEnclosed(s, StartObject, o, MemberEvents(members), o + flat, e, s + [ObjectValue(MembersOf(members))]);
  }

  lemma {:induction false} ItemsBuild(items: seq<Json>, s: seq<GenericValue>)
    requires ItemsFit(items)
    ensures Builds(s, ItemEvents(items), s + ValuesOf(items))
    decreases items, 0
  {
    if items == [] {
      BuildsNothing(s);
      assert s + [] == s;
    } else {
      var t := s + [ValueOf(items[0])];
      EventsBuild(items[0], s);
      ItemsBuild(items[1..], t);
      BuildsBoth(s, EventsOf(items[0]), t, ItemEvents(items[1..]), t + ValuesOf(items[1..]));
      Assoc(s, [ValueOf(items[0])], ValuesOf(items[1..]));
    }
  }

  lemma {:induction false} MembersBuild(members: seq<JsonMember>, s: seq<GenericValue>)
    requires MembersFit(members)
    ensures Builds(s, MemberEvents(members), s + Flat(MembersOf(members)))
    decreases members, 0
  {
    if members == [] {
      BuildsNothing(s);
      assert s + [] == s;
    } else {
      var name, v, more := members[0].name, members[0].value, members[1..];
      var n := s + [StringValue(name)];
      var t := n + [ValueOf(v)];
      BuildsOne(s, KeyEvent(name), n);
      EventsBuild(v, n);
      BuildsBoth(s, [KeyEvent(name)], n, EventsOf(v), t);
      MembersBuild(more, t);
      BuildsBoth(s, [KeyEvent(name)] + EventsOf(v), t, MemberEvents(more), t + Flat(MembersOf(more)));
      FlatTail(members, s);
    }
  }

  lemma {:induction false} FlatTail(members: seq<JsonMember>, s: seq<GenericValue>)
    requires members != []
    ensures s + Flat(MembersOf(members))
         == s + [StringValue(members[0].name)] + [ValueOf(members[0].value)] + Flat(MembersOf(members[1..]))
  {
    assert MembersOf(members)[1..] == MembersOf(members[1..]);
  }

  /** A spelled value is parsed to the tree it stands for. */
  lemma {:induction false} SpelledTree(v: Json, g: Rules)
    requires Willing(g) && Allowed(v, g) && Fits(v)
    ensures Fold([], DescentDocument(Cursor(Lexemes(v), [], None), g).events) == Some([ValueOf(v)])
  {
    SpelledEvents(v, g);
    EventsBuild(v, []);
    assert [] + [ValueOf(v)] == [ValueOf(v)];
    assert Folding.Open(0);
  }

  // ---- How many values a parse leaves ----

  /** The entries that closing a container of `n` leaves behind because its count has wrapped around. */
  function Unpopped(n: nat): nat {
    n - n % COUNT_MODULUS
  }

  /** The stack entries that the events of a value leave besides the value itself. */
  function Leftover(v: Json): nat
    decreases v
  {
    match v
    case JsonArray(items, _) => Unpopped(|items|) + ItemsLeftover(items)
    case JsonObject(members, _) => 2 * Unpopped(|members|) + MembersLeftover(members)
    case _ => 0
  }

  function ItemsLeftover(items: seq<Json>): nat
    decreases items
  {
    if items == [] then 0 else Leftover(items[0]) + ItemsLeftover(items[1..])
  }

  function MembersLeftover(members: seq<JsonMember>): nat
    decreases members
  {
    if members == [] then 0 else Leftover(members[0].value) + MembersLeftover(members[1..])
  }

  lemma {:induction false} UnpoppedNothing(n: nat)
    ensures Unpopped(n) == 0 <==> n < COUNT_MODULUS
  {
  }

  /** Nothing is left over exactly if no container has 2^32 entries or more. */
  lemma {:induction false} LeftoverFits(v: Json)
    ensures Leftover(v) == 0 <==> Fits(v)
    decreases v
  {
    match v
    case JsonArray(items, _) =>
      UnpoppedNothing(|items|);
      ItemsLeftoverFit(items);
    case JsonObject(members, _) =>
      UnpoppedNothing(|members|);
      MembersLeftoverFit(members);
    case _ =>
  }

  lemma {:induction false} ItemsLeftoverFit(items: seq<Json>)
    ensures ItemsLeftover(items) == 0 <==> ItemsFit(items)
    decreases items
  {
    if items != [] {
      LeftoverFits(items[0]);
      ItemsLeftoverFit(items[1..]);
    }
  }

  lemma {:induction false} MembersLeftoverFit(members: seq<JsonMember>)
    ensures MembersLeftover(members) == 0 <==> MembersFit(members)
    decreases members
  {
    if members != [] {
      LeftoverFits(members[0].value);
      MembersLeftoverFit(members[1..]);
    }
  }

  /** The events leave `n` entries more on the stack `s`. */
  ghost predicate Raises(s: seq<GenericValue>, events: seq<Event>, n: nat) {
    exists t :: Builds(s, events, t) && |t| == |s| + n
  }

  lemma {:induction false} RaisesBoth(s: seq<GenericValue>, a: seq<Event>, n: nat, b: seq<Event>, m: nat)
    requires Raises(s, a, n) && forall t :: |t| == |s| + n ==> Raises(t, b, m)
    ensures Raises(s, a + b, n + m)
  {
    var t :| Builds(s, a, t) && |t| == |s| + n;
    var u :| Builds(t, b, u) && |u| == |t| + m;
    BuildsBoth(s, a, t, b, u);
  }

  lemma {:induction false} RaisesOne(s: seq<GenericValue>, e: Event, n: nat)
    requires Apply(s, e).Some? && |Apply(s, e).value| == |s| + n
    ensures Raises(s, [e], n)
  {
    BuildsOne(s, e, Apply(s, e).value);
  }

  /** An opening event, contents that raise the stack by `n`, and a closing event. */
  lemma {:induction false} RaisesEnclosed(s: seq<GenericValue>, first: Event, middle: seq<Event>, n: nat, last: Event)
    requires first.StartArray? || first.StartObject?
    requires (last.EndArray? || last.EndObject?) && Popped(last) <= n
    requires forall o :: |o| == |s| + 1 ==> Raises(o, middle, n)
    ensures Raises(s, [first] + (middle + [last]), 1 + n - Popped(last))
  {
    var o := Apply(s, first).value;
    var t :| Builds(o, middle, t) && |t| == |o| + n;
    var u := Apply(t, last).value;
    BuildsEnclosed(s, first, o, middle, t, last, u);
  }

  /** The events of a value leave one entry and what is left over. */
  lemma {:induction false} EventsRaise(v: Json, s: seq<GenericValue>)
    ensures Raises(s, EventsOf(v), 1 + Leftover(v))
    decreases v, 0
  {
    match v
    case JsonArray(items, _) =>
      forall o: seq<GenericValue> | |o| == |s| + 1 ensures Raises(o, ItemEvents(items),
          |items| + ItemsLeftover(items)) {
        ItemsRaise(items, o);
      }
      RaisesEnclosed(s, StartArray, ItemEvents(items), |items| + ItemsLeftover(items),
          EndArray(|items| % COUNT_MODULUS));
    case JsonObject(members, _) =>
      forall o: seq<GenericValue> | |o| == |s| + 1 ensures Raises(o, MemberEvents(members),
          2 * |members| + MembersLeftover(members)) {
        MembersRaise(members, o);
      }
      RaisesEnclosed(s, StartObject, MemberEvents(members), 2 * |members| + MembersLeftover(members),
                     EndObject(|members| % COUNT_MODULUS));
    case JsonNull => RaisesOne(s, NullEvent, 1);
    case JsonBool(b) => RaisesOne(s, BoolEvent(b), 1);
    case JsonNumber(n) => RaisesOne(s, NumberEvent(n), 1);
    case JsonString(text) => RaisesOne(s, StringEvent(text), 1);
  }

  lemma {:induction false} ItemsRaise(items: seq<Json>, s: seq<GenericValue>)
    ensures Raises(s, ItemEvents(items), |items| + ItemsLeftover(items))
    decreases items
  {
    if items == [] {
      BuildsNothing(s);
    } else {
      EventsRaise(items[0], s);
      var n, m := 1 + Leftover(items[0]), |items[1..]| + ItemsLeftover(items[1..]);
      forall t: seq<GenericValue> | |t| == |s| + n ensures Raises(t, ItemEvents(items[1..]), m) {
        ItemsRaise(items[1..], t);
      }
      RaisesBoth(s, EventsOf(items[0]), n, ItemEvents(items[1..]), m);
    }
  }

  lemma {:induction false} MembersRaise(members: seq<JsonMember>, s: seq<GenericValue>)
    ensures Raises(s, MemberEvents(members), 2 * |members| + MembersLeftover(members))
    decreases members
  {
    if members == [] {
      BuildsNothing(s);
    } else {
      var v, more := members[0].value, members[1..];
      var n, m := 1 + Leftover(v), 2 * |more| + MembersLeftover(more);
      RaisesOne(s, KeyEvent(members[0].name), 1);
      forall t: seq<GenericValue> | |t| == |s| + 1 ensures Raises(t, EventsOf(v), n) {
        EventsRaise(v, t);
      }
      RaisesBoth(s, [KeyEvent(members[0].name)], 1, EventsOf(v), n);
      forall t: seq<GenericValue> | |t| == |s| + (1 + n) ensures Raises(t, MemberEvents(more), m) {
        MembersRaise(more, t);
      }
      RaisesBoth(s, [KeyEvent(members[0].name)] + EventsOf(v), 1 + n, MemberEvents(more), m);
    }
  }

  /**
    The events of any parse never pop below the base of the stack. Those of a successful one are the events
    of the value read, and leave exactly one value if and only if no container of it has 2^32 entries or more;
    it is then the tree the value stands for.
   */
  lemma {:induction false} ParseLeavesOneValue(input: seq<Lexeme>, g: Rules) returns (v: Json)
    ensures var r := DescentDocument(Cursor(input, [], None), g);
            && Fold([], r.events).Some?
            && (r.error.None? ==>
                  && r.events == EventsOf(v)
                  && |Fold([], r.events).value| == 1 + Leftover(v)
                  && (|Fold([], r.events).value| == 1 <==> Fits(v))
                  && (Fits(v) ==> Fold([], r.events).value == [ValueOf(v)]))
  {
    var c := Cursor(input, [], None);
    ParseNeverUnderflows(input, g);
    v := JsonNull;
    if DescentDocument(c, g).error.None? {
      v := ValueReads(c, g);
      assert [] + EventsOf(v) == EventsOf(v);
      LeavesOneValue(v);
    }
  }

  lemma {:induction false} LeavesOneValue(v: Json)
    ensures Fold([], EventsOf(v)).Some? && |Fold([], EventsOf(v)).value| == 1 + Leftover(v)
    ensures |Fold([], EventsOf(v)).value| == 1 <==> Fits(v)
    ensures Fits(v) ==> Fold([], EventsOf(v)).value == [ValueOf(v)]
  {
    EventsRaise(v, []);
    LeftoverFits(v);
    assert Folding.Open(0);
    if Fits(v) {
      EventsBuild(v, []);
      assert [] + [ValueOf(v)] == [ValueOf(v)];
    }
  }

  lemma {:induction false} NullsPlain(items: seq<Json>)
    requires forall i :: 0 <= i < |items| ==> items[i].JsonNull?
    ensures ItemsPlain(items)
  {
    if items != [] {
      NullsPlain(items[1..]);
    }
  }

  /** An array of 2^32 nulls is accepted, and leaves its elements on the stack. */
  lemma {:induction false} WrappedCountFails(g: Rules) returns (input: seq<Lexeme>)
    requires Willing(g)
    ensures var r := DescentDocument(Cursor(input, [], None), g);
            r.error.None? && Fold([], r.events).Some? && |Fold([], r.events).value| != 1
  {
    var v := JsonArray(seq(COUNT_MODULUS, _ => JsonNull), false);
    NullsPlain(v.items);
    SpelledEvents(v, g);
    LeavesOneValue(v);
    input := Lexemes(v);
  }

  // ---- Reporting a tree and building it again ----

  /** A tree as the constructors and the handler make them: numbers from the constructors, names that are strings. */
  ghost predicate WellBuilt(v: GenericValue)
    decreases v
  {
    match v
    case NumberValue(_, _) => exists n :: v == NumberOf(n)
    case ArrayValue(elements) => |elements| < COUNT_MODULUS
        && forall i :: 0 <= i < |elements| ==> WellBuilt(elements[i])
    case ObjectValue(members) =>
      |members| < COUNT_MODULUS
      && forall i :: 0 <= i < |members| ==> members[i].name.StringValue? && WellBuilt(members[i].value)
    case _ => true
  }

  /** Every handler method of a document answers true. */
  function Willingly(events: seq<Event>): bool {
    true
  }

  function DocumentRules(trailingCommas: bool, stopWhenDone: bool): Rules {
    Rules(Willingly, trailingCommas, stopWhenDone)
  }

  /** The handler methods of a document. */
  class Document {
    var stack: seq<GenericValue>
    var root: GenericValue

    constructor ()
      ensures stack == [] && root == NullValue
    {
      stack, root := [], NullValue;
    }

    method Null() returns (ok: bool)
      modifies `stack
      ensures ok && Some(stack) == Apply(old(stack), NullEvent)
    {
      stack := stack + [NullValue];
      ok := true;
    }

    method Bool(b: bool) returns (ok: bool)
      modifies `stack
      ensures ok && Some(stack) == Apply(old(stack), BoolEvent(b))
    {
      stack := stack + [BoolValue(b)];
      ok := true;
    }

    /** Int, Uint, Int64, Uint64 and Double. */
    method Number(n: JsonEvents.Number) returns (ok: bool)
      modifies `stack
      ensures ok && Some(stack) == Apply(old(stack), NumberEvent(n))
      ensures StandsForNumber(Last(stack), n)
    {
      NumberKinds(n);
      stack := stack + [NumberOf(n)];
      ok := true;
    }

    method String(text: string) returns (ok: bool)
      modifies `stack
      ensures ok && Some(stack) == Apply(old(stack), StringEvent(text))
    {
      stack := stack + [StringValue(text)];
      ok := true;
    }

    method Key(text: string) returns (ok: bool)
      modifies `stack
      ensures ok && Some(stack) == Apply(old(stack), KeyEvent(text))
    {
      ok := String(text);
    }

    method StartObject() returns (ok: bool)
      modifies `stack
      ensures ok && Some(stack) == Apply(old(stack), Event.StartObject)
    {
      stack := stack + [ObjectValue([])];
      ok := true;
    }

    /** Pops the members and stores them in the value below. */
    method EndObject(memberCount: nat) returns (ok: bool)
      requires 2 * memberCount < |stack|
      modifies `stack
      ensures ok && Some(stack) == Apply(old(stack), Event.EndObject(memberCount))
    {
      ghost var before := stack;
      var top := |stack| - 2 * memberCount;
      var members := Pairs(stack[top..]);
      stack := stack[..top];
      stack := stack[|stack| - 1 := ObjectValue(members)];
      assert stack == before[..top - 1] + [ObjectValue(members)];
      ok := true;
    }

    method StartArray() returns (ok: bool)
      modifies `stack
      ensures ok && Some(stack) == Apply(old(stack), Event.StartArray)
    {
      stack := stack + [ArrayValue([])];
      ok := true;
    }

    method EndArray(elementCount: nat) returns (ok: bool)
      requires elementCount < |stack|
      modifies `stack
      ensures ok && Some(stack) == Apply(old(stack), Event.EndArray(elementCount))
    {
      ghost var before := stack;
      var top := |stack| - elementCount;
      var elements := stack[top..];
      stack := stack[..top];
      stack := stack[|stack| - 1 := ArrayValue(elements)];
      assert stack == before[..top - 1] + [ArrayValue(elements)];
      ok := true;
    }

    /** One handler call. */
    method Handle(e: Event)
      requires Apply(stack, e).Some?
      modifies `stack
      ensures Some(stack) == Apply(old(stack), e)
    {
      var ok: bool;
      match e {
        case NullEvent => ok := Null();
        case BoolEvent(b) => ok := Bool(b);
        case NumberEvent(n) => ok := Number(n);
        case StringEvent(text) => ok := String(text);
        case KeyEvent(text) => ok := Key(text);
        case StartObject => ok := StartObject();
        case EndObject(n) => ok := EndObject(n);
        case StartArray => ok := StartArray();
        case EndArray(n) => ok := EndArray(n);
      }
    }

    /** Takes up the calls of a parse in their order. */
    method Replay(events: seq<Event>)
      requires stack == [] && Fold([], events).Some?
      modifies `stack
      ensures Some(stack) == Fold([], events)
    {
      var i := 0;
      while i < |events|
        invariant i <= |events| && Some(stack) == Fold([], events[..i])
      {
        FoldPrefix(events, i + 1);
        assert events[..i + 1][..i] == events[..i];
        Handle(events[i]);
        i := i + 1;
      }
      assert events[..|events|] == events;
    }

    /**
      Parses a document; it succeeds exactly for the JSON texts. The calls the reader makes are replayed in their
      order. `v` is the value read; the document becomes its tree unless a container has 2^32 entries or more; then
      it becomes the value on top.
     */
    method ParseStream(input: seq<Lexeme>, trailingCommas: bool, stopWhenDone: bool)
      returns (error: Option<ErrorCode>, ghost v: Json)
      requires stack == []
      modifies this
      ensures var g := DocumentRules(trailingCommas, stopWhenDone);
              var r := JsonDescent.DescentDocument(Cursor(input, [], None), g);
              && error == r.error && stack == []
              && (error.None? <==>
                    exists w :: Allowed(w, g) && Lexemes(w) <= input && (stopWhenDone || Lexemes(w) == input))
              && (error.Some? ==> root == old(root))
              && (error.None? ==>
                    && r.events == EventsOf(v) && Fold([], r.events).Some? && Fold([], r.events).value != []
                    && root == Last(Fold([], r.events).value)
                    && (Fits(v) ==> root == ValueOf(v) && Represents(root, v)))
    {
      var g := DocumentRules(trailingCommas, stopWhenDone);
      v := ParseLeavesOneValue(input, g);
      AcceptsExactly(input, g);
      ValueRepresents(v);
      var reader := new Reader(g, input);
      reader.Parse();
      error := reader.parseResult;
      Replay(reader.events);
      if error.None? {
        root := stack[|stack| - 1];
      }
      stack := [];
    }
  }

  /** If the whole history is fine, so is every part of it. */
  lemma {:induction false} FoldPrefix(events: seq<Event>, n: nat)
    requires n <= |events| && Fold([], events).Some?
    ensures Fold([], events[..n]).Some?
    decreases |events|
  {
    if n == |events| {
      assert events[..n] == events;
    } else {
      var most := events[..|events| - 1];
      FoldPrefix(most, n);
      assert most[..n] == events[..n];
    }
  }

  /** Accept with a document as its handler pushes an equal tree, kinds of numbers included. */
  method Accept(v: GenericValue, doc: Document) returns (ok: bool)
    requires WellBuilt(v)
    modifies doc`stack
    ensures ok && doc.stack == old(doc.stack) + [v]
    decreases v
  {
    match v {
      case NullValue => ok := doc.Null();
      case BoolValue(b) => ok := doc.Bool(b);
      case ObjectValue(members) => ok := AcceptObject(v, doc);
      case ArrayValue(elements) => ok := AcceptArray(v, doc);
      case StringValue(text) => ok := doc.String(text);
      case NumberValue(flags, payload) =>
        ghost var n :| v == NumberOf(n);
        NumberRoundTrip(n);
        ok := doc.Number(Reported(flags, payload));
    }
  }

  method AcceptArray(v: GenericValue, doc: Document) returns (ok: bool)
    requires v.ArrayValue? && WellBuilt(v)
    modifies doc`stack
    ensures ok && doc.stack == old(doc.stack) + [v]
    decreases v, 0
  {
    var elements := v.elements;
    ok := doc.StartArray();
    if !ok {
      return;
    }
    ghost var o := old(doc.stack) + [ArrayValue([])];
    for i := 0 to |elements|
      invariant doc.stack == o + elements[..i]
    {
      ok := Accept(elements[i], doc);
      if !ok {
        return;
      }
    }
    assert elements[..|elements|] == elements && (o + elements)[|o|..] == elements;
    ok := doc.EndArray(|elements|);
  }

  method AcceptObject(v: GenericValue, doc: Document) returns (ok: bool)
    requires v.ObjectValue? && WellBuilt(v)
    modifies doc`stack
    ensures ok && doc.stack == old(doc.stack) + [v]
    decreases v, 0
  {
    var members := v.members;
    ok := doc.StartObject();
    if !ok {
      return;
    }
    ghost var o := old(doc.stack) + [ObjectValue([])];
    for i := 0 to |members|
      invariant doc.stack == o + Flat(members[..i])
    {
      ok := doc.Key(members[i].name.text);
      if !ok {
        return;
      }
      ok := Accept(members[i].value, doc);
      if !ok {
        return;
      }
      FlatGrows(members, i);
    }
    assert members[..|members|] == members && (o + Flat(members))[|o|..] == Flat(members);
    PairsOfFlat(members);
    ok := doc.EndObject(|members|);
  }

  lemma {:induction false} FlatGrows(members: seq<Member>, i: nat)
    requires i < |members|
    ensures Flat(members[..i + 1]) == Flat(members[..i]) + [members[i].name, members[i].value]
  {
    if i > 0 {
      FlatGrows(members[1..], i - 1);
      assert members[..i + 1][1..] == members[1..][..i] && members[..i][1..] == members[1..][..i - 1];
    }
  }
}
