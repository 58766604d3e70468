/**
  JSON Pointer (sections 3, 4 and 6 of RFC 6901): reading the string and the URI fragment form of a
  pointer, and writing them, over UTF-8 bytes.
 */
module JsonPointers {
  import opened Options
  import opened Folding
  import opened Sequences
  import opened Utf8

  const SOLIDUS: bv8 := 0x2F
  const TILDE: bv8 := 0x7E
  const PERCENT: bv8 := 0x25
  const NUMBER_SIGN: bv8 := 0x23
  const ZERO: bv8 := 0x30
  const ONE: bv8 := 0x31

  const SIZE_MODULUS: nat := 0x1_0000_0000
  const INVALID_INDEX: nat := 0xFFFF_FFFF

  datatype ParseError = TokenMustBeginWithSolidus | InvalidEscape | InvalidPercentEncoding | CharacterMustPercentEncode

  predicate IsDigit(c: bv8) {
    0x30 <= c <= 0x39
  }

  /** Characters outside the unreserved set of section 2.3 of RFC 3986. */
  predicate NeedPercentEncode(c: bv8) {
    !(IsDigit(c) || 0x41 <= c <= 0x5A || 0x61 <= c <= 0x7A || c == 0x2D || c == 0x2E || c == 0x5F || c == TILDE)
  }

  // ---- Percent encoding ----

  function HexDigit(u: bv8): bv8
    requires u <= 15
  {
    if u <= 9 then 0x30 + u else 0x37 + u
  }

  predicate IsHex(h: bv8) {
    IsDigit(h) || 0x41 <= h <= 0x46 || 0x61 <= h <= 0x66
  }

  function HexValue(h: bv8): bv8
    requires IsHex(h)
  {
    if IsDigit(h) then h - 0x30 else if h <= 0x46 then h - 0x37 else h - 0x57
  }

  function High(u: bv8): (h: bv8)
    ensures h <= 15
  {
    u >> 4
  }

  function Low(u: bv8): (h: bv8)
    ensures h <= 15
  {
    u & 15
  }

  function Nibbles(h: bv8, l: bv8): bv8 {
    (h << 4) + l
  }

  function Triplet(u: bv8): seq<bv8> {
    [PERCENT, HexDigit(High(u)), HexDigit(Low(u))]
  }

  function Triplets(s: seq<bv8>): (r: seq<bv8>)
    ensures |r| == 3 * |s|
  {
    if s == [] then [] else Triplet(s[0]) + Triplets(s[1..])
  }

  /** A percent triplet at the start of `s`. */
  predicate IsTriplet(s: seq<bv8>) {
    |s| >= 3 && s[0] == PERCENT && IsHex(s[1]) && IsHex(s[2])
  }

  function TripletValue(s: seq<bv8>): bv8
    requires IsTriplet(s)
  {
    Nibbles(HexValue(s[1]), HexValue(s[2]))
  }

  lemma {:induction false} HexRoundTrip(u: bv8)
    requires u <= 15
    ensures IsHex(HexDigit(u)) && HexValue(HexDigit(u)) == u
  {
  }

  lemma {:induction false} NibblesRoundTrip(u: bv8)
    ensures Nibbles(High(u), Low(u)) == u
  {
  }

  lemma {:induction false} TripletRoundTrip(u: bv8, tail: seq<bv8>)
    ensures IsTriplet(Triplet(u) + tail) && TripletValue(Triplet(u) + tail) == u
  {
    HexRoundTrip(High(u));
    HexRoundTrip(Low(u));
    NibblesRoundTrip(u);
  }

  // ---- Writing a pointer ----

  /** A name in the string form. */
  function Escaped(name: seq<bv8>): seq<bv8> {
    if name == [] then []
    else
      (if name[0] == TILDE then [TILDE, ZERO] else if name[0] == SOLIDUS then [TILDE,
          ONE] else [name[0]]) + Escaped(name[1..])
  }

  /** A name in the URI fragment form; None if it is not well-formed UTF-8. */
  function UriEscaped(name: seq<bv8>): Option<seq<bv8>>
    decreases |name|
  {
    if name == [] then Some([])
    else if name[0] == TILDE then Prepend([TILDE, ZERO], UriEscaped(name[1..]))
    else if name[0] == SOLIDUS then Prepend([TILDE, ONE], UriEscaped(name[1..]))
    else if !NeedPercentEncode(name[0]) then Prepend([name[0]], UriEscaped(name[1..]))
    else if !StreamDecodable(name) then None
    else Prepend(Triplets(Taken(name, Width(name[0]))), UriEscaped(After(name, Width(name[0]))))
  }

  function Prepend(s: seq<bv8>, r: Option<seq<bv8>>): Option<seq<bv8>> {
    match r
    case None => None
    case Some(t) => Some(s + t)
  }

  function StringForm(names: seq<seq<bv8>>): seq<bv8> {
    if names == [] then [] else [SOLIDUS] + Escaped(names[0]) + StringForm(names[1..])
  }

  function UriTail(names: seq<seq<bv8>>): Option<seq<bv8>> {
    if names == [] then Some([])
    else
      match UriEscaped(names[0])
      case None => None
      case Some(n) => Prepend([SOLIDUS] + n, UriTail(names[1..]))
  }

  function UriForm(names: seq<seq<bv8>>): Option<seq<bv8>> {
    Prepend([NUMBER_SIGN], UriTail(names))
  }

  /** RFC 6901, section 3: a tilde is written as "~0", a solidus as "~1", every other byte as itself. */
  lemma {:induction false} EscapedByte(c: bv8)
    ensures Escaped([c]) == if c == 0x7E then [0x7E, 0x30] else if c == 0x2F then [0x7E, 0x31] else [c]
  {
    assert [c][1..] == [];
  }

  lemma {:induction false} EscapedConcat(a: seq<bv8>, b: seq<bv8>)
    ensures Escaped(a + b) == Escaped(a) + Escaped(b)
  {
    if a == [] {
      assert a + b == b;
    } else {
      assert (a + b)[1..] == a[1..] + b;
      EscapedConcat(a[1..], b);
    }
  }

  /** A percent sign and two digits in base sixteen, in upper case. */
  lemma {:induction false} TripletText(u: bv8)
    ensures var h, l := u / 16, u % 16;
            Triplet(u) == [0x25, if h <= 9 then 0x30 + h else 0x41 + (h - 10),
                if l <= 9 then 0x30 + l else 0x41 + (l - 10)]
  {
    NibblesOf(u);
  }

  lemma {:induction false} NibblesOf(u: bv8)
    ensures High(u) == u / 16 && Low(u) == u % 16
  {
  }

  /** Lower-case digits are read as well. */
  lemma {:induction false} HexLower(h: bv8)
    requires 0x61 <= h <= 0x66
    ensures IsHex(h) && HexValue(h) == h - 0x61 + 10 == HexValue(h - 0x20)
  {
  }

  /** The URI form of an ASCII byte: escapes, the unreserved characters of RFC 3986, and percent triplets. */
  lemma {:induction false} UriAscii(c: bv8)
    requires c <= 0x7F
    ensures UriEscaped([c])
         == Some(if c == 0x7E then [0x7E, 0x30] else if c == 0x2F then [0x7E, 0x31]
                 else if 0x30 <= c <= 0x39 || 0x41 <= c <= 0x5A || 0x61 <= c <= 0x7A || c in [0x2D, 0x2E, 0x5F] then [c]
                 else Triplet(c))
  {
    var name := [c];
    AsciiAlone(c);
    assert name[1..] == [];
    if c == TILDE || c == SOLIDUS || !NeedPercentEncode(c) {
      PrependNothing(if c == TILDE then [TILDE, ZERO] else if c == SOLIDUS then [TILDE, ONE] else [c]);
    } else {
      PrependNothing(Triplets(name));
      assert UriEscaped(name) == Prepend(Triplets(name), UriEscaped(name[1..]));
      assert Triplets(name) == Triplet(c) + Triplets(name[1..]) == Triplet(c);
    }
  }

  lemma {:induction false} PrependNothing(s: seq<bv8>)
    ensures Prepend(s, Some([])) == Some(s)
  {
    assert s + [] == s;
  }

  lemma {:induction false} AsciiAlone(c: bv8)
    requires c <= 0x7F
    ensures Width(c) == 1 && StreamDecodable([c]) && Taken([c], 1) == [c] && After([c], 1) == []
  {
  }

  // ---- Reading a pointer ----

  /** Reading one token: its name, whether it is all digits, and what is left; or an error and where it was found. */
  datatype TokenResult =
    | TokenRead(name: seq<bv8>, isNumber: bool, rest: seq<bv8>)
    | TokenError(code: ParseError, rest: seq<bv8>)

  /** Whether the k-th triplet of `s` is well-formed. */
  predicate TripletAt(s: seq<bv8>, k: nat) {
    IsTriplet(After(s, 3 * k))
  }

  function ByteOf(s: seq<bv8>, k: nat): bv8
    requires TripletAt(s, k)
  {
    TripletValue(After(s, 3 * k))
  }

  predicate AreTriplets(s: seq<bv8>, n: nat) {
    forall k: nat :: k < n ==> TripletAt(s, k)
  }

  /** The bytes of the first n triplets. */
  function Decoded(s: seq<bv8>, n: nat): (r: seq<bv8>)
    requires AreTriplets(s, n)
    ensures |r| == n
  {
    seq(n, k requires 0 <= k < n => ByteOf(s, k))
  }

  /** Percent triplets at the start of `s` that make up one well-formed UTF-8 sequence. */
  predicate IsEncoded(s: seq<bv8>) {
    && IsTriplet(s)
    && AreTriplets(s, Width(TripletValue(s)))
    && StreamDecodable(Decoded(s, Width(TripletValue(s))))
  }

  /** Reading the rest of a token, `name` having been read of it. */
  function ReadName(s: seq<bv8>, uri: bool, name: seq<bv8>, isNumber: bool): TokenResult
    decreases |s|, 1
  {
    if s == [] || s[0] == SOLIDUS then TokenRead(name, isNumber, s)
    else if uri && s[0] == PERCENT then
      if !IsEncoded(s) then TokenError(InvalidPercentEncoding, s)
      else
        var n := Width(TripletValue(s));
        if n == 1 then ReadChar(TripletValue(s), s[3..], uri, name, isNumber)
        else ReadName(After(s, 3 * n), uri, name + Decoded(s, n), false)
    else if uri && NeedPercentEncode(s[0]) then TokenError(CharacterMustPercentEncode, s)
    else ReadChar(s[0], s[1..], uri, name, isNumber)
  }

  /** One character of a name, which may start an escape that ends in `s`. */
  function ReadChar(c: bv8, s: seq<bv8>, uri: bool, name: seq<bv8>, isNumber: bool): TokenResult
    decreases |s|, 2
  {
    if c != TILDE then ReadName(s, uri, name + [c], isNumber && IsDigit(c))
    else if s == [] || (s[0] != ZERO && s[0] != ONE) then TokenError(InvalidEscape, s)
    else ReadName(s[1..], uri, name + [if s[0] == ZERO then TILDE else SOLIDUS], false)
  }

  datatype Token = Token(name: seq<bv8>, index: nat)

  predicate AllDigits(name: seq<bv8>) {
    forall i :: 0 <= i < |name| ==> IsDigit(name[i])
  }

  function DigitValue(c: bv8): (d: nat)
    ensures d <= 9
  {
    if c == 0x31 then 1
    else if c == 0x32 then 2
    else if c == 0x33 then 3
    else if c == 0x34 then 4
    else if c == 0x35 then 5
    else if c == 0x36 then 6
    else if c == 0x37 then 7
    else if c == 0x38 then 8
    else if c == 0x39 then 9
    else 0
  }

  /** The 32-bit value of digits, with wrap-around; None once a step wraps below the value before it. */
  function Number(digits: seq<bv8>): (r: Option<nat>)
    ensures r.Some? ==> r.value < SIZE_MODULUS
  {
    if digits == [] then Some(0)
    else
      match Number(digits[..|digits| - 1])
      case None => None
      case Some(n) => AddDigit(n, digits[|digits| - 1])
  }

  /** One more digit, with the overflow test. */
  function AddDigit(n: nat, c: bv8): (r: Option<nat>)
    ensures r.Some? ==> r.value < SIZE_MODULUS
  {
    var m := (n * 10 + DigitValue(c)) % SIZE_MODULUS;
    if m < n then None else Some(m)
  }

  /** The index of a token: of digits only, without leading zero. The length is kept in 32 bits. */
  function IndexOf(name: seq<bv8>, isNumber: bool): nat {
    var length := |name| % SIZE_MODULUS;
    if !isNumber || length == 0 || (length > 1 && name[0] == ZERO) then INVALID_INDEX
    else
      match Number(name[..length])
      case None => INVALID_INDEX
      case Some(n) => n
  }

  datatype Tokens =
    | Tokens(tokens: seq<Token>)
    | Invalid(code: ParseError, rest: seq<bv8>)

  /** Reading tokens to the end of `s`; each starts with a solidus. */
  function ReadTokens(s: seq<bv8>, uri: bool): Tokens
    decreases |s|
  {
    if s == [] then Tokens([])
    else
      match ReadName(s[1..], uri, [], true)
      case TokenError(code, rest) => Invalid(code, rest)
      case TokenRead(name, isNumber, rest) =>
        assert |rest| < |s| by { NameShortens(s[1..], uri, [], true); }
        match ReadTokens(rest, uri)
        case Invalid(code, at) => Invalid(code, at)
        case Tokens(more) => Tokens([Token(name, IndexOf(name, isNumber))] + more)
  }

  lemma {:induction false} NameShortens(s: seq<bv8>, uri: bool, name: seq<bv8>, isNumber: bool)
    ensures var r := ReadName(s, uri, name, isNumber);
            |r.rest| <= |s| && (r.TokenRead? ==> r.rest == [] || r.rest[0] == SOLIDUS)
    decreases |s|, 1
  {
    if s != [] && s[0] != SOLIDUS {
      if uri && s[0] == PERCENT {
        if IsEncoded(s) {
          var n := Width(TripletValue(s));
          if n == 1 {
            CharShortens(TripletValue(s), s[3..], uri, name, isNumber);
          } else {
            NameShortens(After(s, 3 * n), uri, name + Decoded(s, n), false);
          }
        }
      } else if !(uri && NeedPercentEncode(s[0])) {
        CharShortens(s[0], s[1..], uri, name, isNumber);
      }
    }
  }

  lemma {:induction false} CharShortens(c: bv8, s: seq<bv8>, uri: bool, name: seq<bv8>, isNumber: bool)
    ensures var r := ReadChar(c, s, uri, name, isNumber);
            |r.rest| <= |s| && (r.TokenRead? ==> r.rest == [] || r.rest[0] == SOLIDUS)
    decreases |s|, 2
  {
    if c != TILDE {
      NameShortens(s, uri, name + [c], isNumber && IsDigit(c));
    } else if s != [] && (s[0] == ZERO || s[0] == ONE) {
      NameShortens(s[1..], uri, name + [if s[0] == ZERO then TILDE else SOLIDUS], false);
    }
  }

  predicate IsUri(source: seq<bv8>) {
    source != [] && source[0] == NUMBER_SIGN
  }

  /** Reading a whole pointer. */
  function ReadPointer(source: seq<bv8>): Tokens {
    var s := if IsUri(source) then source[1..] else source;
    if s != [] && s[0] != SOLIDUS then Invalid(TokenMustBeginWithSolidus, s) else ReadTokens(s, IsUri(source))
  }

  // ---- What is written is read back ----

  /** A name as a token. */
  function TokenOf(name: seq<bv8>): Token {
    Token(name, IndexOf(name, AllDigits(name)))
  }

  function TokensOf(names: seq<seq<bv8>>): (r: seq<Token>)
    ensures |r| == |names|
  {
    seq(|names|, i requires 0 <= i < |names| => TokenOf(names[i]))
  }

  predicate EndsName(s: seq<bv8>) {
    s == [] || s[0] == SOLIDUS
  }

  lemma {:induction false} DigitsSplit(c: bv8, name: seq<bv8>)
    ensures AllDigits([c] + name) <==> IsDigit(c) && AllDigits(name)
  {
    forall i | 0 <= i < |name| ensures ([c] + name)[i + 1] == name[i] {
    }
    if AllDigits([c] + name) {
      assert ([c] + name)[0] == c;
    }
  }

  lemma {:induction false} PlainDigits()
    ensures !IsDigit(TILDE) && !IsDigit(SOLIDUS) && !NeedPercentEncode(TILDE) && NeedPercentEncode(PERCENT)
    ensures forall c :: NeedPercentEncode(c) ==> !IsDigit(c)
  {
  }

  /** One character that is escaped, or stands for itself. */
  lemma {:induction false} CharRead(c: bv8, text: seq<bv8>, rest: seq<bv8>, uri: bool, acc: seq<bv8>, isNumber: bool)
    requires text == if c == TILDE then [TILDE, ZERO] else if c == SOLIDUS then [TILDE, ONE] else [c]
    requires uri && c != TILDE && c != SOLIDUS ==> !NeedPercentEncode(c)
    ensures ReadName(text + rest, uri, acc, isNumber) == ReadName(rest, uri, acc + [c], isNumber && IsDigit(c))
  {
    PlainDigits();
    var s := text + rest;
    if c == TILDE || c == SOLIDUS {
      assert s[0] == TILDE && s[1..][0] == text[1] && s[1..][1..] == rest;
      assert ReadName(s, uri, acc, isNumber) == ReadChar(TILDE, s[1..], uri, acc, isNumber);
    } else {
      assert s[1..] == rest;
    }
  }

  /** The reader has taken up a name behind its string form, whatever follows. */
  lemma {:induction false} EscapedThen(name: seq<bv8>, tail: seq<bv8>, acc: seq<bv8>, isNumber: bool)
    ensures ReadName(Escaped(name) + tail, false, acc, isNumber)
         == ReadName(tail, false, acc + name, isNumber && AllDigits(name))
    decreases |name|
  {
    if name == [] {
      assert Escaped(name) + tail == tail && acc + name == acc;
    } else {
      var c, more := name[0], name[1..];
      var text := if c == TILDE then [TILDE, ZERO] else if c == SOLIDUS then [TILDE, ONE] else [c];
      Assoc(text, Escaped(more), tail);
      CharRead(c, text, Escaped(more) + tail, false, acc, isNumber);
      EscapedThen(more, tail, acc + [c], isNumber && IsDigit(c));
      Assoc(acc, [c], more);
      assert name == [c] + more;
      DigitsSplit(c, more);
    }
  }

  lemma {:induction false} TripletsAt(bytes: seq<bv8>, rest: seq<bv8>, k: nat)
    requires k < |bytes|
    ensures TripletAt(Triplets(bytes) + rest, k) && ByteOf(Triplets(bytes) + rest, k) == bytes[k]
  {
    var s := Triplets(bytes) + rest;
    if k == 0 {
      assert After(s, 0) == Triplet(bytes[0]) + (Triplets(bytes[1..]) + rest);
      TripletRoundTrip(bytes[0], Triplets(bytes[1..]) + rest);
    } else {
      var t := Triplets(bytes[1..]) + rest;
      TripletsAt(bytes[1..], rest, k - 1);
      assert After(s, 3 * k) == After(t, 3 * (k - 1)) by {
        assert s == Triplet(bytes[0]) + t;
        assert s[3..] == t;
      }
    }
  }

  /** The triplets of one encoded code point are decoded to its bytes. */
  lemma {:induction false} TripletsDecoded(bytes: seq<bv8>, rest: seq<bv8>)
    requires bytes != [] && |bytes| == Width(bytes[0]) && StreamDecodable(bytes)
    ensures var s := Triplets(bytes) + rest;
            && IsEncoded(s) && TripletValue(s) == bytes[0] && Decoded(s, |bytes|) == bytes
            && s[0] == PERCENT && After(s, 3 * |bytes|) == rest
  {
    var s := Triplets(bytes) + rest;
    forall k: nat | k < |bytes| ensures TripletAt(s, k) && ByteOf(s, k) == bytes[k] {
      TripletsAt(bytes, rest, k);
    }
    assert TripletAt(s, 0) && ByteOf(s, 0) == bytes[0] && After(s, 0) == s;
    assert AreTriplets(s, |bytes|);
    assert Decoded(s, |bytes|) == bytes;
  }

  /** The first code point of a decodable stream, on its own, is decodable. */
  lemma {:induction false} HeadDecodable(s: seq<bv8>)
    requires s != [] && StreamDecodable(s)
    ensures var b := Taken(s, Width(s[0]));
            |b| == Width(s[0]) && b[0] == s[0] && StreamDecodable(b) && s == b + After(s, |b|)
  {
    DecodedIsEncoding(s);
  }

  lemma {:induction false} PlainWidth(c: bv8)
    ensures IsDigit(c) ==> !NeedPercentEncode(c)
    ensures !NeedPercentEncode(c) || c == SOLIDUS ==> c <= 0x7F
    ensures Width(c) > 1 ==> c >= 0x80
  {
  }

  /** One percent-encoded code point. */
  lemma {:induction false} PercentRead(bytes: seq<bv8>, rest: seq<bv8>, acc: seq<bv8>, isNumber: bool)
    requires bytes != [] && |bytes| == Width(bytes[0]) && StreamDecodable(bytes)
    requires NeedPercentEncode(bytes[0])
    ensures ReadName(Triplets(bytes) + rest, true, acc, isNumber) == ReadName(rest, true, acc + bytes, false)
  {
    var s := Triplets(bytes) + rest;
    TripletsDecoded(bytes, rest);
    PlainDigits();
    if |bytes| == 1 {
      assert s[3..] == rest && acc + [bytes[0]] == acc + bytes;
      assert ReadName(s, true, acc, isNumber) == ReadChar(bytes[0], rest, true, acc, isNumber);
    }
  }

  lemma {:induction false} UriThen(name: seq<bv8>, tail: seq<bv8>, acc: seq<bv8>, isNumber: bool)
    requires UriEscaped(name).Some?
    ensures ReadName(UriEscaped(name).value + tail, true, acc, isNumber)
         == ReadName(tail, true, acc + name, isNumber && AllDigits(name))
    decreases |name|
  {
    if name == [] {
      assert UriEscaped(name).value + tail == tail && acc + name == acc;
    } else if name[0] == TILDE || name[0] == SOLIDUS || !NeedPercentEncode(name[0]) {
      var c, more := name[0], name[1..];
      var text := if c == TILDE then [TILDE, ZERO] else if c == SOLIDUS then [TILDE, ONE] else [c];
      var rest := UriEscaped(more).value + tail;
      Assoc(text, UriEscaped(more).value, tail);
      CharRead(c, text, rest, true, acc, isNumber);
      UriThen(more, tail, acc + [c], isNumber && IsDigit(c));
      Assoc(acc, [c], more);
      assert name == [c] + more;
      DigitsSplit(c, more);
    } else {
      UriThenPercent(name, tail, acc, isNumber);
    }
  }

  lemma {:induction false} UriThenPercent(name: seq<bv8>, tail: seq<bv8>, acc: seq<bv8>, isNumber: bool)
    requires UriEscaped(name).Some?
    requires name != [] && name[0] != TILDE && name[0] != SOLIDUS && NeedPercentEncode(name[0])
    ensures ReadName(UriEscaped(name).value + tail, true, acc, isNumber)
         == ReadName(tail, true, acc + name, isNumber && AllDigits(name))
    decreases |name|, 0
  {
    var n := Width(name[0]);
    var b, more := Taken(name, n), After(name, n);
    HeadDecodable(name);
    var rest := UriEscaped(more).value + tail;
    Assoc(Triplets(b), UriEscaped(more).value, tail);
    PercentRead(b, rest, acc, isNumber);
    UriThen(more, tail, acc + b, false);
    Assoc(acc, b, more);
    PlainWidth(name[0]);
    assert !IsDigit(name[0]);
  }

  lemma {:induction false} TokensOfTail(names: seq<seq<bv8>>)
    requires names != []
    ensures TokensOf(names) == [TokenOf(names[0])] + TokensOf(names[1..])
  {
  }

  lemma {:induction false} StringFormEnds(names: seq<seq<bv8>>)
    ensures EndsName(StringForm(names))
  {
  }

  /** One token in front of others. */
  lemma {:induction false} TokenStep(text: seq<bv8>, more: seq<bv8>, uri: bool, name: seq<bv8>, tokens: seq<Token>)
    requires ReadName(text + more, uri, [], true) == TokenRead(name, AllDigits(name), more)
    requires ReadTokens(more, uri) == Tokens(tokens)
    ensures ReadTokens([SOLIDUS] + text + more, uri) == Tokens([TokenOf(name)] + tokens)
  {
    var s := [SOLIDUS] + text + more;
    assert s[1..] == text + more;
  }

  lemma {:induction false} StringTokens(names: seq<seq<bv8>>)
    ensures ReadTokens(StringForm(names), false) == Tokens(TokensOf(names))
  {
    if names != [] {
      var more := StringForm(names[1..]);
      StringFormEnds(names[1..]);
      EscapedThen(names[0], more, [], true);
      assert [] + names[0] == names[0];
      StringTokens(names[1..]);
      TokenStep(Escaped(names[0]), more, false, names[0], TokensOf(names[1..]));
      TokensOfTail(names);
    }
  }

  /** Reading the string form of any names gives those names, with the index each name stands for. */
  lemma {:induction false} StringRoundTrip(names: seq<seq<bv8>>)
    ensures ReadPointer(StringForm(names)) == Tokens(TokensOf(names))
  {
    StringFormEnds(names);
    StringTokens(names);
  }

  predicate AllUtf8(names: seq<seq<bv8>>) {
    forall i :: 0 <= i < |names| ==> DecodeAll(names[i]).Some?
  }

  /** A name has a URI form exactly if it is well-formed UTF-8. */
  lemma {:induction false} UriEscapable(name: seq<bv8>)
    ensures UriEscaped(name).Some? <==> DecodeAll(name).Some?
    decreases |name|
  {
    if name != [] {
      if name[0] == TILDE || name[0] == SOLIDUS || !NeedPercentEncode(name[0]) {
        PlainWidth(name[0]);
        AsciiDecodable(name);
        UriEscapable(name[1..]);
      } else {
        UriEscapable(After(name, Width(name[0])));
      }
    }
  }

  lemma {:induction false} AsciiDecodable(s: seq<bv8>)
    requires s != [] && s[0] <= 0x7F
    ensures StreamDecodable(s) && Width(s[0]) == 1
  {
  }

  lemma {:induction false} UriTokens(names: seq<seq<bv8>>)
    requires AllUtf8(names)
    ensures UriTail(names).Some? && EndsName(UriTail(names).value)
    ensures ReadTokens(UriTail(names).value, true) == Tokens(TokensOf(names))
  {
    if names != [] {
      UriEscapable(names[0]);
      UriTokens(names[1..]);
      var n, more := UriEscaped(names[0]).value, UriTail(names[1..]).value;
      UriThen(names[0], more, [], true);
      assert [] + names[0] == names[0];
      TokenStep(n, more, true, names[0], TokensOf(names[1..]));
      TokensOfTail(names);
    }
  }

  /** Reading the URI fragment form of any well-formed UTF-8 names gives those names. */
  lemma {:induction false} UriRoundTrip(names: seq<seq<bv8>>)
    requires AllUtf8(names)
    ensures UriForm(names).Some? && ReadPointer(UriForm(names).value) == Tokens(TokensOf(names))
  {
    UriTokens(names);
    assert UriForm(names).value[1..] == UriTail(names).value;
  }

  // ---- Index tokens ----

  function Digit(d: nat): bv8
    requires d <= 9
  {
    if d == 0 then 0x30
    else if d == 1 then 0x31
    else if d == 2 then 0x32
    else if d == 3 then 0x33
    else if d == 4 then 0x34
    else if d == 5 then 0x35
    else if d == 6 then 0x36
    else if d == 7 then 0x37
    else if d == 8 then 0x38
    else 0x39
  }

  /** The name of an index token. */
  function Decimal(k: nat): (s: seq<bv8>)
    ensures s != []
  {
    if k <= 9 then [Digit(k)] else Decimal(k / 10) + [Digit(k % 10)]
  }

  lemma {:induction false} DigitRoundTrip(d: nat)
    requires d <= 9
    ensures IsDigit(Digit(d)) && DigitValue(Digit(d)) == d && (Digit(d) == ZERO <==> d == 0)
  {
  }

  lemma {:induction false} DecimalShape(k: nat)
    ensures AllDigits(Decimal(k)) && |Decimal(k)| <= k + 1
    ensures Decimal(k)[0] == ZERO ==> k == 0
  {
    if k <= 9 {
      DigitRoundTrip(k);
    } else {
      DecimalShape(k / 10);
      DigitRoundTrip(k % 10);
    }
  }

  lemma {:induction false} AddDigitExact(n: nat, d: nat)
    requires d <= 9 && n * 10 + d < SIZE_MODULUS
    ensures AddDigit(n, Digit(d)) == Some(n * 10 + d)
  {
    DigitRoundTrip(d);
  }

  lemma {:induction false} DecimalStep(q: nat, r: nat)
    requires q > 0 && r <= 9
    ensures Decimal(q * 10 + r) == Decimal(q) + [Digit(r)]
  {
    assert (q * 10 + r) / 10 == q && (q * 10 + r) % 10 == r;
  }

  lemma {:induction false} DecimalNumber(k: nat)
    requires k < SIZE_MODULUS
    ensures Number(Decimal(k)) == Some(k)
  {
    if k <= 9 {
      AddDigitExact(0, k);
      assert Decimal(k)[..0] == [];
    } else {
      var q, r := k / 10, k % 10;
      assert k == q * 10 + r;
      DecimalStep(q, r);
      DecimalNumber(q);
      AddDigitExact(q, r);
      LastDigit(Decimal(q), Digit(r), q);
    }
  }

  lemma {:induction false} LastDigit(digits: seq<bv8>, c: bv8, n: nat)
    requires Number(digits) == Some(n)
    ensures Number(digits + [c]) == AddDigit(n, c)
  {
    assert (digits + [c])[..|digits|] == digits;
  }

  /** An index below 2^32 - 1 has a name of digits that is read as that index. */
  lemma {:induction false} IndexRoundTrip(k: nat)
    requires k < INVALID_INDEX
    ensures TokenOf(Decimal(k)) == Token(Decimal(k), k)
  {
    DecimalShape(k);
    DecimalNumber(k);
    DecimalLength(k);
    assert Decimal(k)[..|Decimal(k)|] == Decimal(k);
  }

  lemma {:induction false} DecimalLength(k: nat)
    ensures |Decimal(k)| > 1 ==> k > 9
    ensures k < INVALID_INDEX ==> |Decimal(k)| % SIZE_MODULUS == |Decimal(k)|
  {
    DecimalShape(k);
  }

  // ---- The index of any name ----

  /** The number that digits stand for. */
  function Exact(digits: seq<bv8>): nat {
    if digits == [] then 0 else Exact(digits[..|digits| - 1]) * 10 + DigitValue(digits[|digits| - 1])
  }

  /** What 32 bits keep of a number. */
  function In32(n: nat): nat {
    n % 0x1_0000_0000
  }

  /** The value in 32 bits does not become smaller with digit `i`: what the overflow test looks at. */
  predicate NoDrop(digits: seq<bv8>, i: nat)
    requires i < |digits|
  {
    In32(Exact(digits[..i])) <= In32(Exact(digits[..i + 1]))
  }

  ghost predicate NoWrap(digits: seq<bv8>) {
    forall i :: 0 <= i < |digits| ==> NoDrop(digits, i)
  }

  lemma {:induction false} ModStep(e: nat, d: nat)
    ensures (e % SIZE_MODULUS * 10 + d) % SIZE_MODULUS == (e * 10 + d) % SIZE_MODULUS
  {
    var q := e / SIZE_MODULUS;
    assert e * 10 + d == (e % SIZE_MODULUS * 10 + d) + SIZE_MODULUS * (q * 10);
    ModPlus(e % SIZE_MODULUS * 10 + d, q * 10);
  }

  lemma {:induction false} ModPlus(a: nat, q: nat)
    ensures (a + SIZE_MODULUS * q) % SIZE_MODULUS == a % SIZE_MODULUS
  {
  }

  lemma {:induction false} NoWrapStep(digits: seq<bv8>)
    requires digits != []
    ensures var n := |digits| - 1;
            NoWrap(digits) <==> NoWrap(digits[..n]) && In32(Exact(digits[..n])) <= In32(Exact(digits))
  {
    var n := |digits| - 1;
    assert digits[..n + 1] == digits;
    assert NoDrop(digits, n) <==> In32(Exact(digits[..n])) <= In32(Exact(digits));
    forall i | 0 <= i < n ensures NoDrop(digits[..n], i) <==> NoDrop(digits, i) {
      assert digits[..n][..i] == digits[..i] && digits[..n][..i + 1] == digits[..i + 1];
    }
  }

  /** The overflow test passes exactly the digits whose value never wraps below the one before. */
  lemma {:induction false} NumberMeaning(digits: seq<bv8>)
    ensures Number(digits) == if NoWrap(digits) then Some(In32(Exact(digits))) else None
  {
    if digits != [] {
      var n := |digits| - 1;
      NumberMeaning(digits[..n]);
      NoWrapStep(digits);
      ModStep(Exact(digits[..n]), DigitValue(digits[n]));
    }
  }

  lemma {:induction false} Whole(n: nat)
    requires n < 0x1_0000_0000
    ensures In32(n) == n
  {
  }

  lemma {:induction false} SmallNoWrap(digits: seq<bv8>)
    requires Exact(digits) < 0x1_0000_0000
    ensures NoWrap(digits)
  {
    if digits != [] {
      var front := digits[..|digits| - 1];
      SmallNoWrap(front);
      NoWrapStep(digits);
      Whole(Exact(front));
      Whole(Exact(digits));
    }
  }

  lemma {:induction false} DigitCode(c: bv8)
    requires IsDigit(c)
    ensures Digit(DigitValue(c)) == c && (c == ZERO <==> DigitValue(c) == 0)
  {
  }

  /** A name has a canonical form as a number: digits, and no zero in front of others. */
  predicate Canonical(name: seq<bv8>) {
    name != [] && AllDigits(name) && (|name| > 1 ==> name[0] != ZERO)
  }

  lemma {:induction false} CanonicalDecimal(name: seq<bv8>)
    requires Canonical(name)
    ensures name == Decimal(Exact(name)) && (name[0] != ZERO ==> Exact(name) > 0)
  {
    var n := |name| - 1;
    var front := name[..n];
    assert name == front + [name[n]];
    DigitCode(name[n]);
    if n > 0 {
      assert forall i :: 0 <= i < n ==> front[i] == name[i];
      CanonicalDecimal(front);
      DecimalStep(Exact(front), DigitValue(name[n]));
    }
  }

  /** The names of numbers are exactly the canonical ones. */
  lemma {:induction false} CanonicalExactly(name: seq<bv8>, k: nat)
    ensures Canonical(name) ==> name == Decimal(Exact(name))
    ensures name == Decimal(k) ==> Canonical(name) && k == Exact(name)
  {
    if Canonical(name) {
      CanonicalDecimal(name);
    }
    if name == Decimal(k) {
      DecimalShape(k);
      DecimalLength(k);
      DecimalExact(k);
    }
  }

  lemma {:induction false} DecimalExact(k: nat)
    ensures Exact(Decimal(k)) == k
  {
    var d := Decimal(k);
    if k <= 9 {
      DigitRoundTrip(k);
      assert d[..0] == [];
    } else {
      DecimalExact(k / 10);
      DigitRoundTrip(k % 10);
      assert d[..|d| - 1] == Decimal(k / 10);
    }
  }

  lemma {:induction false} IndexByNumber(name: seq<bv8>)
    requires |name| < SIZE_MODULUS
    ensures TokenOf(name).index
         == if Canonical(name) && Number(name).Some? then Number(name).value else 0xFFFF_FFFF
  {
    assert name[..|name|] == name;
  }

  /**
    The index of a name that is short enough to have a 32-bit length: only the name of a number has one, its value
    in 32 bits, and only if the overflow test passes.
   */
  lemma {:induction false} IndexMeaning(name: seq<bv8>)
    requires |name| < 0x1_0000_0000
    ensures TokenOf(name).index
         == if name == Decimal(Exact(name)) && NoWrap(name) then In32(Exact(name)) else 0xFFFF_FFFF
  {
    CanonicalExactly(name, Exact(name));
    NumberMeaning(name);
    IndexByNumber(name);
  }

  /**
    The name of a number below 2^32 - 1 has that number as its index, and no other name of so small a value has one.
   */
  lemma {:induction false} IndexExactly(name: seq<bv8>)
    requires |name| < 0x1_0000_0000 && Exact(name) < 0xFFFF_FFFF
    ensures TokenOf(name).index == if name == Decimal(Exact(name)) then Exact(name) else 0xFFFF_FFFF
  {
    IndexMeaning(name);
    SmallNoWrap(name);
    Whole(Exact(name));
  }

  /** Up to ten times 2^32 a number is refused exactly if its value in 32 bits is below a tenth of it. */
  lemma {:induction false} OverflowTest(k: nat)
    requires k < 0xA_0000_0000
    ensures TokenOf(Decimal(k)).index == if In32(k) < k / 10 then 0xFFFF_FFFF else In32(k)
  {
    DecimalExact(k);
    DecimalShort(k);
    IndexMeaning(Decimal(k));
    LastWrap(k);
  }

  /** Only the last digit of such a number can wrap. */
  lemma {:induction false} LastWrap(k: nat)
    requires k < 0xA_0000_0000
    ensures NoWrap(Decimal(k)) <==> k / 10 <= In32(k)
  {
    var d, q := Decimal(k), k / 10;
    NoWrapStep(d);
    DecimalExact(k);
    if k <= 9 {
      NoWrapNothing(d[..0]);
    } else {
      assert d[..|d| - 1] == Decimal(q);
      DecimalExact(q);
      SmallNoWrap(Decimal(q));
      Whole(q);
    }
  }

  lemma {:induction false} NoWrapNothing(digits: seq<bv8>)
    requires digits == []
    ensures NoWrap(digits) && Exact(digits) == 0
  {
  }

  lemma {:induction false} DecimalShort(k: nat)
    requires k < 0xA_0000_0000
    ensures |Decimal(k)| < 0x1_0000_0000
  {
    var n: nat := 11;
    assert Tens(5) == 100_000 && Tens(6) == 10 * Tens(5);
    assert Tens(10) == 10 * Tens(9) == 100 * Tens(8) == 1000 * Tens(7) == 10_000 * Tens(6);
    DecimalBound(k, n);
  }

  function Tens(n: nat): nat {
    if n == 0 then 1 else 10 * Tens(n - 1)
  }

  lemma {:induction false} DecimalBound(k: nat, n: nat)
    requires n > 0 && k < Tens(n)
    ensures |Decimal(k)| <= n
  {
    if k > 9 {
      DecimalBound(k / 10, n - 1);
    }
  }

  /** The overflow test misses numbers: the name 5000000000 gets the index 705032704. */
  lemma {:induction false} OverflowMissed()
    ensures TokenOf(Decimal(5_000_000_000)).index == 705_032_704
  {
    OverflowTest(5_000_000_000);
  }

  // ---- The index of a token read ----

  lemma {:induction false} DigitsAppend(name: seq<bv8>, more: seq<bv8>)
    ensures AllDigits(name + more) <==> AllDigits(name) && AllDigits(more)
  {
    var s := name + more;
    assert forall i :: 0 <= i < |name| ==> s[i] == name[i];
    assert forall i :: 0 <= i < |more| ==> s[|name| + i] == more[i];
  }

  lemma {:induction false} OneDigit(c: bv8)
    ensures AllDigits([c]) <==> IsDigit(c)
  {
    assert [c][0] == c;
  }

  lemma {:induction false} NameDigits(s: seq<bv8>, uri: bool, name: seq<bv8>, isNumber: bool)
    requires isNumber <==> AllDigits(name)
    ensures var r := ReadName(s, uri, name, isNumber); r.TokenRead? ==> (r.isNumber <==> AllDigits(r.name))
    decreases |s|, 1
  {
    if s != [] && s[0] != SOLIDUS {
      if uri && s[0] == PERCENT {
        if IsEncoded(s) {
          var n := Width(TripletValue(s));
          if n == 1 {
            CharDigits(TripletValue(s), s[3..], uri, name, isNumber);
          } else {
            assert TripletAt(s, 0) && ByteOf(s, 0) == TripletValue(s);
            PlainWidth(TripletValue(s));
            assert !IsDigit(Decoded(s, n)[0]);
            DigitsAppend(name, Decoded(s, n));
            NameDigits(After(s, 3 * n), uri, name + Decoded(s, n), false);
          }
        }
      } else if !(uri && NeedPercentEncode(s[0])) {
        CharDigits(s[0], s[1..], uri, name, isNumber);
      }
    }
  }

  lemma {:induction false} CharDigits(c: bv8, s: seq<bv8>, uri: bool, name: seq<bv8>, isNumber: bool)
    requires isNumber <==> AllDigits(name)
    ensures var r := ReadChar(c, s, uri, name, isNumber); r.TokenRead? ==> (r.isNumber <==> AllDigits(r.name))
    decreases |s|, 2
  {
    PlainDigits();
    OneDigit(c);
    if c != TILDE {
      DigitsAppend(name, [c]);
      NameDigits(s, uri, name + [c], isNumber && IsDigit(c));
    } else if s != [] && (s[0] == ZERO || s[0] == ONE) {
      OneDigit(SOLIDUS);
      DigitsAppend(name, [if s[0] == ZERO then TILDE else SOLIDUS]);
      NameDigits(s[1..], uri, name + [if s[0] == ZERO then TILDE else SOLIDUS], false);
    }
  }

  ghost predicate AllIndexed(tokens: seq<Token>) {
    forall i :: 0 <= i < |tokens| ==> tokens[i] == TokenOf(tokens[i].name)
  }

  /** Every token of a pointer that is read, in either form, has the index of its name. */
  lemma {:induction false} TokensIndexed(s: seq<bv8>, uri: bool)
    ensures ReadTokens(s, uri).Tokens? ==> AllIndexed(ReadTokens(s, uri).tokens)
    decreases |s|
  {
    if s != [] {
      NameDigits(s[1..], uri, [], true);
      NameShortens(s[1..], uri, [], true);
      match ReadName(s[1..], uri, [], true)
      case TokenError(_, _) =>
      case TokenRead(name, isNumber, rest) => TokensIndexed(rest, uri);
    }
  }

  lemma {:induction false} PointerIndexed(source: seq<bv8>)
    ensures ReadPointer(source).Tokens? ==> AllIndexed(ReadPointer(source).tokens)
  {
    TokensIndexed(if IsUri(source) then source[1..] else source, IsUri(source));
  }

  // ---- The pointer object ----

  /** A token as stored: where its name starts in the name buffer, its length and its index. */
  datatype StoredToken = StoredToken(start: nat, length: nat, index: nat)

  predicate Stores(buffer: seq<bv8>, t: StoredToken, token: Token) {
    && t.start + |token.name| <= |buffer| && buffer[t.start..t.start + |token.name|] == token.name
    && t.length == |token.name| % SIZE_MODULUS && t.index == token.index
  }

  predicate StoresAll(buffer: seq<bv8>, stored: seq<StoredToken>, tokens: seq<Token>) {
    |stored| == |tokens| && forall i :: 0 <= i < |stored| ==> Stores(buffer, stored[i], tokens[i])
  }

  lemma {:induction false} AfterSlice(source: seq<bv8>, i: nat, n: nat)
    requires i <= |source|
    ensures After(source[i..], n) == After(source, i + n)
  {
    if i + n <= |source| {
      assert source[i..][n..] == source[i + n..];
    }
  }

  /** The character at `i`, which the terminator follows. */
  function CharAt(source: seq<bv8>, i: nat): bv8 {
    if i < |source| then source[i] else 0
  }

  /** The mask for the k-th byte behind the lead byte `c`. */
  function MaskAt(c: bv8, k: nat): bv8 {
    if k == 1 then SecondMask(c) else 0x70
  }

  /** The bytes behind the first one are in the classes it allows. */
  predicate Follow(b: seq<bv8>) {
    b != [] && forall k :: 1 <= k < |b| ==> FollowAt(b, k)
  }

  predicate FollowAt(b: seq<bv8>, k: nat)
    requires 1 <= k < |b|
  {
    Allowed(b[k], MaskAt(b[0], k))
  }

  lemma {:induction false} FollowStep(b: seq<bv8>, d: bv8)
    requires b != []
    ensures Follow(b + [d]) <==> Follow(b) && Allowed(d, MaskAt(b[0], |b|))
  {
    var c := b + [d];
    forall k | 1 <= k < |b| ensures FollowAt(c, k) <==> FollowAt(b, k) {
      assert c[k] == b[k];
    }
    assert FollowAt(c, |b|) <==> Allowed(d, MaskAt(b[0], |b|));
  }

  lemma {:induction false} FollowDecodable(b: seq<bv8>)
    requires |b| > 1 && |b| == Width(b[0])
    ensures StreamDecodable(b) <==> Follow(b)
  {
    assert FollowAt(b, 1) <==> Allowed(b[1], SecondMask(b[0]));
    assert |b| > 2 ==> (FollowAt(b, 2) <==> Allowed(b[2], 0x70));
    assert |b| > 3 ==> (FollowAt(b, 3) <==> Allowed(b[3], 0x70));
  }

  lemma {:induction false} TripletsStep(s: seq<bv8>, n: nat)
    ensures AreTriplets(s, n + 1) <==> AreTriplets(s, n) && TripletAt(s, n)
    ensures AreTriplets(s, n + 1) ==> Decoded(s, n + 1) == Decoded(s, n) + [ByteOf(s, n)]
  {
  }

  /** `r` holds the bytes of the encoded code point `s` starts with, if it starts with one. */
  ghost predicate PercentOf(s: seq<bv8>, r: Option<seq<bv8>>) {
    forall k :: Folding.Open(k) ==> r == if IsEncoded(s) then Some(Decoded(s, Width(TripletValue(s)))) else None
  }

  /**
    `valid` says whether as many triplets as there are `bytes` stand at `i`; they end at `src` and hold these bytes.
   */
  ghost predicate TailRead(source: seq<bv8>, i: nat, src: nat, bytes: seq<bv8>, valid: bool)
    requires i <= |source|
  {
    forall k :: Folding.Open(k) ==>
      && (valid <==> AreTriplets(source[i..], |bytes|))
      && (valid ==> src == i + 3 * |bytes| && bytes == Decoded(source[i..], |bytes|))
  }

  lemma {:induction false} ReadMore(source: seq<bv8>, i: nat, src: nat, bytes: seq<bv8>, valid: bool, d: bv8,
                                    next: nat, more: bool)
    requires i <= src <= |source| && TailRead(source, i, src, bytes, valid)
    requires more <==> IsTriplet(source[src..])
    requires more ==> d == TripletValue(source[src..]) && next == src + 3
    ensures TailRead(source, i, next, bytes + [d], valid && more)
  {
    assert Folding.Open(0);
    AfterSlice(source, i, 3 * |bytes|);
    TripletsStep(source[i..], |bytes|);
  }

  class Pointer {
    var nameBuffer: array<bv8>
    var tokens: seq<StoredToken>
    var parseErrorCode: Option<ParseError>
    var parseErrorOffset: nat

    constructor ()
      ensures tokens == [] && parseErrorCode.None? && parseErrorOffset == 0 && nameBuffer.Length == 0
    {
      nameBuffer := new bv8[0];
      tokens, parseErrorCode, parseErrorOffset := [], None, 0;
    }

    /** Takes one percent triplet; anything else yields zero and marks the stream invalid. */
    method TakeTriplet(source: seq<bv8>, src: nat) returns (c: bv8, next: nat, valid: bool)
      requires src <= |source|
      ensures src <= next <= |source|
      ensures valid <==> IsTriplet(source[src..])
      ensures if valid then c == TripletValue(source[src..]) && next == src + 3 else c == 0
    {
      if CharAt(source, src) != PERCENT || src + 3 > |source| {
        return 0, src, false;
      }
      var h, l := source[src + 1], source[src + 2];
      if !IsHex(h) {
        return 0, src + 1, false;
      }
      if !IsHex(l) {
        return 0, src + 2, false;
      }
      return Nibbles(HexValue(h), HexValue(l)), src + 3, true;
    }

    /** Validates one code point out of percent triplets, copying its bytes to the name buffer. */
    method DecodePercent(source: seq<bv8>, i: nat, name: nat) returns (ok: bool, len: nat, ghost r: Option<seq<bv8>>)
      requires nameBuffer.Length == |source| && name + 2 <= i < |source|
      modifies nameBuffer
      ensures nameBuffer[..name] == old(nameBuffer[..name])
      ensures PercentOf(source[i..], r) && (ok <==> r.Some?)
      ensures ok ==> len == |r.value| > 0 && i + 3 * len <= |source| && nameBuffer[name..name + len] == r.value
    {
      ghost var s := source[i..];
      r := if IsEncoded(s) then Some(Decoded(s, Width(TripletValue(s)))) else None;
      var c, src, valid := TakeTriplet(source, i);
      nameBuffer[name] := c;
      len := 1;
      FirstTriplet(s);
      if c <= 0x7F {
        assert valid ==> nameBuffer[name..name + 1] == Decoded(s, 1);
        return valid, len, r;
      }
      var n := Width(c);
      ok, len := DecodeTail(source, i, src, name, c, n);
      if n > 1 && AreTriplets(s, n) {
        assert Decoded(s, n)[0] == ByteOf(s, 0) == c;
        FollowDecodable(Decoded(s, n));
      }
      ok := ok && n > 1;
    }

    /** Puts one more byte behind a name that starts at `name` and ends at `at`. */
    method PutByte(name: nat, at: nat, d: bv8)
      requires name <= at < nameBuffer.Length
      modifies nameBuffer
      ensures nameBuffer[..name] == old(nameBuffer[..name])
      ensures nameBuffer[name..at + 1] == old(nameBuffer[name..at]) + [d]
    {
      nameBuffer[at] := d;
    }

    /** The bytes behind the first one. */
    method DecodeTail(source: seq<bv8>, i: nat, from: nat, name: nat, c: bv8, n: nat) returns (ok: bool, len: nat)
      requires nameBuffer.Length == |source| && name + 2 <= i && from == i + 3 <= |source| && nameBuffer[name] == c
      requires IsTriplet(source[i..]) && TripletValue(source[i..]) == c && n == Width(c)
      modifies nameBuffer
      ensures nameBuffer[..name] == old(nameBuffer[..name]) && len == n
      ensures ok <==> AreTriplets(source[i..], n) && Follow(Decoded(source[i..], n))
      ensures ok ==> i + 3 * n <= |source| && nameBuffer[name..name + n] == Decoded(source[i..], n)
    {
      ghost var bytes := [c];
      FirstTriplet(source[i..]);
      var src, valid, result := from, true, true;
      len := 1;
      while len < n
        invariant 1 <= len <= n && i <= src <= |source|
        invariant nameBuffer[..name] == old(nameBuffer[..name])
        invariant |bytes| == len && bytes[0] == c && nameBuffer[name..name + len] == bytes
        invariant TailRead(source, i, src, bytes, valid)
        invariant result <==> Follow(bytes)
      {
        var d, next, more := TakeTriplet(source, src);
        ReadMore(source, i, src, bytes, valid, d, next, more);
        FollowStep(bytes, d);
        PutByte(name, name + len, d);
        assert nameBuffer[name..name + len + 1] == bytes + [d];
        bytes := bytes + [d];
        result := result && Allowed(d, MaskAt(c, len));
        src := next;
        valid := valid && more;
        len := len + 1;
      }
      assert Folding.Open(0);
      ok := result && valid;
    }

    /** Puts one character, which may start an escape that ends at `from`. */
    method PutChar(source: seq<bv8>, c: bv8, from: nat, uri: bool, name: nat, at: nat, isDigits: bool,
                   ghost sofar: seq<bv8>)
      returns (i: nat, end: nat, isNumber: bool, error: Option<ParseError>)
      requires nameBuffer.Length == |source| && name <= at <= |source| && nameBuffer[name..at] == sofar
               && at + Margin(uri) < from <= |source|
      modifies nameBuffer
      ensures nameBuffer[..at] == old(nameBuffer[..at]) && from <= i <= |source| && at <= end <= |source|
      ensures match error
              case Some(code) => ReadChar(c, source[from..], uri, sofar, isDigits) == TokenError(code, source[i..])
              case None =>
                && end + Margin(uri) <= i
                && ReadChar(c, source[from..], uri, sofar, isDigits)
                == ReadName(source[i..], uri, nameBuffer[name..end], isNumber)
    {
      ghost var s := source[from..];
      i, end, isNumber, error := from, at, isDigits, None;
      var put := c;
      if c == TILDE {
        if i == |source| || (source[i] != ZERO && source[i] != ONE) {
          return i, end, isNumber, Some(InvalidEscape);
        }
        assert s[0] == source[i] && s[1..] == source[i + 1..];
        put := if source[i] == ZERO then TILDE else SOLIDUS;
        i := i + 1;
      }
      if !IsDigit(put) {
        isNumber := false;
      }
      nameBuffer[end] := put;
      end := end + 1;
      assert nameBuffer[name..end] == sofar + [put];
    }

    /** Reads one percent-encoded code point; a single byte may still start an escape. */
    method ReadPercent(source: seq<bv8>, from: nat, name: nat, at: nat, isDigits: bool, ghost sofar: seq<bv8>)
      returns (i: nat, end: nat, isNumber: bool, error: Option<ParseError>)
      requires nameBuffer.Length == |source| && name <= at <= |source| && nameBuffer[name..at] == sofar
               && at + 2 <= from < |source| && source[from] == PERCENT
      modifies nameBuffer
      ensures nameBuffer[..at] == old(nameBuffer[..at]) && from <= i <= |source| && at <= end <= |source|
      ensures match error
              case Some(code) => ReadName(source[from..], true, sofar, isDigits) == TokenError(code, source[i..])
              case None =>
                && end + 2 <= i && from < i
                && ReadName(source[from..], true, sofar, isDigits)
                == ReadName(source[i..], true, nameBuffer[name..end], isNumber)
    {
      ghost var s, before := source[from..], nameBuffer[..at];
      assert before[name..] == sofar;
      i, end, isNumber, error := from, at, isDigits, None;
      var ok, len;
      ghost var r;
      ok, len, r := DecodePercent(source, from, at);
      PercentStep(s, sofar, isDigits, r);
      assert nameBuffer[..at][name..] == sofar;
      if !ok {
        return i, end, isNumber, Some(InvalidPercentEncoding);
      }
      AfterSlice(source, from, 3 * len);
      if len == 1 {
        i, end, isNumber, error := PutChar(source, nameBuffer[at], from + 3, true, name, at, isDigits, sofar);
      } else {
        i, end, isNumber := from + 3 * len, at + len, false;
        SliceJoin(nameBuffer[..], name, at, end);
      }
    }

    /** Reads one piece of a name: a character, an escape or a percent-encoded code point. */
    method ReadPiece(source: seq<bv8>, from: nat, uri: bool, name: nat, at: nat, isDigits: bool, ghost sofar: seq<bv8>)
      returns (i: nat, end: nat, isNumber: bool, error: Option<ParseError>)
      requires nameBuffer.Length == |source| && name <= at <= |source| && nameBuffer[name..at] == sofar
               && at + Margin(uri) <= from < |source| && source[from] != SOLIDUS
      modifies nameBuffer
      ensures nameBuffer[..at] == old(nameBuffer[..at]) && from <= i <= |source| && at <= end <= |source|
      ensures match error
              case Some(code) => ReadName(source[from..], uri, sofar, isDigits) == TokenError(code, source[i..])
              case None =>
                && end + Margin(uri) <= i && from < i
                && ReadName(source[from..], uri, sofar, isDigits)
                == ReadName(source[i..], uri, nameBuffer[name..end], isNumber)
    {
      var c := source[from];
      if uri && c == PERCENT {
        i, end, isNumber, error := ReadPercent(source, from, name, at, isDigits, sofar);
        return;
      }
      if uri && NeedPercentEncode(c) {
        return from, at, isDigits, Some(CharacterMustPercentEncode);
      }
      assert source[from..][1..] == source[from + 1..];
      i, end, isNumber, error := PutChar(source, c, from + 1, uri, name, at, isDigits, sofar);
    }

    /** Reads one token's name into the buffer at `name`. */
    method ReadTokenName(source: seq<bv8>, begin: nat, uri: bool, name: nat)
      returns (i: nat, end: nat, isNumber: bool, error: Option<ParseError>)
      requires nameBuffer.Length == |source| && name + Margin(uri) <= begin <= |source|
      modifies nameBuffer
      ensures nameBuffer[..name] == old(nameBuffer[..name]) && i <= |source| && name <= end <= |source|
      ensures match error
              case Some(code) => ReadName(source[begin..], uri, [], true) == TokenError(code, source[i..])
              case None =>
                && end + Margin(uri) <= i
                && ReadName(source[begin..], uri, [], true) == TokenRead(nameBuffer[name..end], isNumber, source[i..])
    {
      i, end, isNumber, error := begin, name, true, None;
      assert nameBuffer[name..end] == [];
      while i < |source| && source[i] != SOLIDUS
        invariant name <= end && end + Margin(uri) <= i <= |source|
        invariant error.None? && nameBuffer[..name] == old(nameBuffer[..name])
        invariant ReadName(source[i..], uri, nameBuffer[name..end], isNumber)
                  == ReadName(source[begin..], uri, [], true)
        decreases |source| - i
      {
        ghost var before := nameBuffer[..end];
        i, end, isNumber, error := ReadPiece(source, i, uri, name, end, isNumber, nameBuffer[name..end]);
        assert nameBuffer[..name] == nameBuffer[..|before|][..name] == before[..name];
        if error.Some? {
          return;
        }
      }
    }

    /** The index of the name stored between `begin` and `end`. */
    method ToIndex(begin: nat, end: nat, length: nat, isDigits: bool) returns (index: nat)
      requires begin <= end <= nameBuffer.Length && length == (end - begin) % SIZE_MODULUS
      ensures index == IndexOf(nameBuffer[begin..end], isDigits)
    {
      ghost var name := nameBuffer[begin..end];
      var isNumber := isDigits && length != 0;
      if isNumber && length > 1 && nameBuffer[begin] == ZERO {
        isNumber := false;
      }
      var n := 0;
      if isNumber {
        var j := 0;
        while j < length
          invariant j <= length && Number(name[..j]) == Some(n)
        {
          NumberStep(name, j, n);
          var m := AddDigit(n, nameBuffer[begin + j]);
          if m.None? {
            NumberStuck(name, j + 1, length);
            return INVALID_INDEX;
          }
          n := m.value;
          j := j + 1;
        }
      }
      index := if isNumber then n else INVALID_INDEX;
    }

    method Fail(source: seq<bv8>, code: ParseError, i: nat)
      modifies this
      ensures tokens == [] && parseErrorCode == Some(code) && parseErrorOffset == i && nameBuffer.Length == 0
    {
      nameBuffer := new bv8[0];
      tokens, parseErrorCode, parseErrorOffset := [], Some(code), i;
    }

    /** Reads a pointer into a name buffer as long as the source. */
    method Parse(source: seq<bv8>)
      modifies this
      ensures match ReadPointer(source)
              case Tokens(ts) => parseErrorCode.None? && nameBuffer.Length == |source|
                  && StoresAll(nameBuffer[..], tokens, ts)
              case Invalid(code, rest) =>
                parseErrorCode == Some(code) && parseErrorOffset == |source| - |rest| && tokens == []
    {
      nameBuffer := new bv8[|source|];
      tokens := [];
      var i: nat := 0;
      var uri := CharAt(source, 0) == NUMBER_SIGN;
      if uri {
        i := 1;
      }
      ghost var begin, done := i, [];
      assert source[begin..] == if IsUri(source) then source[1..] else source;
      if i != |source| && source[i] != SOLIDUS {
        Fail(source, TokenMustBeginWithSolidus, i);
        return;
      }
      var name: nat := 0;
      while i < |source|
        invariant name + begin <= i <= |source| && EndsName(source[i..])
        invariant nameBuffer.Length == |source| && fresh(nameBuffer)
        invariant StoresAll(nameBuffer[..name], tokens, done)
        invariant Behind(done, ReadTokens(source[i..], uri)) == ReadTokens(source[begin..], uri)
      {
        var error;
        i, name, done, error := ReadToken(source, i, uri, name, done);
        if error.Some? {
          assert ReadPointer(source) == Invalid(error.value, source[i..]);
          Fail(source, error.value, i);
          return;
        }
      }
      assert ReadPointer(source) == Tokens(done);
      StoresMore(nameBuffer[..name], nameBuffer[..], tokens, done);
      parseErrorCode := None;
    }

    /** Reads one token, its terminator and its index. */
    method ReadToken(source: seq<bv8>, from: nat, uri: bool, begin: nat, ghost done: seq<Token>)
      returns (i: nat, name: nat, ghost all: seq<Token>, error: Option<ParseError>)
      requires nameBuffer.Length == |source| && begin + Margin(uri) <= from + 1 && from < |source|
      requires StoresAll(nameBuffer[..begin], tokens, done)
      modifies nameBuffer, `tokens
      ensures i <= |source| && name <= |source|
      ensures match error
              case Some(code) => Behind(done, ReadTokens(source[from..], uri)) == Invalid(code, source[i..])
              case None =>
                && from < i && name + Margin(uri) <= i + 1 && EndsName(source[i..])
                && StoresAll(nameBuffer[..name], tokens, all)
                && Behind(done, ReadTokens(source[from..], uri)) == Behind(all, ReadTokens(source[i..], uri))
    {
      assert source[from..][1..] == source[from + 1..];
      name, all := begin, done;
      var end, isNumber;
      i, end, isNumber, error := ReadTokenName(source, from + 1, uri, begin);
      if error.Some? {
        return;
      }
      NameShortens(source[from + 1..], uri, [], true);
      ghost var read := nameBuffer[begin..end];
      BehindOne(done, source[from..], uri, read, isNumber, source[i..]);
      all := StoreToken(begin, end, isNumber, done);
      name := end + 1;
    }

    /** Terminates the name of a token in the buffer and stores the token. */
    method StoreToken(begin: nat, end: nat, isNumber: bool, ghost done: seq<Token>) returns (ghost all: seq<Token>)
      requires begin <= end < nameBuffer.Length && StoresAll(nameBuffer[..begin], tokens, done)
      modifies nameBuffer, `tokens
      ensures var read := old(nameBuffer[begin..end]); all == done + [Token(read, IndexOf(read, isNumber))]
      ensures StoresAll(nameBuffer[..end + 1], tokens, all) && nameBuffer[end] == 0
    {
      ghost var read := nameBuffer[begin..end];
      var length := (end - begin) % SIZE_MODULUS;
      nameBuffer[end] := 0;
      assert nameBuffer[begin..end] == read && nameBuffer[..end + 1][begin..end] == read;
      assert nameBuffer[..end + 1][..begin] == old(nameBuffer[..begin]);
      var index := ToIndex(begin, end, length, isNumber);
      StoreOne(old(nameBuffer[..begin]), nameBuffer[..end + 1], tokens, done, read, length, index);
      all := done + [Token(read, index)];
      tokens := tokens + [StoredToken(begin, length, index)];
    }

    /** Whether the stored tokens are these names. */
    ghost predicate Names(names: seq<seq<bv8>>)
      reads this, nameBuffer
    {
      |names| == |tokens| && forall i :: 0 <= i < |names| ==> IsName(nameBuffer[..], tokens[i], names[i])
    }

    /** Writes the pointer; the URI form fails on a name that is not well-formed UTF-8. */
    method Stringify(uriFragment: bool, os: OutputStream, ghost names: seq<seq<bv8>>) returns (ok: bool)
      requires Names(names)
      modifies os
      ensures match if uriFragment then UriForm(names) else Some(StringForm(names))
              case None => !ok
              case Some(text) => ok && os.dst == old(os.dst) + text
    {
      if uriFragment {
        os.Put(NUMBER_SIGN);
        PrependTwice(old(os.dst), [NUMBER_SIGN], UriTail(names));
      }
      ghost var before := os.dst;
      var t := 0;
      assert names[0..] == names;
      while t < |tokens|
        invariant t <= |tokens| && Names(names)
        invariant Prepend(os.dst, FormText(names[t..], uriFragment)) == Prepend(before, FormText(names, uriFragment))
      {
        FormStep(os.dst, names[t..], uriFragment);
        assert names[t..][1..] == names[t + 1..];
        ok := StringifyToken(uriFragment, os, tokens[t], names[t]);
        if !ok {
          return;
        }
        t := t + 1;
      }
      ok := true;
      assert names[t..] == [] && os.dst + [] == os.dst;
    }

    method StringifyToken(uriFragment: bool, os: OutputStream, token: StoredToken,
                          ghost name: seq<bv8>) returns (ok: bool)
      requires IsName(nameBuffer[..], token, name)
      modifies os
      ensures match NameText(name, uriFragment)
              case None => !ok
              case Some(text) => ok && os.dst == old(os.dst) + [SOLIDUS] + text
    {
      os.Put(SOLIDUS);
      assert nameBuffer[token.start..token.start + token.length] == name;
      ok := StringifyName(uriFragment, os, nameBuffer[token.start..token.start + token.length]);
    }

    method StringifyName(uriFragment: bool, os: OutputStream, name: seq<bv8>) returns (ok: bool)
      modifies os
      ensures match NameText(name, uriFragment)
              case None => !ok
              case Some(text) => ok && os.dst == old(os.dst) + text
    {
      var j := 0;
      assert name[0..] == name;
      while j < |name|
        invariant j <= |name|
        invariant Prepend(os.dst, NameText(name[j..], uriFragment)) == Prepend(old(os.dst), NameText(name, uriFragment))
      {
        NameStep(os.dst, name[j..], uriFragment);
        var n;
        ok, n := PutPiece(name[j..], uriFragment, os);
        if !ok {
          return;
        }
        assert name[j..][n..] == name[j + n..];
        j := j + n;
      }
      ok := true;
      assert name[j..] == [] && os.dst + [] == os.dst;
    }

    /** Writes the first character, or the first code point, of a name. */
    method PutPiece(name: seq<bv8>, uriFragment: bool, os: OutputStream) returns (ok: bool, n: nat)
      requires name != []
      modifies os
      ensures match Piece(name, uriFragment)
              case None => !ok
              case Some(p) => ok && n == p.1 <= |name| && os.dst == old(os.dst) + p.0
    {
      var c := name[0];
      ok, n := true, 1;
      if c == TILDE {
        os.Put(TILDE);
        os.Put(ZERO);
      } else if c == SOLIDUS {
        os.Put(TILDE);
        os.Put(ONE);
      } else if uriFragment && NeedPercentEncode(c) {
        ok := PutPercent(name, os);
        if ok {
          n := Width(c);
          DecodedIsEncoding(name);
        }
      } else {
        os.Put(c);
      }
    }

    /** Validates one code point of a name and writes its bytes as percent triplets. */
    method PutPercent(name: seq<bv8>, os: OutputStream) returns (ok: bool)
      requires name != []
      modifies os
      ensures ok <==> StreamDecodable(name)
      ensures ok ==> os.dst == old(os.dst) + Triplets(Taken(name, Width(name[0])))
    {
      var source := new InputStream(name);
      var target := new OutputStream();
      ok := Validate(source, target);
      var bytes := target.dst;
      assert bytes == Taken(name, Width(name[0]));
      var k := 0;
      while k < |bytes|
        invariant k <= |bytes| && os.dst + Triplets(bytes[k..]) == old(os.dst) + Triplets(bytes)
      {
        Assoc(os.dst, Triplet(bytes[k]), Triplets(bytes[k + 1..]));
        PutTriplet(bytes[k], os);
        assert bytes[k..][1..] == bytes[k + 1..];
        k := k + 1;
      }
      assert bytes[k..] == [];
    }
  }

  /** One byte as a percent triplet. */
  method PutTriplet(b: bv8, os: OutputStream)
    modifies os
    ensures os.dst == old(os.dst) + Triplet(b)
  {
    os.Put(PERCENT);
    os.Put(HexDigit(High(b)));
    os.Put(HexDigit(Low(b)));
  }

  /** A name in either form. */
  function NameText(name: seq<bv8>, uri: bool): Option<seq<bv8>> {
    if uri then UriEscaped(name) else Some(Escaped(name))
  }

  function FormText(names: seq<seq<bv8>>, uri: bool): Option<seq<bv8>> {
    if uri then UriTail(names) else Some(StringForm(names))
  }

  /** What the first character or code point of a name is written as, and how many bytes of the name it takes. */
  function Piece(name: seq<bv8>, uri: bool): Option<(seq<bv8>, nat)>
    requires name != []
  {
    if name[0] == TILDE then Some(([TILDE, ZERO], 1))
    else if name[0] == SOLIDUS then Some(([TILDE, ONE], 1))
    else if !(uri && NeedPercentEncode(name[0])) then Some(([name[0]], 1))
    else if StreamDecodable(name) then Some((Triplets(Taken(name, Width(name[0]))), Width(name[0])))
    else None
  }

  lemma {:induction false} NameStep(written: seq<bv8>, name: seq<bv8>, uri: bool)
    requires name != []
    ensures match Piece(name, uri)
            case None => NameText(name, uri).None?
            case Some(p) => Prepend(written, NameText(name, uri)) == Prepend(written + p.0, NameText(After(name, p.1),
                uri))
  {
    var r := Piece(name, uri);
    if r.Some? {
      var more := NameText(After(name, r.value.1), uri);
      assert NameText(name, uri) == Prepend(r.value.0, more);
      PrependTwice(written, r.value.0, more);
    }
  }

  lemma {:induction false} FormStep(written: seq<bv8>, names: seq<seq<bv8>>, uri: bool)
    requires names != []
    ensures match NameText(names[0], uri)
            case None => FormText(names, uri).None?
            case Some(n) => Prepend(written, FormText(names, uri)) == Prepend(written + [SOLIDUS] + n,
                FormText(names[1..], uri))
  {
    var r := NameText(names[0], uri);
    if r.Some? {
      var more := FormText(names[1..], uri);
      assert FormText(names, uri) == Prepend([SOLIDUS] + r.value, more);
      PrependTwice(written, [SOLIDUS] + r.value, more);
      Assoc(written, [SOLIDUS], r.value);
    }
  }

  predicate IsName(buffer: seq<bv8>, t: StoredToken, name: seq<bv8>) {
    t.length == |name| && t.start + t.length <= |buffer| && buffer[t.start..t.start + t.length] == name
  }

  lemma {:induction false} PrependTwice(a: seq<bv8>, b: seq<bv8>, r: Option<seq<bv8>>)
    ensures Prepend(a, Prepend(b, r)) == Prepend(a + b, r)
  {
    if r.Some? {
      Assoc(a, b, r.value);
    }
  }

  /** Reading what was written for the tokens of a pointer gives its names back, and an index token its index. */
  lemma {:induction false} IndexTokenRoundTrip(names: seq<seq<bv8>>, k: nat)
    requires k < INVALID_INDEX
    ensures ReadPointer(StringForm(names + [Decimal(k)])) == Tokens(TokensOf(names) + [Token(Decimal(k), k)])
  {
    IndexRoundTrip(k);
    StringRoundTrip(names + [Decimal(k)]);
    assert TokensOf(names + [Decimal(k)]) == TokensOf(names) + [TokenOf(Decimal(k))];
  }

  /** The result once the tokens `done` have been read in front of `r`. */
  function Behind(done: seq<Token>, r: Tokens): Tokens {
    match r
    case Invalid(_, _) => r
    case Tokens(more) => Tokens(done + more)
  }

  lemma {:induction false} BehindOne(done: seq<Token>, s: seq<bv8>, uri: bool, name: seq<bv8>, isNumber: bool,
                                     rest: seq<bv8>)
    requires s != [] && ReadName(s[1..], uri, [], true) == TokenRead(name, isNumber, rest)
    ensures Behind(done, ReadTokens(s, uri))
            == Behind(done + [Token(name, IndexOf(name, isNumber))], ReadTokens(rest, uri))
  {
    match ReadTokens(rest, uri)
    case Invalid(_, _) =>
    case Tokens(more) => Assoc(done, [Token(name, IndexOf(name, isNumber))], more);
  }

  lemma {:induction false} StoresMore(a: seq<bv8>, b: seq<bv8>, stored: seq<StoredToken>, tokens: seq<Token>)
    requires |a| <= |b| && b[..|a|] == a && StoresAll(a, stored, tokens)
    ensures StoresAll(b, stored, tokens)
  {
    forall i | 0 <= i < |stored| ensures Stores(b, stored[i], tokens[i]) {
      var t, e := stored[i], stored[i].start + |tokens[i].name|;
      assert Stores(a, t, tokens[i]);
      assert forall k :: 0 <= k < |a| ==> b[k] == b[..|a|][k] == a[k];
      assert b[t.start..e] == a[t.start..e];
    }
  }

  lemma {:induction false} StoreOne(a: seq<bv8>, b: seq<bv8>, stored: seq<StoredToken>, tokens: seq<Token>,
                                    name: seq<bv8>, length: nat, index: nat)
    requires |a| + |name| <= |b| && b[..|a|] == a && b[|a|..|a| + |name|] == name && StoresAll(a, stored, tokens)
    requires length == |name| % SIZE_MODULUS
    ensures StoresAll(b, stored + [StoredToken(|a|, length, index)], tokens + [Token(name, index)])
  {
    StoresMore(a, b, stored, tokens);
  }

  lemma {:induction false} NumberStep(name: seq<bv8>, j: nat, n: nat)
    requires j < |name| && Number(name[..j]) == Some(n)
    ensures Number(name[..j + 1]) == AddDigit(n, name[j])
  {
    assert name[..j + 1][..j] == name[..j];
  }

  lemma {:induction false} NumberStuck(name: seq<bv8>, j: nat, k: nat)
    requires j <= k <= |name| && Number(name[..j]).None?
    ensures Number(name[..k]).None?
    decreases k
  {
    if j < k {
      NumberStuck(name, j, k - 1);
      assert name[..k][..k - 1] == name[..k - 1];
    }
  }

  /** How far the name buffer stays behind the source while a token is read: its solidus, and the number sign. */
  function Margin(uri: bool): (m: nat)
    ensures 1 <= m <= 2
  {
    if uri then 2 else 1
  }

  lemma {:induction false} SliceJoin(buffer: seq<bv8>, a: nat, b: nat, c: nat)
    requires a <= b <= c <= |buffer|
    ensures buffer[..b][a..] + buffer[b..c] == buffer[a..c]
  {
  }

  lemma {:induction false} PercentStep(s: seq<bv8>, sofar: seq<bv8>, isNumber: bool, r: Option<seq<bv8>>)
    requires s != [] && s[0] == PERCENT && PercentOf(s, r)
    ensures ReadName(s, true, sofar, isNumber) ==
            match r
            case None => TokenError(InvalidPercentEncoding, s)
            case Some(b) =>
              if |b| == 1 then ReadChar(b[0], After(s, 3), true, sofar, isNumber)
              else ReadName(After(s, 3 * |b|), true, sofar + b, false)
  {
    assert Folding.Open(0);
    if IsEncoded(s) {
      var n := Width(TripletValue(s));
      assert TripletAt(s, 0) && After(s, 0) == s;
      assert Decoded(s, n)[0] == ByteOf(s, 0);
    }
  }

  lemma {:induction false} FirstTriplet(s: seq<bv8>)
    ensures TripletAt(s, 0) <==> IsTriplet(s)
    ensures IsTriplet(s) ==> AreTriplets(s, 1) && Decoded(s, 1) == [TripletValue(s)]
    ensures IsTriplet(s) && TripletValue(s) <= 0x7F ==> IsEncoded(s) && Width(TripletValue(s)) == 1
    ensures IsTriplet(s) && TripletValue(s) > 0x7F && Width(TripletValue(s)) == 1 ==> !IsEncoded(s)
  {
    assert After(s, 0) == s;
    if IsTriplet(s) {
      assert AreTriplets(s, 1);
      assert Decoded(s, 1) == [TripletValue(s)];
    }
  }

  // ---- Errors, behind any part of a pointer that is read ----

  lemma {:induction false} TextThen(name: seq<bv8>, uri: bool, tail: seq<bv8>, acc: seq<bv8>, isNumber: bool)
    requires NameText(name, uri).Some?
    ensures ReadName(NameText(name, uri).value + tail, uri, acc, isNumber)
         == ReadName(tail, uri, acc + name, isNumber && AllDigits(name))
  {
    if uri {
      UriThen(name, tail, acc, isNumber);
    } else {
      EscapedThen(name, tail, acc, isNumber);
    }
  }

  /** The reader has taken up the tokens of some names behind their text, whatever follows. */
  lemma {:induction false} FormThen(names: seq<seq<bv8>>, uri: bool, tail: seq<bv8>)
    requires FormText(names, uri).Some? && EndsName(tail)
    ensures EndsName(FormText(names, uri).value + tail)
    ensures ReadTokens(FormText(names, uri).value + tail, uri) == Behind(TokensOf(names), ReadTokens(tail, uri))
  {
    if names == [] {
      assert FormText(names, uri).value + tail == tail;
      BehindNothing(ReadTokens(tail, uri));
    } else {
      var text, more := NameText(names[0], uri).value, FormText(names[1..], uri).value;
      FormThen(names[1..], uri, tail);
      TokenThen(names[0], uri, more + tail);
      FormParts(text, more, tail);
      BehindOneMore(TokenOf(names[0]), TokensOf(names[1..]), ReadTokens(tail, uri));
      TokensOfTail(names);
    }
  }

  lemma {:induction false} FormParts(text: seq<bv8>, more: seq<bv8>, tail: seq<bv8>)
    ensures [SOLIDUS] + text + more + tail == [SOLIDUS] + (text + (more + tail))
  {
  }

  lemma {:induction false} TokenThen(name: seq<bv8>, uri: bool, rest: seq<bv8>)
    requires NameText(name, uri).Some? && EndsName(rest)
    ensures ReadTokens([SOLIDUS] + (NameText(name, uri).value + rest), uri)
         == Behind([TokenOf(name)], ReadTokens(rest, uri))
  {
    var s := [SOLIDUS] + (NameText(name, uri).value + rest);
    assert s[1..] == NameText(name, uri).value + rest;
    TextThen(name, uri, rest, [], true);
    assert [] + name == name;
  }

  lemma {:induction false} BehindNothing(r: Tokens)
    ensures Behind([], r) == r
  {
    assert r.Tokens? ==> [] + r.tokens == r.tokens;
  }

  lemma {:induction false} BehindOneMore(t: Token, done: seq<Token>, r: Tokens)
    ensures Behind([t] + done, r) == Behind([t], Behind(done, r))
  {
    if r.Tokens? {
      Assoc([t], done, r.tokens);
    }
  }

  /** Some names, and the text of one more, in the given form. */
  function Opening(names: seq<seq<bv8>>, name: seq<bv8>, uri: bool): seq<bv8>
    requires FormText(names, uri).Some? && NameText(name, uri).Some?
  {
    (if uri then [NUMBER_SIGN] else []) + FormText(names, uri).value + [SOLIDUS] + NameText(name, uri).value
  }

  lemma {:induction false} OpeningThen(names: seq<seq<bv8>>, name: seq<bv8>, uri: bool, tail: seq<bv8>,
                                       code: ParseError,
                                       rest: seq<bv8>)
    requires FormText(names, uri).Some? && NameText(name, uri).Some?
    requires ReadName(tail, uri, name, AllDigits(name)) == TokenError(code, rest)
    ensures ReadPointer(Opening(names, name, uri) + tail) == Invalid(code, rest)
  {
    var form, text := FormText(names, uri).value, NameText(name, uri).value;
    var last := [SOLIDUS] + (text + tail);
    OpeningParts(names, uri, text, tail);
    FormThen(names, uri, last);
    ErrorFirst(name, uri, tail, code, rest);
  }

  lemma {:induction false} ErrorFirst(name: seq<bv8>, uri: bool, tail: seq<bv8>, code: ParseError, rest: seq<bv8>)
    requires NameText(name, uri).Some?
    requires ReadName(tail, uri, name, AllDigits(name)) == TokenError(code, rest)
    ensures ReadTokens([SOLIDUS] + (NameText(name, uri).value + tail), uri) == Invalid(code, rest)
  {
    var s := [SOLIDUS] + (NameText(name, uri).value + tail);
    assert s[1..] == NameText(name, uri).value + tail;
    TextThen(name, uri, tail, [], true);
    assert [] + name == name;
  }

  lemma {:induction false} OpeningParts(names: seq<seq<bv8>>, uri: bool, text: seq<bv8>, tail: seq<bv8>)
    requires FormText(names, uri).Some?
    ensures var form := FormText(names, uri).value;
            var source := (if uri then [NUMBER_SIGN] else []) + form + [SOLIDUS] + text + tail;
            && (IsUri(source) <==> uri)
            && (if uri then source[1..] else source) == form + ([SOLIDUS] + (text + tail))
  {
    var form := FormText(names, uri).value;
    assert names != [] ==> form[0] == SOLIDUS;
  }

  /** A tilde that is not followed by a zero or a one is an invalid escape, found behind the tilde. */
  lemma {:induction false} EscapeError(names: seq<seq<bv8>>, name: seq<bv8>, uri: bool, rest: seq<bv8>)
    requires FormText(names, uri).Some? && NameText(name, uri).Some?
    requires rest == [] || (rest[0] != 0x30 && rest[0] != 0x31)
    ensures ReadPointer(Opening(names, name, uri) + ([0x7E] + rest)) == Invalid(InvalidEscape, rest)
  {
    var tail := [TILDE] + rest;
    PlainDigits();
    assert tail[1..] == rest;
    OpeningThen(names, name, uri, tail, InvalidEscape, rest);
  }

  /** In the URI form a percent sign without two digits in base sixteen behind it is an invalid encoding. */
  lemma {:induction false} PercentError(names: seq<seq<bv8>>, name: seq<bv8>, rest: seq<bv8>)
    requires FormText(names, true).Some? && NameText(name, true).Some?
    requires |rest| < 2 || !IsHex(rest[0]) || !IsHex(rest[1])
    ensures ReadPointer(Opening(names, name, true) + ([0x25] + rest)) == Invalid(InvalidPercentEncoding, [0x25] + rest)
  {
    var tail := [PERCENT] + rest;
    assert !IsTriplet(tail);
    OpeningThen(names, name, true, tail, InvalidPercentEncoding, tail);
  }

  /** In the URI form a character that needs percent encoding must not stand for itself. */
  lemma {:induction false} CharacterError(names: seq<seq<bv8>>, name: seq<bv8>, c: bv8, rest: seq<bv8>)
    requires FormText(names, true).Some? && NameText(name, true).Some?
    requires NeedPercentEncode(c) && c != 0x25 && c != 0x2F
    ensures ReadPointer(Opening(names, name, true) + ([c] + rest)) == Invalid(CharacterMustPercentEncode, [c] + rest)
  {
    OpeningThen(names, name, true, [c] + rest, CharacterMustPercentEncode, [c] + rest);
  }

  /** A pointer that is not empty begins with a solidus, behind the number sign of the URI form. */
  lemma {:induction false} StartError(source: seq<bv8>)
    ensures source != [] && source[0] != 0x23 && source[0] != 0x2F ==>
              ReadPointer(source) == Invalid(TokenMustBeginWithSolidus, source)
    ensures |source| > 1 && source[0] == 0x23 && source[1] != 0x2F ==>
              ReadPointer(source) == Invalid(TokenMustBeginWithSolidus, source[1..])
  {
  }
}
