/** The UTF-8 encoding (sections 3 and 4 of RFC 3629): encoding, decoding and validating streams of bytes. */
module Utf8 {
  import opened Options

  /** A Unicode scalar value: a code point that is no surrogate. */
  predicate Scalar(cp: bv32) {
    cp <= 0xD7FF || 0xE000 <= cp <= 0x10FFFF
  }

  // ---- Bits ----

  function LowByte(x: bv32): bv8 {
    (x & 0xFF) as bv8
  }

  function Low6(x: bv32): bv32 {
    x & 0x3F
  }

  function Drop6(x: bv32): bv32 {
    x >> 6
  }

  function Drop12(x: bv32): bv32 {
    x >> 12
  }

  function Drop18(x: bv32): bv32 {
    x >> 18
  }

  function Shift6(x: bv32): bv32 {
    x << 6
  }

  /** The six bits a continuation byte carries. */
  function Payload(c: bv8): bv32 {
    (c & 0x3F) as bv32
  }

  function Append(cp: bv32, c: bv8): bv32 {
    Shift6(cp) | Payload(c)
  }

  function Lead2(cp: bv32): bv8 {
    LowByte(0xC0 | (Drop6(cp) & 0xFF))
  }

  function Lead3(cp: bv32): bv8 {
    LowByte(0xE0 | (Drop12(cp) & 0xFF))
  }

  function Lead4(cp: bv32): bv8 {
    LowByte(0xF0 | (Drop18(cp) & 0xFF))
  }

  function Tail(x: bv32): bv8 {
    LowByte(0x80 | Low6(x))
  }

  /** The bytes Encode puts for a code point. */
  function Bytes(cp: bv32): (s: seq<bv8>)
    requires cp <= 0x10FFFF
    ensures 1 <= |s| <= 4
  {
    if cp <= 0x7F then [LowByte(cp)]
    else if cp <= 0x7FF then [Lead2(cp), Tail(cp)]
    else if cp <= 0xFFFF then [Lead3(cp), Tail(Drop6(cp)), Tail(cp)]
    else [Lead4(cp), Tail(Drop12(cp)), Tail(Drop6(cp)), Tail(cp)]
  }

  /** The number a byte stands for. */
  function Value(c: bv8): bv32 {
    c as bv32
  }

  lemma {:induction false} TailValue(x: bv32)
    ensures Value(Tail(x)) == 0x80 + x % 0x40
    ensures Value(Tail(Drop6(x))) == 0x80 + x / 0x40 % 0x40
    ensures Value(Tail(Drop12(x))) == 0x80 + x / 0x1000 % 0x40
  {
  }

  lemma {:induction false} LeadValue(cp: bv32)
    ensures cp <= 0x7F ==> Value(LowByte(cp)) == cp
    ensures cp <= 0x7FF ==> Value(Lead2(cp)) == 0xC0 + cp / 0x40
    ensures cp <= 0xFFFF ==> Value(Lead3(cp)) == 0xE0 + cp / 0x1000
    ensures cp <= 0x10FFFF ==> Value(Lead4(cp)) == 0xF0 + cp / 0x40000
  {
  }

  lemma {:induction false} Bytes2Value(cp: bv32)
    requires 0x80 <= cp < 0x800
    ensures |Bytes(cp)| == 2
    ensures Value(Bytes(cp)[0]) == 0xC0 + cp / 0x40 && Value(Bytes(cp)[1]) == 0x80 + cp % 0x40
  {
    LeadValue(cp);
    TailValue(cp);
  }

  lemma {:induction false} Bytes3Value(cp: bv32)
    requires 0x800 <= cp < 0x10000
    ensures |Bytes(cp)| == 3
    ensures Value(Bytes(cp)[0]) == 0xE0 + cp / 0x1000 && Value(Bytes(cp)[1]) == 0x80 + cp / 0x40 % 0x40
            && Value(Bytes(cp)[2]) == 0x80 + cp % 0x40
  {
    LeadValue(cp);
    TailValue(cp);
  }

  lemma {:induction false} Bytes4Value(cp: bv32)
    requires 0x10000 <= cp <= 0x10FFFF
    ensures |Bytes(cp)| == 4
    ensures Value(Bytes(cp)[0]) == 0xF0 + cp / 0x40000 && Value(Bytes(cp)[1]) == 0x80 + cp / 0x1000 % 0x40
            && Value(Bytes(cp)[2]) == 0x80 + cp / 0x40 % 0x40 && Value(Bytes(cp)[3]) == 0x80 + cp % 0x40
  {
    LeadValue(cp);
    TailValue(cp);
  }

  /**
    The bytes as numbers: a lead byte of C0, E0 or F0 plus the highest digit of the code point in base 64, then 80
    plus each further digit; two bytes from 80 on, three from 800 on, four from 10000 on.
   */
  lemma {:induction false} BytesValue(cp: bv32)
    requires cp <= 0x10FFFF
    ensures var s := Bytes(cp);
            if cp < 0x80 then |s| == 1 && Value(s[0]) == cp
            else if cp < 0x800 then
              |s| == 2 && Value(s[0]) == 0xC0 + cp / 0x40 && Value(s[1]) == 0x80 + cp % 0x40
            else if cp < 0x10000 then
              && |s| == 3 && Value(s[0]) == 0xE0 + cp / 0x1000
              && Value(s[1]) == 0x80 + cp / 0x40 % 0x40 && Value(s[2]) == 0x80 + cp % 0x40
            else
              && |s| == 4 && Value(s[0]) == 0xF0 + cp / 0x40000 && Value(s[1]) == 0x80 + cp / 0x1000 % 0x40
              && Value(s[2]) == 0x80 + cp / 0x40 % 0x40 && Value(s[3]) == 0x80 + cp % 0x40
  {
    if cp < 0x80 {
      LeadValue(cp);
    } else if cp < 0x800 {
      Bytes2Value(cp);
    } else if cp < 0x10000 {
      Bytes3Value(cp);
    } else {
      Bytes4Value(cp);
    }
  }

  // ---- Classes of bytes ----

  /** The class of a byte: 0 ASCII, 0x10/0x20/0x40 continuation bytes, 8 never valid, others lead bytes. */
  function GetRange(c: bv8): bv8 {
    if c <= 0x7F then 0
    else if c <= 0x8F then 0x10
    else if c <= 0x9F then 0x40
    else if c <= 0xBF then 0x20
    else if c <= 0xC1 then 8
    else if c <= 0xDF then 2
    else if c == 0xE0 then 10
    else if c == 0xED then 4
    else if c <= 0xEF then 3
    else if c == 0xF0 then 11
    else if c <= 0xF3 then 6
    else if c == 0xF4 then 5
    else 8
  }

  predicate Allowed(c: bv8, mask: bv8) {
    GetRange(c) & mask != 0
  }

  /** How many bytes a first byte makes the decoder take. */
  function Width(c: bv8): (n: nat)
    ensures 1 <= n <= 4
  {
    var t := GetRange(c);
    if t == 2 then 2
    else if t == 3 || t == 4 || t == 10 then 3
    else if t == 5 || t == 6 || t == 11 then 4
    else 1
  }

  /** The classes allowed for the byte behind a lead byte. */
  function SecondMask(c: bv8): bv8 {
    var t := GetRange(c);
    if t == 4 then 0x50 else if t == 5 then 0x10 else if t == 10 then 0x20 else if t == 11 then 0x60 else 0x70
  }

  /** The payload bits of a first byte: all ones shifted right by its class, and-ed with it; none from class 32 on. */
  function LeadBits(c: bv8): bv32 {
    var t := GetRange(c);
    if t == 0 then c as bv32
    else if t == 2 then (c & 0x3F) as bv32
    else if t == 3 then (c & 0x1F) as bv32
    else if t == 4 then (c & 0x0F) as bv32
    else if t == 5 then (c & 0x07) as bv32
    else if t == 6 then (c & 0x03) as bv32
    else 0
  }

  // ---- Decoding ----

  /** Whether Decode succeeds when it would take these bytes, as many of them as the first one asks for. */
  predicate Decodable(c: bv8, d: bv8, e: bv8, f: bv8) {
    var n := Width(c);
    && (n == 1 ==> c <= 0x7F)
    && (n >= 2 ==> Allowed(d, SecondMask(c)))
    && (n >= 3 ==> Allowed(e, 0x70))
    && (n >= 4 ==> Allowed(f, 0x70))
  }

  /** The code point Decode yields for these bytes. */
  function CodePoint(c: bv8, d: bv8, e: bv8, f: bv8): bv32 {
    var n := Width(c);
    if n == 1 then LeadBits(c)
    else if n == 2 then Append(LeadBits(c), d)
    else if n == 3 then Append(Append(LeadBits(c), d), e)
    else Append(Append(Append(LeadBits(c), d), e), f)
  }

  // ---- Encoded bytes are decoded ----

  lemma {:induction false} TailRange(x: bv32)
    ensures 0x80 <= Tail(x) <= 0xBF
  {
  }

  lemma {:induction false} TailPayload(x: bv32)
    ensures Payload(Tail(x)) == Low6(x)
  {
  }

  lemma {:induction false} TailAllowed(c: bv8)
    requires 0x80 <= c <= 0xBF
    ensures Allowed(c, 0x70)
  {
  }

  lemma {:induction false} Lead2Range(cp: bv32)
    requires 0x7F < cp <= 0x7FF
    ensures 0xC2 <= Lead2(cp) <= 0xDF
  {
  }

  lemma {:induction false} Lead2Bits(cp: bv32)
    requires 0x7F < cp <= 0x7FF && 0xC2 <= Lead2(cp) <= 0xDF
    ensures LeadBits(Lead2(cp)) == Drop6(cp)
  {
  }

  lemma {:induction false} Lead3Range(cp: bv32)
    requires 0x7FF < cp <= 0xFFFF
    ensures 0xE0 <= Lead3(cp) <= 0xEF
  {
  }

  lemma {:induction false} Lead3Special(cp: bv32)
    requires 0x7FF < cp <= 0xFFFF
    ensures (Lead3(cp) == 0xE0 <==> cp <= 0xFFF) && (Lead3(cp) == 0xED <==> 0xD000 <= cp <= 0xDFFF)
  {
  }

  lemma {:induction false} Lead3Bits(cp: bv32)
    requires 0x7FF < cp <= 0xFFFF && 0xE0 <= Lead3(cp) <= 0xEF
    ensures LeadBits(Lead3(cp)) == Drop12(cp)
  {
  }

  lemma {:induction false} Lead4Range(cp: bv32)
    requires 0xFFFF < cp <= 0x10FFFF
    ensures 0xF0 <= Lead4(cp) <= 0xF4
  {
  }

  lemma {:induction false} Lead4Special(cp: bv32)
    requires 0xFFFF < cp <= 0x10FFFF
    ensures (Lead4(cp) == 0xF0 <==> cp <= 0x3FFFF) && (Lead4(cp) == 0xF4 <==> 0x100000 <= cp)
  {
  }

  lemma {:induction false} Lead4Bits(cp: bv32)
    requires 0xFFFF < cp <= 0x10FFFF && 0xF0 <= Lead4(cp) <= 0xF4
    ensures LeadBits(Lead4(cp)) == Drop18(cp)
  {
  }

  lemma {:induction false} Second3(cp: bv32)
    requires 0x7FF < cp <= 0xFFFF
    ensures cp <= 0xFFF ==> Tail(Drop6(cp)) >= 0xA0
    ensures 0xD000 <= cp <= 0xDFFF ==> (Tail(Drop6(cp)) <= 0x9F <==> cp <= 0xD7FF)
  {
  }

  lemma {:induction false} Second4(cp: bv32)
    requires 0xFFFF < cp <= 0x10FFFF
    ensures cp <= 0x3FFFF ==> Tail(Drop12(cp)) >= 0x90
    ensures 0x100000 <= cp ==> Tail(Drop12(cp)) <= 0x8F
  {
  }

  lemma {:induction false} RawGroup6(cp: bv32)
    ensures ((cp >> 6) << 6) | (cp & 0x3F) == cp
  {
  }

  lemma {:induction false} RawGroup12(cp: bv32)
    ensures ((cp >> 12) << 6) | ((cp >> 6) & 0x3F) == cp >> 6
  {
  }

  lemma {:induction false} RawGroup18(cp: bv32)
    ensures ((cp >> 18) << 6) | ((cp >> 12) & 0x3F) == cp >> 12
  {
  }

  /** Appending the tail byte of a group to the groups above it restores the group. */
  lemma {:induction false} Append6(cp: bv32)
    ensures Append(Drop6(cp), Tail(cp)) == cp
  {
    TailPayload(cp);
    RawGroup6(cp);
  }

  lemma {:induction false} Append12(cp: bv32)
    ensures Append(Drop12(cp), Tail(Drop6(cp))) == Drop6(cp)
  {
    TailPayload(Drop6(cp));
    RawGroup12(cp);
  }

  lemma {:induction false} Append18(cp: bv32)
    ensures Append(Drop18(cp), Tail(Drop12(cp))) == Drop12(cp)
  {
    TailPayload(Drop12(cp));
    RawGroup18(cp);
  }

  lemma {:induction false} Wide(c: bv8)
    ensures 0xC2 <= c <= 0xDF ==> Width(c) == 2
    ensures 0xE0 <= c <= 0xEF ==> Width(c) == 3
    ensures 0xF0 <= c <= 0xF4 ==> Width(c) == 4
  {
  }

  /** Three bytes are accepted exactly if the second one excludes overlong forms and surrogates. */
  lemma {:induction false} Accepted3(c: bv8, d: bv8, e: bv8, f: bv8)
    requires 0xE0 <= c <= 0xEF && 0x80 <= d <= 0xBF && 0x80 <= e <= 0xBF
    ensures Decodable(c, d, e, f) <==> (c == 0xE0 ==> d >= 0xA0) && (c == 0xED ==> d <= 0x9F)
  {
  }

  lemma {:induction false} Accepted4(c: bv8, d: bv8, e: bv8, f: bv8)
    requires 0xF0 <= c <= 0xF4 && 0x80 <= d <= 0xBF && 0x80 <= e <= 0xBF && 0x80 <= f <= 0xBF
    ensures Decodable(c, d, e, f) <==> (c == 0xF0 ==> d >= 0x90) && (c == 0xF4 ==> d <= 0x8F)
  {
  }

  lemma {:induction false} Encoded1(cp: bv32, d: bv8, e: bv8, f: bv8)
    requires cp <= 0x7F
    ensures Decodable(LowByte(cp), d, e, f) && CodePoint(LowByte(cp), d, e, f) == cp && Width(LowByte(cp)) == 1
  {
  }

  lemma {:induction false} Encoded2(cp: bv32, e: bv8, f: bv8)
    requires 0x7F < cp <= 0x7FF
    ensures Decodable(Lead2(cp), Tail(cp), e, f) && CodePoint(Lead2(cp), Tail(cp), e, f) == cp && Width(Lead2(cp)) == 2
  {
    Lead2Range(cp);
    Lead2Bits(cp);
    Wide(Lead2(cp));
    TailRange(cp);
    TailAllowed(Tail(cp));
    Append6(cp);
  }

  lemma {:induction false} Encoded3(cp: bv32, f: bv8)
    requires 0x7FF < cp <= 0xFFFF
    ensures var c, d, e := Lead3(cp), Tail(Drop6(cp)), Tail(cp); CodePoint(c, d, e, f) == cp && Width(c) == 3
  {
    Lead3Range(cp);
    Lead3Bits(cp);
    Wide(Lead3(cp));
    Append12(cp);
    Append6(cp);
  }

  lemma {:induction false} Encoded3Accepted(cp: bv32, f: bv8)
    requires 0x7FF < cp <= 0xFFFF
    ensures Decodable(Lead3(cp), Tail(Drop6(cp)), Tail(cp), f) <==> Scalar(cp)
  {
    Lead3Range(cp);
    Lead3Special(cp);
    Second3(cp);
    TailRange(Drop6(cp));
    TailRange(cp);
    Accepted3(Lead3(cp), Tail(Drop6(cp)), Tail(cp), f);
  }

  lemma {:induction false} Encoded4(cp: bv32)
    requires 0xFFFF < cp <= 0x10FFFF
    ensures CodePoint(Lead4(cp), Tail(Drop12(cp)), Tail(Drop6(cp)), Tail(cp)) == cp && Width(Lead4(cp)) == 4
  {
    Lead4Range(cp);
    Lead4Bits(cp);
    Wide(Lead4(cp));
    Append18(cp);
    Append12(cp);
    Append6(cp);
  }

  lemma {:induction false} Encoded4Accepted(cp: bv32)
    requires 0xFFFF < cp <= 0x10FFFF
    ensures Decodable(Lead4(cp), Tail(Drop12(cp)), Tail(Drop6(cp)), Tail(cp))
  {
    Lead4Range(cp);
    Lead4Special(cp);
    Second4(cp);
    TailRange(Drop12(cp));
    TailRange(Drop6(cp));
    TailRange(cp);
    Accepted4(Lead4(cp), Tail(Drop12(cp)), Tail(Drop6(cp)), Tail(cp));
  }

  // ---- Decoded bytes are an encoding ----

  lemma {:induction false} RawDrop(x: bv32, p: bv32)
    requires x <= 0x3FF_FFFF && p <= 0x3F
    ensures ((x << 6) | p) >> 6 == x
  {
  }

  lemma {:induction false} PayloadSmall(c: bv8)
    ensures Payload(c) <= 0x3F
  {
  }

  lemma {:induction false} DropAppend(x: bv32, c: bv8)
    requires x <= 0x3FF_FFFF
    ensures Drop6(Append(x, c)) == x
  {
    PayloadSmall(c);
    RawDrop(x, Payload(c));
  }

  lemma {:induction false} LowAppend(x: bv32, c: bv8)
    ensures Low6(Append(x, c)) == Payload(c)
  {
    assert ((x << 6) | ((c & 0x3F) as bv32)) & 0x3F == (c & 0x3F) as bv32;
  }

  lemma {:induction false} DropTwice(x: bv32)
    ensures Drop12(x) == Drop6(Drop6(x))
  {
    assert x >> 12 == (x >> 6) >> 6;
  }

  lemma {:induction false} RawThrice(x: bv32)
    ensures x >> 18 == ((x >> 6) >> 6) >> 6
  {
  }

  lemma {:induction false} DropThrice(x: bv32)
    ensures Drop18(x) == Drop6(Drop6(Drop6(x)))
  {
    RawThrice(x);
  }

  /** A continuation byte is the tail byte of any group that ends in its payload. */
  lemma {:induction false} TailOf(x: bv32, c: bv8)
    requires 0x80 <= c <= 0xBF && Low6(x) == Payload(c)
    ensures Tail(x) == c
  {
  }

  lemma {:induction false} Lead2Of(cp: bv32, c: bv8)
    requires 0xC2 <= c <= 0xDF && Drop6(cp) == LeadBits(c)
    ensures Lead2(cp) == c
  {
  }

  lemma {:induction false} Lead3Of(cp: bv32, c: bv8)
    requires 0xE0 <= c <= 0xEF && Drop12(cp) == LeadBits(c)
    ensures Lead3(cp) == c
  {
  }

  lemma {:induction false} Lead4Of(cp: bv32, c: bv8)
    requires 0xF0 <= c <= 0xF4 && Drop18(cp) == LeadBits(c)
    ensures Lead4(cp) == c
  {
  }

  lemma {:induction false} LeadSmall(c: bv8)
    ensures LeadBits(c) <= 0x7F
    ensures Width(c) == 2 <==> 0xC2 <= c <= 0xDF
    ensures Width(c) == 3 <==> 0xE0 <= c <= 0xEF
    ensures Width(c) == 4 <==> 0xF0 <= c <= 0xF4
  {
  }

  lemma {:induction false} AppendSmall(x: bv32, c: bv8)
    ensures x <= 0x7F ==> Append(x, c) <= 0x1FFF
    ensures x <= 0x1FFF ==> Append(x, c) <= 0x7FFFF
  {
  }

  lemma {:induction false} AllowedTail(c: bv8, mask: bv8)
    requires Allowed(c, mask) && mask & 0x8F == 0
    ensures 0x80 <= c <= 0xBF
  {
  }

  /** The code points with an encoding of the given width; overlong forms are not among them. */
  predicate InClass(cp: bv32, width: nat) {
    if width == 1 then cp <= 0x7F
    else if width == 2 then 0x7F < cp <= 0x7FF
    else if width == 3 then 0x7FF < cp <= 0xFFFF
    else 0xFFFF < cp <= 0x10FFFF
  }

  lemma {:induction false} DecodedClass(c: bv8, d: bv8, e: bv8, f: bv8)
    requires Decodable(c, d, e, f)
    ensures Scalar(CodePoint(c, d, e, f)) && InClass(CodePoint(c, d, e, f), Width(c))
  {
  }

  lemma {:induction false} Decoded1(c: bv8, d: bv8, e: bv8, f: bv8)
    requires Decodable(c, d, e, f) && Width(c) == 1
    ensures LowByte(CodePoint(c, d, e, f)) == c
  {
  }

  lemma {:induction false} SecondTail(c: bv8, d: bv8)
    requires Allowed(d, SecondMask(c))
    ensures 0x80 <= d <= 0xBF
  {
  }

  lemma {:induction false} Decoded2(c: bv8, d: bv8, e: bv8, f: bv8)
    requires Decodable(c, d, e, f) && Width(c) == 2
    ensures var cp := CodePoint(c, d, e, f); Lead2(cp) == c && Tail(cp) == d
  {
    LeadSmall(c);
    SecondTail(c, d);
    var cp := Append(LeadBits(c), d);
    DropAppend(LeadBits(c), d);
    LowAppend(LeadBits(c), d);
    Lead2Of(cp, c);
    TailOf(cp, d);
  }

  lemma {:induction false} Decoded3(c: bv8, d: bv8, e: bv8, f: bv8)
    requires Decodable(c, d, e, f) && Width(c) == 3
    ensures var cp := CodePoint(c, d, e, f); Lead3(cp) == c && Tail(Drop6(cp)) == d && Tail(cp) == e
  {
    LeadSmall(c);
    SecondTail(c, d);
    AllowedTail(e, 0x70);
    var x := Append(LeadBits(c), d);
    var cp := Append(x, e);
    AppendSmall(LeadBits(c), d);
    DropAppend(LeadBits(c), d);
    LowAppend(LeadBits(c), d);
    DropAppend(x, e);
    LowAppend(x, e);
    DropTwice(cp);
    Lead3Of(cp, c);
    TailOf(Drop6(cp), d);
    TailOf(cp, e);
  }

  lemma {:induction false} Decoded4(c: bv8, d: bv8, e: bv8, f: bv8)
    requires Decodable(c, d, e, f) && Width(c) == 4
    ensures var cp := CodePoint(c, d, e, f);
            Lead4(cp) == c && Tail(Drop12(cp)) == d && Tail(Drop6(cp)) == e && Tail(cp) == f
  {
    LeadSmall(c);
    SecondTail(c, d);
    AllowedTail(e, 0x70);
    AllowedTail(f, 0x70);
    var x := Append(LeadBits(c), d);
    var y := Append(x, e);
    var cp := Append(y, f);
    AppendSmall(LeadBits(c), d);
    AppendSmall(x, e);
    DropAppend(LeadBits(c), d);
    LowAppend(LeadBits(c), d);
    DropAppend(x, e);
    LowAppend(x, e);
    DropAppend(y, f);
    LowAppend(y, f);
    DropTwice(cp);
    DropThrice(cp);
    Lead4Of(cp, c);
    TailOf(Drop12(cp), d);
    TailOf(Drop6(cp), e);
    TailOf(cp, f);
  }

  // ---- Streams of bytes ----

  /** The i-th byte taken from a stream: zero beyond the end. */
  function ByteAt(s: seq<bv8>, i: nat): bv8 {
    if i < |s| then s[i] else 0
  }

  /** Taking one byte: the first one, or zero from an empty stream. */
  lemma {:induction false} ByteAtMeaning(s: seq<bv8>)
    ensures if s == [] then ByteAt(s, 0) == 0 && After(s, 1) == [] else ByteAt(s, 0) == s[0] && After(s, 1) == s[1..]
  {
  }

  predicate StreamDecodable(s: seq<bv8>) {
    Decodable(ByteAt(s, 0), ByteAt(s, 1), ByteAt(s, 2), ByteAt(s, 3))
  }

  function StreamCodePoint(s: seq<bv8>): bv32 {
    CodePoint(ByteAt(s, 0), ByteAt(s, 1), ByteAt(s, 2), ByteAt(s, 3))
  }

  /** What is left of a stream after n bytes have been taken from it. */
  function After(s: seq<bv8>, n: nat): seq<bv8> {
    if n <= |s| then s[n..] else []
  }

  /**
    Whatever follows, the encoding of a code point up to 0x10FFFF is decoded as that code point, and accepted unless it
    is a surrogate.
   */
  lemma {:induction false} EncodedDecodes(cp: bv32, tail: seq<bv8>)
    requires cp <= 0x10FFFF
    ensures var s := Bytes(cp) + tail;
            && StreamCodePoint(s) == cp && Width(s[0]) == |Bytes(cp)|
            && (StreamDecodable(s) <==> Scalar(cp))
  {
    var b := Bytes(cp);
    var s := b + tail;
    if cp <= 0x7F {
      Encoded1(cp, ByteAt(s, 1), ByteAt(s, 2), ByteAt(s, 3));
    } else if cp <= 0x7FF {
      Encoded2(cp, ByteAt(s, 2), ByteAt(s, 3));
    } else if cp <= 0xFFFF {
      Encoded3(cp, ByteAt(s, 3));
      Encoded3Accepted(cp, ByteAt(s, 3));
    } else {
      Encoded4(cp);
      Encoded4Accepted(cp);
    }
  }

  lemma {:induction false} ZeroNotAllowed(mask: bv8)
    ensures !Allowed(0, mask)
  {
  }

  /**
    A stream decoded without failure starts with the encoding of the scalar value found: no overlong form, no surrogate,
    no cut.
   */
  lemma {:induction false} DecodedIsEncoding(s: seq<bv8>)
    requires s != [] && StreamDecodable(s)
    ensures Scalar(StreamCodePoint(s)) && Width(s[0]) <= |s|
    ensures Bytes(StreamCodePoint(s)) == s[..Width(s[0])]
  {
    var c, d, e, f := ByteAt(s, 0), ByteAt(s, 1), ByteAt(s, 2), ByteAt(s, 3);
    DecodedClass(c, d, e, f);
    ZeroNotAllowed(SecondMask(c));
    ZeroNotAllowed(0x70);
    if Width(c) == 1 {
      Decoded1(c, d, e, f);
    } else if Width(c) == 2 {
      Decoded2(c, d, e, f);
    } else if Width(c) == 3 {
      Decoded3(c, d, e, f);
    } else {
      Decoded4(c, d, e, f);
    }
  }

  // ---- Whole texts ----

  predicate AllScalar(cps: seq<bv32>) {
    forall i :: 0 <= i < |cps| ==> Scalar(cps[i])
  }

  function EncodeAll(cps: seq<bv32>): seq<bv8>
    requires AllScalar(cps)
  {
    if cps == [] then [] else Bytes(cps[0]) + EncodeAll(cps[1..])
  }

  /** Decoding a text to its end; None if Decode fails anywhere. */
  function DecodeAll(s: seq<bv8>): Option<seq<bv32>>
    decreases |s|
  {
    if s == [] then Some([])
    else if !StreamDecodable(s) then None
    else
      match DecodeAll(After(s, Width(s[0])))
      case None => None
      case Some(rest) => Some([StreamCodePoint(s)] + rest)
  }

  /** Encoding any sequence of scalar values and decoding it again returns it. */
  lemma {:induction false} TextRoundTrip(cps: seq<bv32>)
    requires AllScalar(cps)
    ensures DecodeAll(EncodeAll(cps)) == Some(cps)
  {
    if cps != [] {
      var tail := EncodeAll(cps[1..]);
      var s := Bytes(cps[0]) + tail;
      EncodedDecodes(cps[0], tail);
      assert After(s, |Bytes(cps[0])|) == tail;
      TextRoundTrip(cps[1..]);
      assert cps == [cps[0]] + cps[1..];
    }
  }

  /** A text that is decoded without failure is the encoding of exactly the scalar values found. */
  lemma {:induction false} DecodedText(s: seq<bv8>)
    requires DecodeAll(s).Some?
    ensures AllScalar(DecodeAll(s).value) && EncodeAll(DecodeAll(s).value) == s
    decreases |s|
  {
    if s != [] {
      var rest := After(s, Width(s[0]));
      DecodedHead(s);
      DecodedText(rest);
      EncodeStep(StreamCodePoint(s), DecodeAll(rest).value);
    }
  }

  lemma {:induction false} DecodedHead(s: seq<bv8>)
    requires s != [] && StreamDecodable(s)
    ensures Scalar(StreamCodePoint(s)) && s == Bytes(StreamCodePoint(s)) + After(s, Width(s[0]))
  {
    DecodedIsEncoding(s);
  }

  lemma {:induction false} EncodeStep(cp: bv32, rest: seq<bv32>)
    requires Scalar(cp) && AllScalar(rest)
    ensures AllScalar([cp] + rest) && EncodeAll([cp] + rest) == Bytes(cp) + EncodeAll(rest)
  {
    assert ([cp] + rest)[1..] == rest;
  }

  /** Decoding succeeds exactly on the encodings, and no text encodes two different sequences. */
  lemma {:induction false} TextDecodable(s: seq<bv8>)
    ensures DecodeAll(s).Some? <==> exists cps :: AllScalar(cps) && EncodeAll(cps) == s
  {
    if DecodeAll(s).Some? {
      DecodedText(s);
    }
    if cps :| AllScalar(cps) && EncodeAll(cps) == s {
      TextRoundTrip(cps);
    }
  }

  lemma {:induction false} EncodingUnique(a: seq<bv32>, b: seq<bv32>)
    requires AllScalar(a) && AllScalar(b) && EncodeAll(a) == EncodeAll(b)
    ensures a == b
  {
    TextRoundTrip(a);
    TextRoundTrip(b);
  }

  // ---- The stream operations ----

  class InputStream {
    var src: seq<bv8>

    constructor (src: seq<bv8>)
      ensures this.src == src
    {
      this.src := src;
    }

    /** The next byte, or zero at the end. */
    method Take() returns (c: bv8)
      modifies this
      ensures c == ByteAt(old(src), 0) && src == After(old(src), 1)
    {
      if src == [] {
        return 0;
      }
      c := src[0];
      src := src[1..];
    }
  }

  class OutputStream {
    var dst: seq<bv8>

    constructor ()
      ensures dst == []
    {
      dst := [];
    }

    method Put(c: bv8)
      modifies this
      ensures dst == old(dst) + [c]
    {
      dst := dst + [c];
    }
  }

  method Encode(os: OutputStream, codepoint: bv32)
    requires codepoint <= 0x10FFFF
    modifies os
    ensures os.dst == old(os.dst) + Bytes(codepoint)
  {
    if codepoint <= 0x7F {
      os.Put(LowByte(codepoint));
    } else if codepoint <= 0x7FF {
      os.Put(Lead2(codepoint));
      os.Put(Tail(codepoint));
    } else if codepoint <= 0xFFFF {
      os.Put(Lead3(codepoint));
      os.Put(Tail(Drop6(codepoint)));
      os.Put(Tail(codepoint));
    } else {
      os.Put(Lead4(codepoint));
      os.Put(Tail(Drop12(codepoint)));
      os.Put(Tail(Drop6(codepoint)));
      os.Put(Tail(codepoint));
    }
  }

  /** Takes one continuation byte, appends its payload and checks its class. */
  method Continue(input: InputStream, codepoint: bv32, result: bool, mask: bv8) returns (cp: bv32, ok: bool)
    modifies input
    ensures input.src == After(old(input.src), 1)
    ensures cp == Append(codepoint, ByteAt(old(input.src), 0))
    ensures ok == (result && Allowed(ByteAt(old(input.src), 0), mask))
  {
    var c := input.Take();
    cp := Append(codepoint, c);
    ok := result && GetRange(c) & mask != 0;
  }

  lemma {:induction false} TakenAfter(s: seq<bv8>, n: nat, i: nat)
    ensures ByteAt(After(s, n), i) == ByteAt(s, n + i) && After(After(s, n), i) == After(s, n + i)
  {
    if n + i <= |s| {
      assert s[n..][i..] == s[n + i..];
    }
  }

  method Decode(input: InputStream) returns (ok: bool, codepoint: bv32)
    modifies input
    ensures ok == StreamDecodable(old(input.src))
    ensures ok ==> codepoint == StreamCodePoint(old(input.src))
    ensures input.src == After(old(input.src), Width(ByteAt(old(input.src), 0)))
  {
    ghost var s := input.src;
    forall n: nat, i: nat ensures ByteAt(After(s, n), i) == ByteAt(s, n + i)
        && After(After(s, n), i) == After(s, n + i) {
      TakenAfter(s, n, i);
    }
    var c := input.Take();
    codepoint := LeadBits(c);
    if c <= 0x7F {
      return true, codepoint;
    }
    var t := GetRange(c);
    ok := true;
    if t == 2 {
      codepoint, ok := Continue(input, codepoint, ok, 0x70);
    } else if t == 3 {
      codepoint, ok := Continue(input, codepoint, ok, 0x70);
      codepoint, ok := Continue(input, codepoint, ok, 0x70);
    } else if t == 4 {
      codepoint, ok := Continue(input, codepoint, ok, 0x50);
      codepoint, ok := Continue(input, codepoint, ok, 0x70);
    } else if t == 5 {
      codepoint, ok := Continue(input, codepoint, ok, 0x10);
      codepoint, ok := Continue(input, codepoint, ok, 0x70);
      codepoint, ok := Continue(input, codepoint, ok, 0x70);
    } else if t == 6 {
      codepoint, ok := Continue(input, codepoint, ok, 0x70);
      codepoint, ok := Continue(input, codepoint, ok, 0x70);
      codepoint, ok := Continue(input, codepoint, ok, 0x70);
    } else if t == 10 {
      codepoint, ok := Continue(input, codepoint, ok, 0x20);
      codepoint, ok := Continue(input, codepoint, ok, 0x70);
    } else if t == 11 {
      codepoint, ok := Continue(input, codepoint, ok, 0x60);
      codepoint, ok := Continue(input, codepoint, ok, 0x70);
      codepoint, ok := Continue(input, codepoint, ok, 0x70);
    } else {
      ok := false;
    }
  }

  /** The n bytes that follow in a stream, zeros beyond its end. */
  function Taken(s: seq<bv8>, n: nat): (r: seq<bv8>)
    ensures |r| == n
  {
    seq(n, i requires 0 <= i < n => ByteAt(s, i))
  }

  /** Copies the byte behind the first `n` bytes of `s`, which are copied already, and checks its class. */
  method CopyChecked(input: InputStream, os: OutputStream, result: bool, mask: bv8, ghost s: seq<bv8>, ghost n: nat,
                     ghost put: seq<bv8>)
    returns (ok: bool)
    requires input.src == After(s, n) && os.dst == put + Taken(s, n)
    modifies input, os
    ensures input.src == After(s, n + 1) && os.dst == put + Taken(s, n + 1)
    ensures ok == (result && Allowed(ByteAt(s, n), mask))
  {
    TakenAfter(s, n, 0);
    TakenAfter(s, n, 1);
    assert Taken(s, n + 1) == Taken(s, n) + [ByteAt(s, n)];
    var c := input.Take();
    os.Put(c);
    ok := result && GetRange(c) & mask != 0;
  }

  /** Gives the verdict of Decode and copies exactly the bytes Decode takes. */
  method Validate(input: InputStream, os: OutputStream) returns (ok: bool)
    modifies input, os
    ensures ok == StreamDecodable(old(input.src))
    ensures input.src == After(old(input.src), Width(ByteAt(old(input.src), 0)))
    ensures os.dst == old(os.dst) + Taken(old(input.src), Width(ByteAt(old(input.src), 0)))
  {
    ghost var s, put := input.src, os.dst;
    var c := input.Take();
    os.Put(c);
    assert Taken(s, 1) == [c];
    if c <= 0x7F {
      return true;
    }
    var t := GetRange(c);
    ok := true;
    if t == 2 {
      ok := CopyChecked(input, os, ok, 0x70, s, 1, put);
    } else if t == 3 {
      ok := CopyChecked(input, os, ok, 0x70, s, 1, put);
      ok := CopyChecked(input, os, ok, 0x70, s, 2, put);
    } else if t == 4 {
      ok := CopyChecked(input, os, ok, 0x50, s, 1, put);
      ok := CopyChecked(input, os, ok, 0x70, s, 2, put);
    } else if t == 5 {
      ok := CopyChecked(input, os, ok, 0x10, s, 1, put);
      ok := CopyChecked(input, os, ok, 0x70, s, 2, put);
      ok := CopyChecked(input, os, ok, 0x70, s, 3, put);
    } else if t == 6 {
      ok := CopyChecked(input, os, ok, 0x70, s, 1, put);
      ok := CopyChecked(input, os, ok, 0x70, s, 2, put);
      ok := CopyChecked(input, os, ok, 0x70, s, 3, put);
    } else if t == 10 {
      ok := CopyChecked(input, os, ok, 0x20, s, 1, put);
      ok := CopyChecked(input, os, ok, 0x70, s, 2, put);
    } else if t == 11 {
      ok := CopyChecked(input, os, ok, 0x60, s, 1, put);
      ok := CopyChecked(input, os, ok, 0x70, s, 2, put);
      ok := CopyChecked(input, os, ok, 0x70, s, 3, put);
    } else {
      ok := false;
    }
  }

  /**
    What Validate copies from a stream it accepts is the encoding of one scalar value, and the stream loses just that.
   */
  lemma {:induction false} ValidatedIsEncoding(s: seq<bv8>)
    requires s != [] && StreamDecodable(s)
    ensures Taken(s, Width(s[0])) == Bytes(StreamCodePoint(s))
    ensures s == Taken(s, Width(s[0])) + After(s, Width(s[0]))
  {
    DecodedIsEncoding(s);
  }
}
