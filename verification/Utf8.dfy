/** UTF-8 as section 4 of RFC 3629 gives it, and what it is for: the octets of Unicode scalar values. */
module Utf8 {
  import opened Bytes

  type scalar = x: int | 0 <= x < 0xD800 || 0xE000 <= x <= 0x10FFFF

  // ---------- the grammar ----------

  predicate Tail(b: int) {
    0x80 <= b <= 0xBF
  }

  /** The octets of the UTF8-char that the text starts with, or 0 if it starts with none. */
  function CharLength(s: seq<int>): (n: nat)
    ensures n <= |s|
  {
    if s == [] then 0
    else if 0 <= s[0] <= 0x7F then 1
    else if 0xC2 <= s[0] <= 0xDF then
      if |s| >= 2 && Tail(s[1]) then 2 else 0
    else if 0xE0 <= s[0] <= 0xEF then
      if |s| >= 3 && Second3(s[0], s[1]) && Tail(s[2]) then 3 else 0
    else if 0xF0 <= s[0] <= 0xF4 then
      if |s| >= 4 && Second4(s[0], s[1]) && Tail(s[2]) && Tail(s[3]) then 4 else 0
    else 0
  }

  predicate Second3(first: int, b: int) {
    if first == 0xE0 then 0xA0 <= b <= 0xBF
    else if first == 0xED then 0x80 <= b <= 0x9F
    else Tail(b)
  }

  predicate Second4(first: int, b: int) {
    if first == 0xF0 then 0x90 <= b <= 0xBF
    else if first == 0xF4 then 0x80 <= b <= 0x8F
    else Tail(b)
  }

  predicate Valid(s: seq<int>) {
    s == [] || (CharLength(s) > 0 && Valid(s[CharLength(s)..]))
  }

  // ---------- scalar values ----------

  /** The digit of weight 64^k in base 64. */
  function Digit0(c: int): int { c % 64 }

  function Digit1(c: int): int { c / 64 % 64 }

  function Digit2(c: int): int { c / 4096 % 64 }

  function EncodeChar(c: scalar): (s: seq<byte>)
    ensures 1 <= |s| <= 4
  {
    if c < 0x80 then [c]
    else if c < 0x800 then [0xC0 + c / 64, 0x80 + Digit0(c)]
    else if c < 0x10000 then [0xE0 + c / 4096, 0x80 + Digit1(c), 0x80 + Digit0(c)]
    else [0xF0 + c / 262144, 0x80 + Digit2(c), 0x80 + Digit1(c), 0x80 + Digit0(c)]
  }

  function Encode(cs: seq<scalar>): seq<byte> {
    if cs == [] then [] else EncodeChar(cs[0]) + Encode(cs[1..])
  }

  function Two(a: int, b: int): int { (a - 0xC0) * 64 + b - 0x80 }

  function Three(a: int, b: int, c: int): int { (a - 0xE0) * 4096 + (b - 0x80) * 64 + c - 0x80 }

  function Four(a: int, b: int, c: int, d: int): int {
    (a - 0xF0) * 262144 + (b - 0x80) * 4096 + (c - 0x80) * 64 + d - 0x80
  }

  function DecodeChar(s: seq<int>): (c: scalar)
    requires CharLength(s) > 0
  {
    if CharLength(s) == 1 then s[0]
    else if CharLength(s) == 2 then Two(s[0], s[1])
    else if CharLength(s) == 3 then Three(s[0], s[1], s[2])
    else Four(s[0], s[1], s[2], s[3])
  }

  function Decode(s: seq<int>): seq<scalar>
    requires Valid(s)
  {
    if s == [] then [] else [DecodeChar(s)] + Decode(s[CharLength(s)..])
  }

  // ---------- the grammar says exactly what can be decoded ----------

  lemma TwoDigits(a: int, b: int)
    requires 0x80 <= b <= 0xBF
    ensures var c := Two(a, b); c / 64 == a - 0xC0 && Digit0(c) == b - 0x80
  {
  }

  lemma ThreeDigits(a: int, b: int, c: int)
    requires 0x80 <= b <= 0xBF && 0x80 <= c <= 0xBF
    ensures var d := Three(a, b, c); d / 4096 == a - 0xE0 && Digit1(d) == b - 0x80 && Digit0(d) == c - 0x80
  {
    var d := Three(a, b, c);
    assert d / 64 == (a - 0xE0) * 64 + b - 0x80;
  }

  lemma FourDigits(a: int, b: int, c: int, d: int)
    requires 0x80 <= b <= 0xBF && 0x80 <= c <= 0xBF && 0x80 <= d <= 0xBF
    ensures var e := Four(a, b, c, d);
      e / 262144 == a - 0xF0 && Digit2(e) == b - 0x80 && Digit1(e) == c - 0x80 && Digit0(e) == d - 0x80
  {
    var e := Four(a, b, c, d);
    assert e / 64 == (a - 0xF0) * 4096 + (b - 0x80) * 64 + c - 0x80;
    assert e / 4096 == (a - 0xF0) * 64 + b - 0x80;
  }

  lemma CharRoundTrip(s: seq<int>)
    requires CharLength(s) > 0
    ensures EncodeChar(DecodeChar(s)) == s[..CharLength(s)]
  {
    var n := CharLength(s);
    if n == 2 {
      TwoDigits(s[0], s[1]);
      assert s[..2] == [s[0], s[1]];
    } else if n == 3 {
      ThreeDigits(s[0], s[1], s[2]);
      assert s[..3] == [s[0], s[1], s[2]];
    } else if n == 4 {
      FourDigits(s[0], s[1], s[2], s[3]);
      assert s[..4] == [s[0], s[1], s[2], s[3]];
    }
  }

  lemma DigitsRebuild(c: int)
    requires 0 <= c
    ensures c < 0x800 ==> Two(0xC0 + c / 64, 0x80 + Digit0(c)) == c
    ensures c < 0x10000 ==> Three(0xE0 + c / 4096, 0x80 + Digit1(c), 0x80 + Digit0(c)) == c
    ensures Four(0xF0 + c / 262144, 0x80 + Digit2(c), 0x80 + Digit1(c), 0x80 + Digit0(c)) == c
  {
    assert c / 64 / 64 == c / 4096;
    assert c / 4096 / 64 == c / 262144;
  }

  lemma OwnChar(c: scalar)
    ensures CharLength(EncodeChar(c)) == |EncodeChar(c)| && DecodeChar(EncodeChar(c)) == c
  {
    DigitsRebuild(c);
  }

  /** A UTF8-char is read as such whatever follows. */
  lemma CharInFront(e: seq<int>, rest: seq<int>)
    requires 0 < CharLength(e) == |e|
    ensures CharLength(e + rest) == |e| && DecodeChar(e + rest) == DecodeChar(e)
  {
    assert forall i :: 0 <= i < |e| ==> (e + rest)[i] == e[i];
  }

  /** What follows matters only if it may continue a UTF8-char. */
  lemma CharLengthIsLocal(s: seq<int>, rest: seq<int>)
    requires s != [] && (rest == [] || !Tail(rest[0]))
    ensures CharLength(s + rest) == CharLength(s)
  {
    assert forall i :: 0 <= i < |s| ==> (s + rest)[i] == s[i];
    assert rest != [] ==> (s + rest)[|s|] == rest[0];
  }

  lemma EncodedChar(c: scalar, rest: seq<int>)
    ensures CharLength(EncodeChar(c) + rest) == |EncodeChar(c)|
    ensures DecodeChar(EncodeChar(c) + rest) == c
  {
    OwnChar(c);
    CharInFront(EncodeChar(c), rest);
  }

  lemma EncodeCons(c: scalar, cs: seq<scalar>)
    ensures Encode([c] + cs) == EncodeChar(c) + Encode(cs)
  {
    assert ([c] + cs)[1..] == cs;
  }

  lemma {:induction false} DecodeThenEncode(s: seq<int>)
    requires Valid(s)
    ensures Encode(Decode(s)) == s
  {
    if s != [] {
      var n := CharLength(s);
      var c, rest := DecodeChar(s), s[n..];
      CharRoundTrip(s);
      DecodeThenEncode(rest);
      EncodeCons(c, Decode(rest));
    }
  }

  lemma {:induction false} EncodeThenDecode(cs: seq<scalar>)
    ensures Valid(Encode(cs)) && Decode(Encode(cs)) == cs
  {
    if cs != [] {
      var rest := Encode(cs[1..]);
      EncodedChar(cs[0], rest);
      EncodeThenDecode(cs[1..]);
      assert Encode(cs)[|EncodeChar(cs[0])|..] == rest;
    }
  }

  /** A body passes the check exactly when it is the octets of some scalar values. */
  lemma ValidIff(s: seq<int>)
    ensures Valid(s) <==> exists cs :: Encode(cs) == s
  {
    if Valid(s) {
      DecodeThenEncode(s);
    }
    if cs :| Encode(cs) == s {
      EncodeThenDecode(cs);
    }
  }
}
