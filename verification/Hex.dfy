/** The hex pair of examples/toolbox: text-to-hex prints bytes, hex-to-text reads them back. */
module Hex {
  import opened Wrappers
  import opened Bytes
  import opened Strings

  datatype HexError = NotHex | OddLength

  function Digit(n: int): char
    requires 0 <= n < 16
  {
    if n < 10 then ('0' as int + n) as char else ('a' as int + n - 10) as char
  }

  /** Two lower-case digits a byte, high nibble first. */
  function Encode(bytes: seq<byte>): (text: string)
    ensures |text| == 2 * |bytes|
  {
    if bytes == [] then "" else [Digit(bytes[0] / 16), Digit(bytes[0] % 16)] + Encode(bytes[1..])
  }

  /** The characters that `\s` and `trim` take as white space. */
  predicate White(c: char) {
    '\U{0009}' <= c <= '\U{000D}' || c == ' ' || c == '\U{00A0}' || c == '\U{1680}' ||
    '\U{2000}' <= c <= '\U{200A}' || '\U{2028}' <= c <= '\U{2029}' || c == '\U{202F}' ||
    c == '\U{205F}' || c == '\U{3000}' || c == '\U{FEFF}'
  }

  predicate IsHex(c: char) {
    '0' <= c <= '9' || 'a' <= c <= 'f' || 'A' <= c <= 'F'
  }

  function Lower(c: char): char {
    if 'A' <= c <= 'F' then (c as int + 32) as char else c
  }

  function LowerAll(s: string): (r: string)
    ensures |r| == |s|
    ensures forall i :: 0 <= i < |s| ==> r[i] == Lower(s[i])
  {
    if s == "" then "" else [Lower(s[0])] + LowerAll(s[1..])
  }

  /** The text without its white space. */
  function Strip(s: string): string {
    Without(White, s)
  }

  function TrimLeft(s: string): string {
    if s != "" && White(s[0]) then TrimLeft(s[1..]) else s
  }

  function TrimRight(s: string): string
    decreases |s|
  {
    if s != "" && White(s[|s| - 1]) then TrimRight(s[..|s| - 1]) else s
  }

  function Trim(s: string): string {
    TrimRight(TrimLeft(s))
  }

  /** parseInt(_, 16) of one digit. */
  function Value(c: char): (v: int)
    requires IsHex(c)
    ensures 0 <= v < 16
  {
    if c <= '9' then c as int - '0' as int else if c <= 'F' then c as int - 'A' as int + 10 else c as int - 'a' as int + 10
  }

  predicate AllHex(s: string) {
    forall i :: 0 <= i < |s| ==> IsHex(s[i])
  }

  /** The pattern hex-to-text asks for. */
  predicate Readable(s: string) {
    forall i :: 0 <= i < |s| ==> IsHex(s[i]) || White(s[i])
  }

  /** What the loop of hex-to-text makes of an even number of digits. */
  function Pairs(s: string): (bytes: seq<byte>)
    requires AllHex(s) && |s| % 2 == 0
    ensures |bytes| == |s| / 2
  {
    if s == "" then [] else [Value(s[0]) * 16 + Value(s[1])] + Pairs(s[2..])
  }

  lemma {:induction false} PairsAt(s: string, k: nat)
    requires AllHex(s) && |s| % 2 == 0 && k < |s| / 2
    ensures Pairs(s)[k] == Value(s[2 * k]) * 16 + Value(s[2 * k + 1])
  {
    if k > 0 {
      PairsAt(s[2..], k - 1);
      assert s[2..][2 * (k - 1)] == s[2 * k] && s[2..][2 * (k - 1) + 1] == s[2 * k + 1];
    }
  }

  // ---------- white space ----------

  lemma {:induction false} StripTrimLeft(s: string)
    ensures Strip(TrimLeft(s)) == Strip(s)
  {
    if s != "" && White(s[0]) {
      StripTrimLeft(s[1..]);
    }
  }

  lemma StripLast(init: string, c: char)
    requires White(c)
    ensures Strip(init + [c]) == Strip(init)
  {
    WithoutConcat(White, init, [c]);
    assert Strip([c]) == "";
  }

  lemma {:induction false} StripTrimRight(s: string)
    ensures Strip(TrimRight(s)) == Strip(s)
    decreases |s|
  {
    if s != "" && White(s[|s| - 1]) {
      var init := s[..|s| - 1];
      StripTrimRight(init);
      assert s == init + [s[|s| - 1]];
      StripLast(init, s[|s| - 1]);
    }
  }

  lemma StripTrim(s: string)
    ensures Strip(Trim(s)) == Strip(s)
  {
    StripTrimRight(TrimLeft(s));
    StripTrimLeft(s);
  }

  lemma {:induction false} ReadableIff(s: string)
    ensures Readable(s) <==> AllHex(Strip(s))
  {
    if s != "" {
      ReadableIff(s[1..]);
      var rest := Strip(s[1..]);
      assert s == [s[0]] + s[1..];
      assert Readable(s) <==> (IsHex(s[0]) || White(s[0])) && Readable(s[1..]);
      if White(s[0]) {
        assert Strip(s) == rest;
      } else {
        var all := Strip(s);
        assert all == [s[0]] + rest;
        assert all[0] == s[0] && all[1..] == rest;
        assert forall i :: 0 <= i < |rest| ==> rest[i] == all[i + 1];
        assert AllHex(all) ==> AllHex(rest);
      }
    }
  }

  // ---------- the codecs undo each other ----------

  lemma DigitValue(n: int)
    requires 0 <= n < 16
    ensures IsHex(Digit(n)) && Value(Digit(n)) == n && Lower(Digit(n)) == Digit(n)
  {
  }

  lemma {:induction false} EncodeIsHex(bytes: seq<byte>)
    ensures AllHex(Encode(bytes))
  {
    if bytes != [] {
      EncodeIsHex(bytes[1..]);
      DigitValue(bytes[0] / 16);
      DigitValue(bytes[0] % 16);
    }
  }

  /** Digits whose lower-case form is the printed form of some bytes decode to these bytes, and to no others. */
  lemma {:induction false} PairsInvertIff(s: string, bytes: seq<byte>)
    requires AllHex(s) && |s| % 2 == 0
    ensures Pairs(s) == bytes <==> LowerAll(s) == Encode(bytes)
  {
    if s == "" {
      assert LowerAll(s) == "";
    } else if bytes != [] {
      PairsInvertIff(s[2..], bytes[1..]);
      assert LowerAll(s) == [Lower(s[0]), Lower(s[1])] + LowerAll(s[2..]);
      assert Pairs(s) == [Value(s[0]) * 16 + Value(s[1])] + Pairs(s[2..]);
      OneByteIff(s[0], s[1], bytes[0]);
      HeadAndTail(Pairs(s), bytes);
      HeadsAndTail(LowerAll(s), Encode(bytes));
      assert LowerAll(s)[2..] == LowerAll(s[2..]) && Encode(bytes)[2..] == Encode(bytes[1..]);
      assert Pairs(s)[1..] == Pairs(s[2..]);
    }
  }

  lemma HeadAndTail(a: seq<byte>, b: seq<byte>)
    requires |a| > 0 && |b| > 0
    ensures a == b <==> a[0] == b[0] && a[1..] == b[1..]
  {
    assert a == [a[0]] + a[1..] && b == [b[0]] + b[1..];
  }

  lemma HeadsAndTail(a: string, b: string)
    requires |a| > 1 && |b| > 1
    ensures a == b <==> a[0] == b[0] && a[1] == b[1] && a[2..] == b[2..]
  {
    assert a == [a[0], a[1]] + a[2..] && b == [b[0], b[1]] + b[2..];
  }

  lemma OneByteIff(c: char, d: char, b: byte)
    requires IsHex(c) && IsHex(d)
    ensures Value(c) * 16 + Value(d) == b <==> Lower(c) == Digit(b / 16) && Lower(d) == Digit(b % 16)
  {
  }

  /** The decoder's answer. */
  ghost predicate Answers(raw: string, r: Result<seq<byte>, HexError>) {
    match r
    case Ok(bytes) => LowerAll(Strip(raw)) == Encode(bytes)
    case Err(NotHex) => !Readable(raw)
    case Err(OddLength) => Readable(raw) && |Strip(raw)| % 2 == 1
  }

  /** The loop of hex-to-text. */
  method ReadPairs(clean: string) returns (bytes: seq<byte>)
    requires AllHex(clean) && |clean| % 2 == 0
    ensures bytes == Pairs(clean)
  {
    var a := new byte[|clean| / 2];
    var i := 0;
    while i < |clean|
      invariant 0 <= i <= |clean| && i % 2 == 0
      invariant forall k :: 0 <= k < i / 2 ==> a[k] == Pairs(clean)[k]
    {
      PairsAt(clean, i / 2);
      a[i / 2] := Value(clean[i]) * 16 + Value(clean[i + 1]);
      i := i + 2;
    }
    bytes := a[..];
  }

  /** hex-to-text up to the bytes it hands to the text decoder. */
  method Decode(raw: string) returns (r: Result<seq<byte>, HexError>)
    ensures Answers(raw, r)
  {
    var trimmed := Trim(raw);
    StripTrim(raw);
    ReadableIff(trimmed);
    ReadableIff(raw);
    if !Readable(trimmed) {
      return Err(NotHex);
    }
    var clean := Strip(trimmed);
    if |clean| % 2 != 0 {
      return Err(OddLength);
    }
    var bytes := ReadPairs(clean);
    PairsInvertIff(clean, bytes);
    return Ok(bytes);
  }

  lemma {:induction false} LowerKeepsHex(s: string)
    requires AllHex(LowerAll(s))
    ensures AllHex(s)
  {
    forall i | 0 <= i < |s|
      ensures IsHex(s[i])
    {
      assert IsHex(LowerAll(s)[i]);
    }
  }

  /**
    Whatever case the digits are in and wherever white space is put between, before or after them, the
    decoder's answer to the printed form of some bytes is these bytes.
  */
  lemma RoundTrip(bytes: seq<byte>, raw: string, r: Result<seq<byte>, HexError>)
    requires LowerAll(Strip(raw)) == Encode(bytes) && Answers(raw, r)
    ensures r == Ok(bytes)
  {
    EncodeIsHex(bytes);
    var clean := Strip(raw);
    LowerKeepsHex(clean);
    ReadableIff(raw);
    PairsInvertIff(clean, bytes);
    if r.Ok? {
      PairsInvertIff(clean, r.value);
    }
  }

  /** The printed form itself qualifies. */
  lemma PrintedIsPlain(bytes: seq<byte>)
    ensures LowerAll(Strip(Encode(bytes))) == Encode(bytes)
  {
    EncodeIsHex(bytes);
    NothingToStrip(Encode(bytes));
    LowerPrinted(bytes);
  }

  lemma NothingToStrip(s: string)
    requires AllHex(s)
    ensures Strip(s) == s
  {
    NothingToDrop(White, s);
  }

  lemma {:induction false} LowerPrinted(bytes: seq<byte>)
    ensures LowerAll(Encode(bytes)) == Encode(bytes)
  {
    if bytes != [] {
      LowerPrinted(bytes[1..]);
      var text := Encode(bytes);
      DigitValue(bytes[0] / 16);
      DigitValue(bytes[0] % 16);
      assert text[2..] == Encode(bytes[1..]);
      assert forall i :: 0 <= i < |text| ==> LowerAll(text)[i] == text[i] by {
        forall i | 0 <= i < |text|
          ensures Lower(text[i]) == text[i]
        {
          if i >= 2 { assert LowerAll(text[2..])[i - 2] == Lower(text[2..][i - 2]); }
        }
      }
    }
  }
}
