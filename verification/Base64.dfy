/** The base64 pair of examples/toolbox, over `btoa` and `atob` as the HTML standard's forgiving-base64 gives them. */
module Base64 {
  import opened Wrappers
  import opened Bytes
  import opened Strings

  type sextet = x: int | 0 <= x < 64

  // ---------- the alphabet of section 4 of RFC 4648 ----------

  function Symbol(n: sextet): char {
    if n < 26 then ('A' as int + n) as char
    else if n < 52 then ('a' as int + n - 26) as char
    else if n < 62 then ('0' as int + n - 52) as char
    else if n == 62 then '+' else '/'
  }

  predicate IsSymbol(c: char) {
    'A' <= c <= 'Z' || 'a' <= c <= 'z' || '0' <= c <= '9' || c == '+' || c == '/'
  }

  function Value(c: char): sextet
    requires IsSymbol(c)
  {
    if 'A' <= c <= 'Z' then c as int - 'A' as int
    else if 'a' <= c <= 'z' then c as int - 'a' as int + 26
    else if '0' <= c <= '9' then c as int - '0' as int + 52
    else if c == '+' then 62 else 63
  }

  predicate AllSymbols(s: string) {
    forall i :: 0 <= i < |s| ==> IsSymbol(s[i])
  }

  function Print(xs: seq<sextet>): (s: string)
    ensures |s| == |xs| && forall i :: 0 <= i < |s| ==> s[i] == Symbol(xs[i])
  {
    seq(|xs|, i requires 0 <= i < |xs| => Symbol(xs[i]))
  }

  function Values(s: string): (xs: seq<sextet>)
    requires AllSymbols(s)
    ensures |xs| == |s| && forall i :: 0 <= i < |s| ==> xs[i] == Value(s[i])
  {
    seq(|s|, i requires 0 <= i < |s| => Value(s[i]))
  }

  // ---------- octets to sextets and back ----------

  function Sextet0(a: int): int { a / 4 }
  function Sextet1(a: int, b: int): int { a % 4 * 16 + b / 16 }
  function Sextet2(b: int, c: int): int { b % 16 * 4 + c / 64 }
  function Sextet3(c: int): int { c % 64 }

  /** Three octets to four sextets; one or two left over to two or three. */
  function Sextets(bytes: seq<byte>): seq<sextet> {
    if |bytes| >= 3 then
      var a, b, c := bytes[0], bytes[1], bytes[2];
      [Sextet0(a), Sextet1(a, b), Sextet2(b, c), Sextet3(c)] + Sextets(bytes[3..])
    else if |bytes| == 2 then
      [Sextet0(bytes[0]), Sextet1(bytes[0], bytes[1]), Sextet2(bytes[1], 0)]
    else if |bytes| == 1 then
      [Sextet0(bytes[0]), Sextet1(bytes[0], 0)]
    else []
  }

  function Octet0(p: int, q: int): int { p * 4 + q / 16 }
  function Octet1(q: int, r: int): int { q % 16 * 16 + r / 4 }
  function Octet2(r: int, s: int): int { r % 4 * 64 + s }

  /** Bits left over in the last sextet are dropped. */
  function Octets(xs: seq<sextet>): seq<byte>
    requires |xs| % 4 != 1
  {
    if |xs| >= 4 then
      var p, q, r, s := xs[0], xs[1], xs[2], xs[3];
      [Octet0(p, q), Octet1(q, r), Octet2(r, s)] + Octets(xs[4..])
    else if |xs| == 3 then [Octet0(xs[0], xs[1]), Octet1(xs[1], xs[2])]
    else if |xs| == 2 then [Octet0(xs[0], xs[1])]
    else []
  }

  function Unpadded(bytes: seq<byte>): string {
    Print(Sextets(bytes))
  }

  function Equals(n: nat): (s: string)
    ensures |s| == n && forall i :: 0 <= i < n ==> s[i] == '='
  {
    if n == 0 then "" else "=" + Equals(n - 1)
  }

  function PaddingFor(bytes: seq<byte>): nat {
    (3 - |bytes| % 3) % 3
  }

  function Encode(bytes: seq<byte>): string {
    Unpadded(bytes) + Equals(PaddingFor(bytes))
  }

  // ---------- btoa and atob ----------

  predicate Latin1(bin: string) {
    forall i :: 0 <= i < |bin| ==> bin[i] as int < 256
  }

  function Codes(bin: string): seq<byte>
    requires Latin1(bin)
  {
    seq(|bin|, i requires 0 <= i < |bin| => bin[i] as int)
  }

  function FromCodes(bytes: seq<byte>): (bin: string)
    ensures Latin1(bin) && Codes(bin) == bytes
  {
    seq(|bytes|, i requires 0 <= i < |bytes| => bytes[i] as char)
  }

  function Btoa(bin: string): Option<string> {
    if Latin1(bin) then Some(Encode(Codes(bin))) else None
  }

  predicate Blank(c: char) {
    c == '\t' || c == '\n' || c == '\U{000C}' || c == '\r' || c == ' '
  }

  function DropPadding(s: string): (r: string) {
    if |s| % 4 != 0 || s == "" || s[|s| - 1] != '=' then s
    else if s[|s| - 2] == '=' then s[..|s| - 2]
    else s[..|s| - 1]
  }

  /** What `atob` makes of text without blanks. */
  function CleanForgiving(s: string): Option<seq<byte>> {
    var d := DropPadding(s);
    if |d| % 4 == 1 || !AllSymbols(d) then None else Some(Octets(Values(d)))
  }

  function Forgiving(data: string): Option<seq<byte>> {
    CleanForgiving(Without(Blank, data))
  }

  function Atob(data: string): Option<string> {
    var r := Forgiving(data);
    if r.Some? then Some(FromCodes(r.value)) else None
  }

  // ---------- base64-encode and base64-decode ----------

  /** encodeUtf8Base64 on the octets of the text. */
  method EncodeOctets(bytes: seq<byte>) returns (r: Option<string>)
    ensures r == Some(Encode(bytes))
  {
    var bin := "";
    for i := 0 to |bytes|
      invariant |bin| == i && Latin1(bin)
      invariant forall k :: 0 <= k < i ==> bin[k] as int == bytes[k]
    {
      bin := bin + [bytes[i] as char];
    }
    assert Codes(bin) == bytes;
    r := Btoa(bin);
  }

  function Plain(c: char): char {
    if c == '-' then '+' else if c == '_' then '/' else c
  }

  function UrlSafe(c: char): char {
    if c == '+' then '-' else if c == '/' then '_' else c
  }

  function MapChars(f: char -> char, s: string): (r: string)
    ensures |r| == |s| && forall i :: 0 <= i < |s| ==> r[i] == f(s[i])
  {
    seq(|s|, i requires 0 <= i < |s| => f(s[i]))
  }

  /** How many equals signs are added to a text of this length. */
  function Fill(length: nat): nat {
    (4 - length % 4) % 4
  }

  function Padded(input: string): string {
    MapChars(Plain, input) + Equals(Fill(|input|))
  }

  /** decodeBase64Utf8 up to the octets it hands to the text decoder. */
  method DecodeOctets(input: string) returns (r: Option<seq<byte>>)
    ensures r == Forgiving(Padded(input))
  {
    var normalized := MapChars(Plain, input);
    var padded := normalized + Equals(Fill(|normalized|));
    var decoded := Atob(padded);
    if decoded.None? {
      return None;
    }
    var bin := decoded.value;
    var bytes := new byte[|bin|];
    for i := 0 to |bin|
      invariant forall k :: 0 <= k < i ==> bytes[k] == bin[k] as int
    {
      bytes[i] := bin[i] as int;
    }
    assert bytes[..] == Codes(bin);
    return Some(bytes[..]);
  }

  // ---------- sextets undo octets, symbols print sextets ----------

  lemma SymbolValue(n: sextet)
    ensures IsSymbol(Symbol(n)) && Value(Symbol(n)) == n
  {
  }

  lemma ValueSymbol(c: char)
    requires IsSymbol(c)
    ensures Symbol(Value(c)) == c
  {
  }

  lemma {:induction false} ValuesOfPrint(xs: seq<sextet>)
    ensures AllSymbols(Print(xs)) && Values(Print(xs)) == xs
  {
    forall i | 0 <= i < |xs|
      ensures IsSymbol(Print(xs)[i]) && Value(Print(xs)[i]) == xs[i]
    {
      SymbolValue(xs[i]);
    }
  }

  lemma {:induction false} PrintOfValues(s: string)
    requires AllSymbols(s)
    ensures Print(Values(s)) == s
  {
    forall i | 0 <= i < |s|
      ensures Print(Values(s))[i] == s[i]
    {
      ValueSymbol(s[i]);
    }
  }

  lemma OctetsOfSextets(a: int, b: int, c: int)
    requires 0 <= a < 256 && 0 <= b < 256 && 0 <= c < 256
    ensures Octet0(Sextet0(a), Sextet1(a, b)) == a
    ensures Octet1(Sextet1(a, b), Sextet2(b, c)) == b
    ensures Octet2(Sextet2(b, c), Sextet3(c)) == c
  {
  }

  lemma SextetsOfOctets(p: int, q: int, r: int, s: int)
    requires 0 <= p < 64 && 0 <= q < 64 && 0 <= r < 64 && 0 <= s < 64
    ensures Sextet0(Octet0(p, q)) == p
    ensures Sextet1(Octet0(p, q), Octet1(q, r)) == q
    ensures Sextet2(Octet1(q, r), Octet2(r, s)) == r
    ensures Sextet3(Octet2(r, s)) == s
  {
  }

  /** The number of sextets for the last, incomplete group. */
  function Rest(n: nat): nat {
    if n % 3 == 0 then 0 else n % 3 + 1
  }

  lemma {:induction false} SextetCount(bytes: seq<byte>)
    ensures |Sextets(bytes)| % 4 == Rest(|bytes|)
  {
    if |bytes| >= 3 {
      SextetCount(bytes[3..]);
      RestOfLess(|bytes|);
      assert |Sextets(bytes)| == 4 + |Sextets(bytes[3..])|;
    }
  }

  lemma RestOfLess(n: nat)
    requires n >= 3
    ensures Rest(n - 3) == Rest(n)
  {
  }

  lemma OctetsCons(p: sextet, q: sextet, r: sextet, s: sextet, xs: seq<sextet>)
    requires |xs| % 4 != 1
    ensures |[p, q, r, s] + xs| % 4 != 1
    ensures Octets([p, q, r, s] + xs) == [Octet0(p, q), Octet1(q, r), Octet2(r, s)] + Octets(xs)
  {
    assert ([p, q, r, s] + xs)[4..] == xs;
  }

  lemma SextetsCons(a: byte, b: byte, c: byte, bytes: seq<byte>)
    ensures Sextets([a, b, c] + bytes) == [Sextet0(a), Sextet1(a, b), Sextet2(b, c), Sextet3(c)] + Sextets(bytes)
  {
    assert ([a, b, c] + bytes)[3..] == bytes;
  }

  lemma LastTwo(a: byte, b: byte)
    ensures |Sextets([a, b])| == 3 && Octets(Sextets([a, b])) == [a, b]
  {
    var p, q, r := Sextet0(a), Sextet1(a, b), Sextet2(b, 0);
    assert Sextets([a, b]) == [p, q, r];
    assert Octets([p, q, r]) == [Octet0(p, q), Octet1(q, r)];
    OctetsOfSextets(a, b, 0);
  }

  lemma OctetOfSextets(a: int)
    requires 0 <= a < 256
    ensures Octet0(Sextet0(a), Sextet1(a, 0)) == a
  {
  }

  lemma LastOne(a: byte)
    ensures |Sextets([a])| == 2 && Octets(Sextets([a])) == [a]
  {
    var p, q := Sextet0(a), Sextet1(a, 0);
    OctetOfSextets(a);
    assert Sextets([a]) == [p, q];
    assert Octets([p, q]) == [Octet0(p, q)];
  }

  lemma {:induction false} OctetsInvertSextets(bytes: seq<byte>)
    ensures |Sextets(bytes)| % 4 != 1 && Octets(Sextets(bytes)) == bytes
  {
    if |bytes| == 0 {
    } else if |bytes| == 1 {
      LastOne(bytes[0]);
      assert bytes == [bytes[0]];
    } else if |bytes| == 2 {
      LastTwo(bytes[0], bytes[1]);
      assert bytes == [bytes[0], bytes[1]];
    } else {
      var a, b, c, rest := bytes[0], bytes[1], bytes[2], bytes[3..];
      assert bytes == [a, b, c] + rest;
      OctetsInvertSextets(rest);
      SextetsCons(a, b, c, rest);
      OctetsCons(Sextet0(a), Sextet1(a, b), Sextet2(b, c), Sextet3(c), Sextets(rest));
      OctetsOfSextets(a, b, c);
    }
  }

  lemma GroupPrintsBack(p: sextet, q: sextet, r: sextet, s: sextet, rest: seq<byte>)
    ensures Sextets([Octet0(p, q), Octet1(q, r), Octet2(r, s)] + rest) == [p, q, r, s] + Sextets(rest)
  {
    SextetsCons(Octet0(p, q), Octet1(q, r), Octet2(r, s), rest);
    SextetsOfOctets(p, q, r, s);
  }

  lemma {:induction false} SextetsInvertOctets(xs: seq<sextet>)
    requires |xs| % 4 == 0
    ensures Sextets(Octets(xs)) == xs
  {
    if xs != [] {
      var rest := xs[4..];
      SextetsInvertOctets(rest);
      assert xs == [xs[0], xs[1], xs[2], xs[3]] + rest;
      OctetsCons(xs[0], xs[1], xs[2], xs[3], rest);
      GroupPrintsBack(xs[0], xs[1], xs[2], xs[3], Octets(rest));
    }
  }

  lemma RestFills(n: nat, bytes: seq<byte>)
    requires n % 4 == Rest(|bytes|)
    ensures PaddingFor(bytes) <= 2 && (n + PaddingFor(bytes)) % 4 == 0
  {
    assert Rest(|bytes|) + PaddingFor(bytes) == 0 || Rest(|bytes|) + PaddingFor(bytes) == 4;
  }

  lemma PaddingFills(bytes: seq<byte>)
    ensures PaddingFor(bytes) <= 2 && (|Unpadded(bytes)| + PaddingFor(bytes)) % 4 == 0
  {
    SextetCount(bytes);
    RestFills(|Sextets(bytes)|, bytes);
  }

  /** What `atob` makes of the symbols of some octets is these octets. */
  lemma UnpaddedReads(bytes: seq<byte>)
    ensures AllSymbols(Unpadded(bytes)) && |Unpadded(bytes)| % 4 != 1 && Octets(Values(Unpadded(bytes))) == bytes
  {
    OctetsInvertSextets(bytes);
    ValuesOfPrint(Sextets(bytes));
  }

  /** Whole groups of symbols are printed back as they were, so no two such texts stand for the same octets. */
  lemma WholeGroupsPrintBack(s: string)
    requires AllSymbols(s) && |s| % 4 == 0
    ensures Unpadded(Octets(Values(s))) == s
  {
    SextetsInvertOctets(Values(s));
    PrintOfValues(s);
  }

  // ---------- blanks and padding ----------

  lemma StripPadded(input: string)
    ensures Without(Blank, Padded(input)) == Without(Blank, MapChars(Plain, input)) + Equals(Fill(|input|))
  {
    WithoutConcat(Blank, MapChars(Plain, input), Equals(Fill(|input|)));
    NothingToDrop(Blank, Equals(Fill(|input|)));
  }

  ghost predicate Unequal(s: string) {
    forall i :: 0 <= i < |s| ==> s[i] != '='
  }

  lemma SymbolsAreUnequal(s: string)
    requires AllSymbols(s)
    ensures Unequal(s)
  {
    forall i | 0 <= i < |s|
      ensures s[i] != '='
    {
      assert IsSymbol(s[i]);
    }
  }

  lemma PaddingDrops(s: string, n: nat)
    requires Unequal(s) && n <= 2 && (n == 0 || (|s| + n) % 4 == 0)
    ensures DropPadding(s + Equals(n)) == s
  {
    var all := s + Equals(n);
    if n == 0 {
      assert all == s;
    } else if n == 1 {
      assert all[|all| - 1] == '=' && all[|all| - 2] == s[|s| - 1];
      assert all[..|all| - 1] == s;
    } else {
      assert all[|all| - 1] == '=' && all[|all| - 2] == '=';
      assert all[..|all| - 2] == s;
    }
  }

  lemma WrongPaddingStays(clean: string, n: nat)
    requires n > 0 && (|clean| + n) % 4 != 0
    ensures !AllSymbols(DropPadding(clean + Equals(n)))
  {
    var all := clean + Equals(n);
    assert all[|clean|] == '=' && !IsSymbol('=');
  }

  lemma FilledUpBare(s: string, n: nat)
    requires Unequal(s) && |s| % 4 != 1
    requires n == 0 || (n < 4 && (|s| + n) % 4 == 0)
    ensures DropPadding(s + Equals(n)) == s
  {
    PaddingDrops(s, n);
  }

  /** Padded text needs no more padding. */
  lemma FilledUpPadded(s: string, m: nat, n: nat)
    requires Unequal(s) && m <= 2 && (|s| + m) % 4 == 0
    requires n == 0 || (n < 4 && (|s| + m + n) % 4 == 0)
    ensures n == 0 && DropPadding(s + Equals(m) + Equals(n)) == s
  {
    PaddingDrops(s, m);
    assert s + Equals(m) + Equals(0) == s + Equals(m);
  }

  /** `s` and `m` are the symbols of some octets and the number of equals signs that fills them up. */
  ghost predicate FormOf(s: string, m: nat, bytes: seq<byte>) {
    AllSymbols(s) && |s| % 4 != 1 && Octets(Values(s)) == bytes && m <= 2 && (|s| + m) % 4 == 0
  }

  lemma UnpaddedIsForm(bytes: seq<byte>)
    ensures FormOf(Unpadded(bytes), PaddingFor(bytes), bytes)
  {
    UnpaddedReads(bytes);
    PaddingFills(bytes);
  }

  /** With `n` equals signs added, `clean` reads as the octets exactly when none or the right number was added. */
  ghost predicate Reads(clean: string, n: nat, bytes: seq<byte>) {
    CleanForgiving(clean + Equals(n)) == if n == 0 || (|clean| + n) % 4 == 0 then Some(bytes) else None
  }

  lemma BareReads(s: string, m: nat, n: nat, bytes: seq<byte>)
    requires FormOf(s, m, bytes) && n < 4
    ensures Reads(s, n, bytes)
  {
    if n == 0 || (|s| + n) % 4 == 0 {
      SymbolsAreUnequal(s);
      FilledUpBare(s, n);
    } else {
      WrongPaddingStays(s, n);
    }
  }

  lemma FullReads(s: string, m: nat, n: nat, bytes: seq<byte>)
    requires FormOf(s, m, bytes) && n < 4
    ensures Reads(s + Equals(m), n, bytes)
  {
    if n == 0 || (|s + Equals(m)| + n) % 4 == 0 {
      SymbolsAreUnequal(s);
      FilledUpPadded(s, m, n);
    } else {
      WrongPaddingStays(s + Equals(m), n);
    }
  }

  lemma FormReads(clean: string, n: nat, bytes: seq<byte>)
    requires clean == Encode(bytes) || clean == Unpadded(bytes)
    requires n < 4
    ensures Reads(clean, n, bytes)
  {
    UnpaddedIsForm(bytes);
    if clean == Encode(bytes) {
      FullReads(Unpadded(bytes), PaddingFor(bytes), n, bytes);
    } else {
      BareReads(Unpadded(bytes), PaddingFor(bytes), n, bytes);
    }
  }

  lemma EncodedReads(bytes: seq<byte>)
    ensures |Encode(bytes)| % 4 == 0 && CleanForgiving(Encode(bytes)) == Some(bytes)
  {
    PaddingFills(bytes);
    FormReads(Encode(bytes), 0, bytes);
    assert Encode(bytes) + Equals(0) == Encode(bytes);
  }

  lemma FillCount(total: nat, kept: nat)
    requires kept <= total
    ensures Fill(total) < 4
    ensures Fill(total) == 0 || (kept + Fill(total)) % 4 == 0 <==> (total - kept) % 4 == 0 || total % 4 == 0
  {
  }

  /** Of `total` characters `total - kept` are blanks, and neither their number nor `total` is a multiple of four. */
  predicate Spoilt(total: nat, kept: nat)
    requires kept <= total
  {
    (total - kept) % 4 != 0 && total % 4 != 0
  }

  lemma Verdict(total: nat, kept: nat)
    requires kept <= total
    ensures (Fill(total) == 0 || (kept + Fill(total)) % 4 == 0) <==> !Spoilt(total, kept)
  {
    FillCount(total, kept);
  }

  lemma FilledReads(clean: string, total: nat, bytes: seq<byte>)
    requires (clean == Encode(bytes) || clean == Unpadded(bytes)) && |clean| <= total
    ensures CleanForgiving(clean + Equals(Fill(total))) == if Spoilt(total, |clean|) then None else Some(bytes)
  {
    Verdict(total, |clean|);
    var n := Fill(total);
    assert n < 4;
    FormReads(clean, n, bytes);
  }

  /**
    When the text is, up to its alphabet and the blanks in it, the padded or the unpadded form of some octets,
    it decodes to these octets exactly when the blanks do not spoil the count on which padding is added: their
    number is a multiple of four, or no padding is added at all. Otherwise decoding fails.
  */
  lemma BlanksSpoilPadding(input: string, bytes: seq<byte>)
    requires var clean := Without(Blank, MapChars(Plain, input)); clean == Encode(bytes) || clean == Unpadded(bytes)
    ensures Forgiving(Padded(input)) ==
      if Spoilt(|input|, |Without(Blank, MapChars(Plain, input))|) then None else Some(bytes)
  {
    StripPadded(input);
    FilledReads(Without(Blank, MapChars(Plain, input)), |input|, bytes);
  }

  /** Without blanks every form decodes: padded or not, in the alphabet of section 4 or of section 5 of RFC 4648. */
  lemma EveryFormDecodes(input: string, bytes: seq<byte>)
    requires var plain := MapChars(Plain, input); plain == Encode(bytes) || plain == Unpadded(bytes)
    ensures Forgiving(Padded(input)) == Some(bytes)
  {
    var plain := MapChars(Plain, input);
    UnpaddedReads(bytes);
    NothingToDrop(Blank, plain);
    BlanksSpoilPadding(input, bytes);
  }

  ghost predicate Standard(s: string) {
    forall i :: 0 <= i < |s| ==> IsSymbol(s[i]) || s[i] == '='
  }

  lemma FormsAreStandard(bytes: seq<byte>)
    ensures Standard(Encode(bytes)) && Standard(Unpadded(bytes))
  {
    UnpaddedReads(bytes);
  }

  /** Either alphabet is brought to the standard one, so `EveryFormDecodes` covers both. */
  lemma AlphabetsMeet(s: string)
    requires Standard(s)
    ensures MapChars(Plain, s) == s && MapChars(Plain, MapChars(UrlSafe, s)) == s
  {
    forall i | 0 <= i < |s|
      ensures Plain(s[i]) == s[i] && Plain(UrlSafe(s[i])) == s[i]
    {
      assert IsSymbol(s[i]) || s[i] == '=';
    }
  }

  /** base64-decode gives back what base64-encode was given, from each of the four forms. */
  lemma RoundTrip(bytes: seq<byte>)
    ensures Forgiving(Padded(Encode(bytes))) == Some(bytes)
    ensures Forgiving(Padded(Unpadded(bytes))) == Some(bytes)
    ensures Forgiving(Padded(MapChars(UrlSafe, Encode(bytes)))) == Some(bytes)
    ensures Forgiving(Padded(MapChars(UrlSafe, Unpadded(bytes)))) == Some(bytes)
  {
    FormsAreStandard(bytes);
    AlphabetsMeet(Encode(bytes));
    AlphabetsMeet(Unpadded(bytes));
    EveryFormDecodes(Encode(bytes), bytes);
    EveryFormDecodes(Unpadded(bytes), bytes);
    EveryFormDecodes(MapChars(UrlSafe, Encode(bytes)), bytes);
    EveryFormDecodes(MapChars(UrlSafe, Unpadded(bytes)), bytes);
  }
}
