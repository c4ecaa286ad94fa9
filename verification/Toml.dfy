/**
  The manifest's file format: how Go's %q prints a string, and a reader for the TOML that internal/builder/manifest.go
  prints: tables, arrays of tables, and one key a line.
*/
module Toml {
  import opened Wrappers
  import opened Strings

  // ---------- strings ----------

  function HexDigit(n: int): char
    requires 0 <= n < 16
  {
    "0123456789abcdef"[n]
  }

  /** What %q prints for a character; what lies beyond ASCII is taken to be printable. */
  function EscapeChar(c: char): string {
    if c == '"' || c == '\\' then ['\\', c]
    else if c == 7 as char then "\\a"
    else if c == 8 as char then "\\b"
    else if c == 12 as char then "\\f"
    else if c == '\n' then "\\n"
    else if c == '\r' then "\\r"
    else if c == '\t' then "\\t"
    else if c == 11 as char then "\\v"
    else if c < ' ' || c == 0x7F as char then "\\x" + [HexDigit(c as int / 16), HexDigit(c as int % 16)]
    else [c]
  }

  function Escape(s: string): string {
    if s == "" then "" else EscapeChar(s[0]) + Escape(s[1..])
  }

  function Quote(s: string): string {
    "\"" + Escape(s) + "\""
  }

  /** What a TOML string says behind a backslash; of its escapes, those with code points are not among what %q prints for ASCII. */
  function Unescaped(c: char): Option<char> {
    if c == '"' || c == '\\' then Some(c)
    else if c == 'b' then Some(8 as char)
    else if c == 'f' then Some(12 as char)
    else if c == 'n' then Some('\n')
    else if c == 'r' then Some('\r')
    else if c == 't' then Some('\t')
    else None
  }

  function Unescape(s: string): Option<string> {
    if s == "" then Some("")
    else if s[0] == '"' then None
    else
      var escaped := s[0] == '\\';
      if escaped && (|s| < 2 || Unescaped(s[1]).None?) then None
      else
        var rest := Unescape(if escaped then s[2..] else s[1..]);
        if rest.None? then None else Some([if escaped then Unescaped(s[1]).value else s[0]] + rest.value)
  }

  function ReadString(raw: string): Option<string> {
    if |raw| < 2 || raw[0] != '"' || raw[|raw| - 1] != '"' then None else Unescape(raw[1..|raw| - 1])
  }

  /** %q and TOML agree on it: not one of the control characters that TOML has no short escape for. */
  predicate Agreed(c: char) {
    (c >= ' ' && c != 0x7F as char) || c in ['\n', '\r', '\t', 8 as char, 12 as char]
  }

  predicate AllAgreed(s: string) {
    forall i :: 0 <= i < |s| ==> Agreed(s[i])
  }

  /** What is printed for a character: itself, a backslash with what TOML reads as it, or an escape TOML does not have. */
  lemma EscapeShape(c: char)
    ensures var e := EscapeChar(c);
      || (Agreed(c) && e == [c] && c != '"' && c != '\\')
      || (Agreed(c) && |e| == 2 && e[0] == '\\' && Unescaped(e[1]) == Some(c))
      || (!Agreed(c) && |e| >= 2 && e[0] == '\\' && Unescaped(e[1]) == None)
  {
  }

  lemma UnescapeChar(c: char, rest: string)
    ensures Agreed(c) && Unescape(rest).Some? ==> Unescape(EscapeChar(c) + rest) == Some([c] + Unescape(rest).value)
    ensures !Agreed(c) || Unescape(rest).None? ==> Unescape(EscapeChar(c) + rest).None?
  {
    EscapeShape(c);
    UnescapeShape(EscapeChar(c), c, rest);
  }

  lemma UnescapeShape(e: string, c: char, rest: string)
    requires (e == [c] && c != '"' && c != '\\') || (|e| >= 2 && e[0] == '\\' && (Unescaped(e[1]).Some? ==> |e| == 2))
    ensures e == [c] && c != '"' && c != '\\' ==> Unescape(e + rest) == if Unescape(rest).None? then None else Some([c] + Unescape(rest).value)
    ensures |e| >= 2 && Unescaped(e[1]) == None ==> Unescape(e + rest).None?
    ensures |e| == 2 && Unescaped(e[1]) == Some(c) ==> Unescape(e + rest) == if Unescape(rest).None? then None else Some([c] + Unescape(rest).value)
  {
    var s := e + rest;
    if |e| == 1 {
      assert s[1..] == rest;
    } else {
      assert s[1] == e[1];
      if |e| == 2 { assert s[2..] == rest; }
    }
  }

  /** A printed string is read back exactly when the two formats agree on all of it, and is no string otherwise. */
  lemma {:induction false} UnescapeIff(s: string)
    ensures Unescape(Escape(s)) == if AllAgreed(s) then Some(s) else None
  {
    if s != "" {
      UnescapeIff(s[1..]);
      UnescapeChar(s[0], Escape(s[1..]));
      assert s == [s[0]] + s[1..];
      assert AllAgreed(s) <==> Agreed(s[0]) && AllAgreed(s[1..]) by {
        assert forall i :: 0 < i < |s| ==> s[i] == s[1..][i - 1];
      }
    }
  }

  lemma ReadsBackIff(s: string)
    ensures ReadString(Quote(s)) == if AllAgreed(s) then Some(s) else None
  {
    UnescapeIff(s);
    assert Quote(s)[1..|Quote(s)| - 1] == Escape(s);
  }

  lemma {:induction false} EscapeIsOneLine(s: string)
    ensures '\n' !in Escape(s)
  {
    if s != "" {
      EscapeIsOneLine(s[1..]);
      assert '\n' !in EscapeChar(s[0]);
    }
  }

  lemma QuoteIsOneLine(s: string)
    ensures '\n' !in Quote(s)
  {
    EscapeIsOneLine(s);
  }

  // ---------- lines ----------

  function Unlines(ls: seq<string>): string {
    if ls == [] then "" else ls[0] + "\n" + Unlines(ls[1..])
  }

  function Lines(text: string): seq<string> {
    var i := FirstIndex(text, '\n');
    if i == |text| then if text == "" then [] else [text] else [text[..i]] + Lines(text[i + 1..])
  }

  predicate OneLine(s: string) {
    '\n' !in s
  }

  predicate AllLines(ls: seq<string>) {
    forall i :: 0 <= i < |ls| ==> OneLine(ls[i])
  }

  lemma LinesCons(line: string, text: string)
    requires OneLine(line)
    ensures Lines(line + "\n" + text) == [line] + Lines(text)
  {
    var s := line + "\n" + text;
    assert s[|line|] == '\n' && s[..|line|] == line && s[|line| + 1..] == text;
    assert forall i :: 0 <= i < |line| ==> s[i] == line[i];
    assert FirstIndex(s, '\n') == |line|;
  }

  lemma {:induction false} LinesOfUnlines(ls: seq<string>)
    requires AllLines(ls)
    ensures Lines(Unlines(ls)) == ls
  {
    if ls != [] {
      LinesOfUnlines(ls[1..]);
      LinesCons(ls[0], Unlines(ls[1..]));
      assert ls == [ls[0]] + ls[1..];
    }
  }

  lemma {:induction false} UnlinesConcat(a: seq<string>, b: seq<string>)
    ensures Unlines(a + b) == Unlines(a) + Unlines(b)
  {
    if a == [] {
      assert a + b == b;
    } else {
      assert (a + b)[0] == a[0] && (a + b)[1..] == a[1..] + b;
      UnlinesConcat(a[1..], b);
      Associate(a[0] + "\n", Unlines(a[1..]), Unlines(b));
    }
  }

  // ---------- documents ----------

  type Fields = map<string, string>

  /** One entry of an array of tables. */
  datatype Entry = Entry(header: string, fields: Fields)

  /** Tables by their header line, the headers in order, the entries of arrays in order, and the table that is being read. */
  datatype Document = Document(tables: map<string, Fields>, headers: seq<string>, entries: seq<Entry>, at: string)

  const EMPTY := Document(map["" := map[]], [], [], "")

  predicate IsEntryHeader(line: string) {
    HasPrefix(line, "[[") && HasSuffix(line, "]]")
  }

  predicate IsHeader(line: string) {
    HasPrefix(line, "[") && HasSuffix(line, "]")
  }

  /** key = value, split at the first space. */
  function KeyValue(line: string): Option<(string, string)> {
    var i := FirstIndex(line, ' ');
    if i + 3 <= |line| && line[i..i + 3] == " = " then Some((line[..i], line[i + 3..])) else None
  }

  function PutField(d: Document, key: string, value: string): Option<Document> {
    if HasPrefix(d.at, "[[") then
      if d.entries == [] then None
      else
        var n := |d.entries| - 1;
        var last := d.entries[n];
        if key in last.fields then None
        else Some(d.(entries := d.entries[..n] + [last.(fields := last.fields[key := value])]))
    else if d.at !in d.tables || key in d.tables[d.at] then None
    else Some(d.(tables := d.tables[d.at := d.tables[d.at][key := value]]))
  }

  /** One more line; a table or a key that is there already, or a line of no known form, is an error. */
  function Feed(d: Document, line: string): Option<Document> {
    if line == "" || HasPrefix(line, "#") then Some(d)
    else if IsEntryHeader(line) then Some(d.(entries := d.entries + [Entry(line, map[])], at := line))
    else if IsHeader(line) then
      if line in d.tables then None
      else Some(d.(tables := d.tables[line := map[]], headers := d.headers + [line], at := line))
    else
      var kv := KeyValue(line);
      if kv.None? then None else PutField(d, kv.value.0, kv.value.1)
  }

  function FeedAll(d: Document, ls: seq<string>): Option<Document>
    decreases |ls|
  {
    if ls == [] then Some(d)
    else
      var next := Feed(d, ls[0]);
      if next.None? then None else FeedAll(next.value, ls[1..])
  }

  function Parse(text: string): Option<Document> {
    FeedAll(EMPTY, Lines(text))
  }

  lemma {:induction false} FeedConcat(d: Document, a: seq<string>, b: seq<string>)
    ensures FeedAll(d, a + b) == if FeedAll(d, a).None? then None else FeedAll(FeedAll(d, a).value, b)
    decreases |a|
  {
    if a == [] {
      assert a + b == b;
    } else {
      assert (a + b)[0] == a[0] && (a + b)[1..] == a[1..] + b;
      if Feed(d, a[0]).Some? { FeedConcat(Feed(d, a[0]).value, a[1..], b); }
    }
  }

  // ---------- writing keys ----------

  datatype Field = Field(key: string, value: string)

  function KeyLine(f: Field): string {
    f.key + " = " + f.value
  }

  function KeyLines(fs: seq<Field>): seq<string> {
    seq(|fs|, i requires 0 <= i < |fs| => KeyLine(fs[i]))
  }

  /** A key the reader takes for one. */
  predicate BareKey(key: string) {
    key != "" && ' ' !in key && key[0] != '[' && key[0] != '#'
  }

  predicate BareKeys(fs: seq<Field>) {
    forall i :: 0 <= i < |fs| ==> BareKey(fs[i].key)
  }

  predicate DistinctKeys(fs: seq<Field>) {
    forall i, j :: 0 <= i < j < |fs| ==> fs[i].key != fs[j].key
  }

  function PutAll(m: Fields, fs: seq<Field>): Fields
    decreases |fs|
  {
    if fs == [] then m else PutAll(m[fs[0].key := fs[0].value], fs[1..])
  }

  lemma KeyLineReads(f: Field)
    requires BareKey(f.key)
    ensures KeyValue(KeyLine(f)) == Some((f.key, f.value)) && KeyLine(f) != ""
    ensures !HasPrefix(KeyLine(f), "#") && !IsHeader(KeyLine(f)) && !IsEntryHeader(KeyLine(f))
  {
    var line := KeyLine(f);
    assert line[0] == f.key[0];
    assert forall i :: 0 <= i < |f.key| ==> line[i] == f.key[i];
    assert line[|f.key|] == ' ';
    assert FirstIndex(line, ' ') == |f.key|;
    assert line[|f.key|..|f.key| + 3] == " = " && line[|f.key| + 3..] == f.value && line[..|f.key|] == f.key;
  }

  lemma FeedKeyLine(d: Document, f: Field)
    requires BareKey(f.key)
    ensures Feed(d, KeyLine(f)) == PutField(d, f.key, f.value)
  {
    KeyLineReads(f);
  }

  lemma KeyLinesTail(fs: seq<Field>)
    requires fs != []
    ensures KeyLines(fs)[0] == KeyLine(fs[0]) && KeyLines(fs)[1..] == KeyLines(fs[1..])
  {
  }

  /** None of the keys is there yet. */
  predicate NewKeys(m: Fields, fs: seq<Field>) {
    forall i :: 0 <= i < |fs| ==> fs[i].key !in m
  }

  lemma {:induction false} FeedTableFields(d: Document, fs: seq<Field>)
    requires BareKeys(fs) && DistinctKeys(fs) && !HasPrefix(d.at, "[[") && d.at in d.tables && NewKeys(d.tables[d.at], fs)
    ensures FeedAll(d, KeyLines(fs)) == Some(d.(tables := d.tables[d.at := PutAll(d.tables[d.at], fs)]))
    decreases |fs|
  {
    if fs == [] {
      assert d.tables[d.at := d.tables[d.at]] == d.tables;
    } else {
      FeedKeyLine(d, fs[0]);
      KeyLinesTail(fs);
      var e := PutField(d, fs[0].key, fs[0].value).value;
      assert forall i :: 0 <= i < |fs[1..]| ==> fs[1..][i] == fs[i + 1];
      FeedTableFields(e, fs[1..]);
      assert e.tables[d.at := PutAll(e.tables[d.at], fs[1..])] == d.tables[d.at := PutAll(d.tables[d.at], fs)];
    }
  }

  lemma {:induction false} FeedEntryFields(d: Document, init: seq<Entry>, last: Entry, fs: seq<Field>)
    requires BareKeys(fs) && DistinctKeys(fs) && HasPrefix(d.at, "[[") && d.entries == init + [last] && NewKeys(last.fields, fs)
    ensures FeedAll(d, KeyLines(fs)) == Some(d.(entries := init + [last.(fields := PutAll(last.fields, fs))]))
    decreases |fs|
  {
    if fs != [] {
      FeedKeyLine(d, fs[0]);
      KeyLinesTail(fs);
      assert d.entries[..|d.entries| - 1] == init;
      var e := PutField(d, fs[0].key, fs[0].value).value;
      assert forall i :: 0 <= i < |fs[1..]| ==> fs[1..][i] == fs[i + 1];
      FeedEntryFields(e, init, last.(fields := last.fields[fs[0].key := fs[0].value]), fs[1..]);
    }
  }

  /** A whole table: its header and its keys. */
  lemma FeedTable(d: Document, header: string, fs: seq<Field>)
    requires IsHeader(header) && !HasPrefix(header, "[[") && header !in d.tables && BareKeys(fs) && DistinctKeys(fs)
    ensures FeedAll(d, [header] + KeyLines(fs))
      == Some(d.(tables := d.tables[header := PutAll(map[], fs)], headers := d.headers + [header], at := header))
  {
    var e := d.(tables := d.tables[header := map[]], headers := d.headers + [header], at := header);
    assert Feed(d, header) == Some(e);
    assert ([header] + KeyLines(fs))[1..] == KeyLines(fs);
    FeedTableFields(e, fs);
    assert e.tables[header := PutAll(map[], fs)] == d.tables[header := PutAll(map[], fs)];
  }

  /** A whole entry of an array. */
  lemma FeedEntry(d: Document, header: string, fs: seq<Field>)
    requires IsEntryHeader(header) && BareKeys(fs) && DistinctKeys(fs)
    ensures FeedAll(d, [header] + KeyLines(fs))
      == Some(d.(entries := d.entries + [Entry(header, PutAll(map[], fs))], at := header))
  {
    var e := d.(entries := d.entries + [Entry(header, map[])], at := header);
    assert header[0] == "[["[0];
    assert Feed(d, header) == Some(e);
    assert ([header] + KeyLines(fs))[1..] == KeyLines(fs);
    FeedEntryFields(e, d.entries, Entry(header, map[]), fs);
  }

  lemma FeedBlank(d: Document)
    ensures FeedAll(d, [""]) == Some(d)
  {
    assert [""][1..] == [];
  }
}
