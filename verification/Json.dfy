/**
  What becomes of Go strings in JSON columns: encoding/json writes U+FFFD for each octet that does not belong to a
  UTF8-char.  The source files of a function are stored this way (internal/store/sqlite.go).
*/
module Json {
  import opened Strings
  import opened Utf8
  import opened Renaming
  import opened Paths

  function Codes(s: string): seq<int> {
    seq(|s|, i requires 0 <= i < |s| => s[i] as int)
  }

  /** The octets of the UTF8-char in front, or 0. */
  function Front(s: string): (n: nat)
    ensures n <= |s|
  {
    CharLength(Codes(s))
  }

  predicate IsText(s: string) {
    Valid(Codes(s))
  }

  /** The octets of U+FFFD. */
  const REPLACEMENT: string := [0xEF as char, 0xBF as char, 0xBD as char]

  /** What is written in one step, and for how many octets. */
  function Head(s: string): string
    requires s != ""
  {
    if Front(s) > 0 then s[..Front(s)] else REPLACEMENT
  }

  function Width(s: string): (n: nat)
    requires s != ""
    ensures 1 <= n <= |s|
  {
    if Front(s) > 0 then Front(s) else 1
  }

  /** The string as it comes out of JSON again. */
  function Coerce(s: string): string {
    if s == "" then "" else Head(s) + Coerce(s[Width(s)..])
  }

  // ---------- exactly text comes out unchanged ----------

  lemma CodesConcat(a: string, b: string)
    ensures Codes(a + b) == Codes(a) + Codes(b)
  {
  }

  lemma CodesDrop(s: string, n: nat)
    requires n <= |s|
    ensures Codes(s[n..]) == Codes(s)[n..] && Codes(s[..n]) == Codes(s)[..n]
  {
  }

  lemma FrontOfConcat(c: string, rest: string)
    requires 0 < Front(c) == |c|
    ensures Front(c + rest) == |c|
  {
    CodesConcat(c, rest);
    CharInFront(Codes(c), Codes(rest));
  }

  lemma FrontAlone(s: string)
    requires Front(s) > 0
    ensures Front(s[..Front(s)]) == Front(s)
  {
    var n := Front(s);
    CodesDrop(s, n);
    assert forall i :: 0 <= i < n ==> Codes(s)[..n][i] == Codes(s)[i];
  }

  lemma TextCons(c: string, rest: string)
    requires 0 < Front(c) == |c|
    ensures IsText(c + rest) <==> IsText(rest)
  {
    FrontOfConcat(c, rest);
    CodesDrop(c + rest, |c|);
    assert (c + rest)[|c|..] == rest;
  }

  lemma ReplacementIsChar()
    ensures Front(REPLACEMENT) == |REPLACEMENT| == 3
  {
    assert Codes(REPLACEMENT) == [0xEF, 0xBF, 0xBD];
  }

  lemma HeadIsChar(s: string)
    requires s != ""
    ensures 0 < Front(Head(s)) == |Head(s)|
  {
    if Front(s) > 0 { FrontAlone(s); } else { ReplacementIsChar(); }
  }

  lemma {:induction false} CoercedIsText(s: string)
    ensures IsText(Coerce(s))
    decreases |s|
  {
    if s != "" {
      CoercedIsText(s[Width(s)..]);
      HeadIsChar(s);
      TextCons(Head(s), Coerce(s[Width(s)..]));
    }
  }

  lemma CoerceStep(s: string, head: string, tail: string)
    requires s != "" && Head(s) == head && s[Width(s)..] == tail
    ensures Coerce(s) == head + Coerce(tail)
  {
  }

  lemma {:induction false} TextStays(s: string)
    requires IsText(s)
    ensures Coerce(s) == s
    decreases |s|
  {
    if s != "" {
      TextFront(s);
      TextStays(s[Front(s)..]);
      CoerceStep(s, s[..Front(s)], s[Front(s)..]);
    }
  }

  lemma TextFront(s: string)
    requires IsText(s) && s != ""
    ensures Front(s) > 0 && IsText(s[Front(s)..]) && s == s[..Front(s)] + s[Front(s)..]
  {
    CodesDrop(s, Front(s));
  }

  /** A string comes out of JSON unchanged exactly when it is UTF-8. */
  lemma CoerceIff(s: string)
    ensures Coerce(s) == s <==> IsText(s)
  {
    CoercedIsText(s);
    if IsText(s) { TextStays(s); }
  }

  // ---------- paths keep their segments ----------

  lemma CoerceChar(c: string, rest: string)
    requires 0 < Front(c) == |c|
    ensures Coerce(c + rest) == c + Coerce(rest)
  {
    FrontOfConcat(c, rest);
    assert (c + rest)[..|c|] == c && (c + rest)[|c|..] == rest;
  }

  lemma SlashIsChar()
    ensures Front("/") == 1
  {
    assert Codes("/") == [0x2F];
  }

  /** Nothing before a slash can take it in. */
  lemma StepBeforeSlash(a: string, rest: string)
    requires a != "" && HasPrefix(rest, "/")
    ensures Head(a + rest) == Head(a) && Width(a + rest) == Width(a)
  {
    CodesConcat(a, rest);
    assert Codes(rest)[0] == 0x2F;
    CharLengthIsLocal(Codes(a), Codes(rest));
    assert (a + rest)[..Width(a)] == a[..Width(a)];
  }

  lemma {:induction false} CoerceBeforeSlash(a: string, rest: string)
    requires HasPrefix(rest, "/")
    ensures Coerce(a + rest) == Coerce(a) + Coerce(rest)
    decreases |a|
  {
    if a == "" {
      assert a + rest == rest;
    } else {
      var head, tail := Head(a), a[Width(a)..];
      StepBeforeSlash(a, rest);
      assert (a + rest)[Width(a)..] == tail + rest;
      CoerceStep(a + rest, head, tail + rest);
      CoerceStep(a, head, tail);
      CoerceBeforeSlash(tail, rest);
      Associate(head, Coerce(tail), Coerce(rest));
    }
  }

  lemma CoerceAtSlash(a: string, b: string)
    ensures Coerce(a + "/" + b) == Coerce(a) + "/" + Coerce(b)
  {
    SlashIsChar();
    CoerceChar("/", b);
    CoerceBeforeSlash(a, "/" + b);
    Associate(a, "/", b);
    Associate(Coerce(a), "/", Coerce(b));
  }

  /** A segment that comes out as plain ASCII went in as it is. */
  predicate Ascii(s: string) {
    forall i :: 0 <= i < |s| ==> s[i] as int < 0x80
  }

  /** An ASCII octet in front stays there alone. */
  lemma AsciiFront(s: string)
    requires Coerce(s) != "" && Coerce(s)[0] as int < 0x80
    ensures s != "" && s[0] == Coerce(s)[0] && Coerce(s)[1..] == Coerce(s[1..])
  {
    assert Coerce(s)[0] == Head(s)[0];
    assert Width(s) == 1 && Head(s) == [s[0]];
  }

  lemma SameFront(s: string, t: string)
    requires s != "" && t != "" && s[0] == t[0] && s[1..] == t[1..]
    ensures s == t
  {
    assert s == [s[0]] + s[1..] && t == [t[0]] + t[1..];
  }

  lemma NeverVanishes(s: string)
    requires s != ""
    ensures Coerce(s) != ""
  {
  }

  lemma {:induction false} AsciiStays(s: string)
    requires Ascii(Coerce(s))
    ensures Coerce(s) == s
  {
    if s != "" {
      var t := Coerce(s);
      NeverVanishes(s);
      AsciiFront(s);
      assert forall i :: 0 <= i < |t[1..]| ==> t[1..][i] == t[i + 1];
      AsciiStays(s[1..]);
      SameFront(t, s);
    }
  }

  function CoerceAll(segs: seq<string>): (r: seq<string>)
    ensures |r| == |segs| && forall i :: 0 <= i < |segs| ==> r[i] == Coerce(segs[i])
  {
    if segs == [] then [] else [Coerce(segs[0])] + CoerceAll(segs[1..])
  }

  lemma {:induction false} CoerceJoin(segs: seq<string>)
    ensures Coerce(Join(segs)) == Join(CoerceAll(segs))
  {
    if |segs| > 1 {
      CoerceJoin(segs[1..]);
      CoerceAtSlash(segs[0], Join(segs[1..]));
      assert CoerceAll(segs)[1..] == CoerceAll(segs[1..]);
    }
  }

  lemma {:induction false} NoSlashStays(s: string)
    requires '/' !in s
    ensures '/' !in Coerce(s)
    decreases |s|
  {
    if s != "" {
      NoSlashStays(s[Width(s)..]);
      assert forall c :: c in Head(s) ==> c in s || c in REPLACEMENT;
    }
  }

  /** The segments of what comes out are what comes out of the segments. */
  lemma CoerceSplit(s: string)
    ensures Split(Coerce(s)) == CoerceAll(Split(s))
  {
    JoinSplit(s);
    CoerceJoin(Split(s));
    forall i | 0 <= i < |Split(s)|
      ensures '/' !in CoerceAll(Split(s))[i]
    {
      NoSlashStays(Split(s)[i]);
    }
    SplitJoin(CoerceAll(Split(s)));
  }

  /** No segment becomes "..", so a path that does not climb still does not. */
  lemma CoerceKeepsContained(s: string)
    requires ".." !in Split(s)
    ensures ".." !in Split(Coerce(s))
  {
    CoerceSplit(s);
    forall i | 0 <= i < |Split(s)|
      ensures Coerce(Split(s)[i]) != ".."
    {
      assert Split(s)[i] in Split(s);
      if Coerce(Split(s)[i]) == ".." { AsciiStays(Split(s)[i]); }
    }
  }

  lemma CoercedPlain(seg: string)
    requires Plain(seg)
    ensures Plain(Coerce(seg))
    ensures HasPrefix(Coerce(seg), "..") ==> HasPrefix(seg, "..")
  {
    NoSlashStays(seg);
    if Ascii(Coerce(seg)) { AsciiStays(seg); }
    if HasPrefix(Coerce(seg), "..") {
      assert Coerce(seg)[0] == ".."[0] && Coerce(seg)[1] == ".."[1];
      AsciiFront(seg);
      AsciiFront(seg[1..]);
      assert seg[..2] == "..";
    }
  }

  /** A canonical path is still one, with a first segment no more like "..". */
  lemma CoerceKeepsCanonical(s: string)
    requires EntryName(s) == s && Canon(s) != []
    ensures EntryName(Coerce(s)) == Coerce(s) && Canon(Coerce(s)) != []
    ensures HasPrefix(Canon(Coerce(s))[0], "..") ==> HasPrefix(Canon(s)[0], "..")
  {
    var segs := Canon(s);
    CoerceJoin(segs);
    forall i | 0 <= i < |segs|
      ensures Plain(CoerceAll(segs)[i])
    {
      CoercedPlain(segs[i]);
    }
    CanonJoin(CoerceAll(segs));
    CoercedPlain(segs[0]);
  }

  lemma DotStays()
    ensures Coerce(".") == "."
  {
    assert Codes(".") == [0x2E];
    assert "."[..1] == "." && "."[1..] == "";
  }

  // ---------- source files ----------

  function Contents(files: map<string, string>): map<string, string> {
    map n | n in files :: Coerce(files[n])
  }

  /** A file map as it comes back from the column it is stored in: of names that become equal the last sorted wins. */
  ghost function Stored(files: map<string, string>): map<string, string> {
    Renamed(Coerce, Contents(files))
  }

  /** json.Marshal writes the names in order, and a name that is read again replaces what it had. */
  method Marshal(files: map<string, string>) returns (r: map<string, string>)
    ensures r == Stored(files)
  {
    r := Rename(Coerce, Contents(files));
  }

  predicate AllText(files: map<string, string>) {
    forall n :: n in files ==> IsText(n) && IsText(files[n])
  }

  lemma StoredIsText(files: map<string, string>)
    ensures AllText(Stored(files))
  {
    forall k | k in Stored(files)
      ensures IsText(k) && IsText(Stored(files)[k])
    {
      RenamedContent(Coerce, Contents(files), k);
      var n :| Survives(Coerce, Contents(files), k, n) && Stored(files)[k] == Contents(files)[n];
      CoercedIsText(n);
      CoercedIsText(files[n]);
    }
  }

  /** A file map is stored as it is exactly when every name and every content is UTF-8. */
  lemma StoredIff(files: map<string, string>)
    ensures Stored(files) == files <==> AllText(files)
  {
    StoredIsText(files);
    if AllText(files) {
      forall n | n in files
        ensures Coerce(n) == n && Coerce(files[n]) == files[n]
      {
        CoerceIff(n);
        CoerceIff(files[n]);
      }
      assert Contents(files) == files;
      RenamedFixed(Coerce, files);
    }
  }

  lemma StoredTwice(files: map<string, string>)
    ensures Stored(Stored(files)) == Stored(files)
  {
    StoredIsText(files);
    StoredIff(Stored(files));
  }

  /** What names a stored map has. */
  lemma StoredName(files: map<string, string>, k: string) returns (n: string)
    requires k in Stored(files)
    ensures n in files && Coerce(n) == k
  {
    RenamedContent(Coerce, Contents(files), k);
    n :| n in Contents(files) && Coerce(n) == k;
  }

  lemma StoredKeepsContained(files: map<string, string>)
    requires forall n :: n in files ==> ".." !in Split(n)
    ensures forall k :: k in Stored(files) ==> ".." !in Split(k)
  {
    forall k | k in Stored(files)
      ensures ".." !in Split(k)
    {
      var n := StoredName(files, k);
      CoerceKeepsContained(n);
    }
  }

  /** An empty map is stored as one, and no other is. */
  lemma StoredEmptyIff(files: map<string, string>)
    ensures Stored(files) == map[] <==> files == map[]
  {
    if files != map[] {
      var n :| n in files;
      RenamedContent(Coerce, Contents(files), Coerce(n));
      assert n in Contents(files);
    } else {
      StoredIff(files);
    }
  }

  /** One octet that is not UTF-8 is enough: a file that holds it is stored altered. */
  lemma StrayOctetIsAltered(name: string, octet: char)
    requires IsText(name) && 0x80 <= octet as int
    ensures Stored(map[name := [octet]]) == map[name := REPLACEMENT] && REPLACEMENT != [octet]
  {
    var files := map[name := [octet]];
    assert Codes([octet]) == [octet as int];
    assert Front([octet]) == 0;
    CoerceStep([octet], REPLACEMENT, "");
    assert Coerce("") == "" && REPLACEMENT + "" == REPLACEMENT;
    CoerceIff(name);
    assert Contents(files) == map[name := REPLACEMENT];
    RenamedFixed(Coerce, Contents(files));
  }
}
