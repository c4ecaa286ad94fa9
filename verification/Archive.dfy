/**
  Source archives: `writeTarGz` and `readTarGz` of internal/httpapi/archive.go, and `packFiles` of
  internal/builder/builder.go, whose entries are the same.  A tar file is its sequence of entries.
*/
module Archive {
  import opened Wrappers
  import opened Strings
  import opened Paths
  import opened Renaming

  datatype Entry = Entry(name: string, content: string, regular: bool)

  datatype ArchiveError = InvalidPath(name: string) | BadHeader(name: string) | UnsafePath(name: string) | TooLarge(name: string)

  const MAX_UPLOAD := 8 * 1024 * 1024

  // ---------- writing ----------

  /** The writer's check on a file name. */
  predicate Refused(name: string) {
    var clean := Clean("/" + name);
    clean == "/" || HasPrefix(clean, "/..")
  }

  /** What the tar format cannot hold: the header of an entry with a NUL in its name is not written. */
  predicate HasNul(name: string) {
    '\0' in Clean("/" + name)
  }

  predicate Unwritable(name: string) {
    Refused(name) || HasNul(name)
  }

  function TrimSlash(s: string): string {
    if HasPrefix(s, "/") then s[1..] else s
  }

  function EntryOf(files: map<string, string>, name: string): Entry
    requires name in files
  {
    Entry(TrimSlash(Clean("/" + name)), files[name], true)
  }

  function EntriesOf(files: map<string, string>, names: seq<string>): (es: seq<Entry>)
    requires forall n :: n in names ==> n in files
  {
    seq(|names|, i requires 0 <= i < |names| =>
      assert names[i] in names;
      EntryOf(files, names[i]))
  }

  /** The archive of a file map: one entry a file, in the order of the names. */
  ghost function Tar(files: map<string, string>): seq<Entry> {
    EntriesOf(files, SortedNames(files.Keys))
  }

  /** The header of one file, unless its name is refused. */
  method Header(name: string) returns (r: Result<string, ArchiveError>)
    ensures r.Ok? <==> !Unwritable(name)
    ensures r.Ok? ==> r.value == TrimSlash(Clean("/" + name))
    ensures r.Err? ==> r.error == if Refused(name) then InvalidPath(name) else BadHeader(name)
  {
    var clean := Clean("/" + name);
    if clean == "/" || HasPrefix(clean, "/..") { return Err(InvalidPath(name)); }
    if '\0' in clean { return Err(BadHeader(name)); }
    return Ok(TrimSlash(clean));
  }

  /** Fails exactly when some name cannot be written; otherwise the archive depends on nothing but the file map. */
  method WriteTar(files: map<string, string>) returns (r: Result<seq<Entry>, ArchiveError>)
    ensures r.Ok? <==> forall n :: n in files ==> !Unwritable(n)
    ensures r.Ok? ==> r.value == Tar(files)
    ensures r.Err? ==> r.error.name in files && r.error == if Refused(r.error.name) then InvalidPath(r.error.name) else BadHeader(r.error.name)
    ensures r.Err? ==> Unwritable(r.error.name)
  {
    var names := SortedKeys(files);
    r := WriteInOrder(files, names);
    assert forall n :: n in files <==> n in names;
  }

  /** The loop over the names. */
  method WriteInOrder(files: map<string, string>, names: seq<string>) returns (r: Result<seq<Entry>, ArchiveError>)
    requires forall n :: n in names ==> n in files
    ensures r.Ok? <==> forall n :: n in names ==> !Unwritable(n)
    ensures r.Ok? ==> r.value == EntriesOf(files, names)
    ensures r.Err? ==> r.error.name in names && r.error == if Refused(r.error.name) then InvalidPath(r.error.name) else BadHeader(r.error.name)
    ensures r.Err? ==> Unwritable(r.error.name)
  {
    var out: seq<Entry> := [];
    for i := 0 to |names|
      invariant forall n :: n in names[..i] ==> n in files && !Unwritable(n)
      invariant out == EntriesOf(files, names[..i])
    {
      var name := names[i];
      assert name in names && names[..i + 1] == names[..i] + [name];
      var header := Header(name);
      if header.Err? { return Err(header.error); }
      EntriesLast(files, names[..i], name);
      out := out + [Entry(header.value, files[name], true)];
    }
    assert names[..|names|] == names;
    return Ok(out);
  }

  /** A name holds a NUL exactly when its entry name does. */
  lemma HasNulIff(name: string)
    ensures HasNul(name) <==> '\0' in EntryName(name)
  {
    CleanRooted(name);
  }

  /** A name is refused exactly when it names no file or its first real segment starts with "..". */
  lemma RefusedIff(name: string)
    ensures Refused(name) <==> Canon(name) == [] || HasPrefix(Canon(name)[0], "..")
    ensures !Refused(name) ==> TrimSlash(Clean("/" + name)) == EntryName(name)
  {
    CleanRooted(name);
    CleanRootedIsRoot(name);
    assert ("/" + EntryName(name))[1..] == EntryName(name);
    if Canon(name) != [] {
      DotDotPrefix(Canon(name));
    }
  }

  // ---------- reading ----------

  /** The reader's check on a cleaned name. */
  predicate Unsafe(clean: string) {
    HasPrefix(clean, "/") || HasPrefix(clean, "..") || Contains(clean, "/../")
  }

  function ReadOne(files: map<string, string>, e: Entry): Result<map<string, string>, ArchiveError> {
    if !e.regular then Ok(files)
    else
      var clean := Clean(e.name);
      if Unsafe(clean) then Err(UnsafePath(e.name))
      else if |e.content| > MAX_UPLOAD then Err(TooLarge(e.name))
      else Ok(files[clean := e.content])
  }

  function Untar(es: seq<Entry>): Result<map<string, string>, ArchiveError> {
    if es == [] then Ok(map[])
    else
      var n := |es| - 1;
      var r := Untar(es[..n]);
      if r.Err? then r else ReadOne(r.value, es[n])
  }

  /** An entry whose name takes a detour through a directory is read as the one whose name does not. */
  lemma DetourReadsSame(es: seq<Entry>, a: string, x: string, b: string, content: string)
    requires Plain(x)
    ensures var long, short := Untar(es + [Entry(a + "/" + (x + "/..") + "/" + b, content, true)]), Untar(es + [Entry(a + "/" + b, content, true)]);
      (long.Ok? <==> short.Ok?) && (long.Ok? ==> long.value == short.value)
  {
    ParentRemoves(a, x, b);
    var e, f := Entry(a + "/" + (x + "/..") + "/" + b, content, true), Entry(a + "/" + b, content, true);
    assert (es + [e])[..|es|] == es && (es + [f])[..|es|] == es;
  }

  method ReadTar(es: seq<Entry>) returns (r: Result<map<string, string>, ArchiveError>)
    ensures r == Untar(es)
  {
    var files: map<string, string> := map[];
    for i := 0 to |es|
      invariant Untar(es[..i]) == Ok(files)
    {
      var e := es[i];
      assert es[..i + 1][..i] == es[..i];
      if e.regular {
        var clean := Clean(e.name);
        if HasPrefix(clean, "/") || HasPrefix(clean, "..") || Contains(clean, "/../") {
          FailureStays(es, i + 1);
          return Err(UnsafePath(e.name));
        }
        if |e.content| > MAX_UPLOAD {
          FailureStays(es, i + 1);
          return Err(TooLarge(e.name));
        }
        files := files[clean := e.content];
      }
    }
    assert es[..|es|] == es;
    return Ok(files);
  }

  lemma {:induction false} FailureStays(es: seq<Entry>, k: nat)
    requires k <= |es| && Untar(es[..k]).Err?
    ensures Untar(es) == Untar(es[..k])
    decreases |es|
  {
    if k < |es| {
      var n := |es| - 1;
      assert es[..n][..k] == es[..k];
      FailureStays(es[..n], k);
    } else {
      assert es[..k] == es;
    }
  }

  // ---------- what the reader lets in ----------

  /** Cleaning an unrooted path leaves leading ".." segments and then plain ones. */
  ghost predicate UpThenPlain(stack: seq<string>, ups: nat) {
    ups <= |stack| && (forall i :: 0 <= i < ups ==> stack[i] == "..") && forall i :: ups <= i < |stack| ==> Plain(stack[i])
  }

  lemma {:induction false} PushAllUnrooted(stack: seq<string>, ups: nat, segs: seq<string>) returns (ups': nat)
    requires UpThenPlain(stack, ups) && forall i :: 0 <= i < |segs| ==> '/' !in segs[i]
    ensures UpThenPlain(PushAll(false, stack, segs), ups')
    decreases |segs|
  {
    if segs == [] {
      ups' := ups;
    } else {
      var next := Push(false, stack, segs[0]);
      var up := if segs[0] == ".." && (stack == [] || stack[|stack| - 1] == "..") then |next| else ups;
      ups' := PushAllUnrooted(next, up, segs[1..]);
    }
  }

  /** Every name the reader admits is "." or the path of plain segments, the first not starting with "..". */
  lemma AdmittedShape(name: string)
    requires !Unsafe(Clean(name))
    ensures Clean(name) == "." || (Canon(Clean(name)) != [] && Clean(name) == EntryName(Clean(name))
      && !HasPrefix(Canon(Clean(name))[0], ".."))
  {
    if name != "" && name[0] != '/' {
      var stack := PushAll(false, [], Split(name));
      var ups := PushAllUnrooted([], 0, Split(name));
      if stack != [] {
        if ups > 0 { UpsArePrefixed(stack); }
        CanonJoin(stack);
        DotDotPrefix(stack);
      }
    }
  }

  lemma UpsArePrefixed(stack: seq<string>)
    requires stack != [] && stack[0] == ".."
    ensures HasPrefix(Join(stack), "..")
  {
  }

  lemma {:induction false} ReadNamesAreSafe(es: seq<Entry>, k: string)
    requires Untar(es).Ok? && k in Untar(es).value
    ensures k == "." || (Canon(k) != [] && k == EntryName(k) && !HasPrefix(Canon(k)[0], ".."))
    ensures |Untar(es).value[k]| <= MAX_UPLOAD
  {
    var n := |es| - 1;
    var before := Untar(es[..n]).value;
    if es[n].regular && Clean(es[n].name) == k {
      AdmittedShape(es[n].name);
    } else {
      ReadNamesAreSafe(es[..n], k);
    }
  }

  // ---------- round trips ----------

  ghost function Canonical(files: map<string, string>): map<string, string> {
    Renamed(EntryName, files)
  }

  /** When two names collide, the content of the one later in sort order survives, and nothing is invented. */
  lemma CanonicalContent(files: map<string, string>, k: string)
    ensures k in Canonical(files) <==> exists n :: n in files && EntryName(n) == k
    ensures k in Canonical(files) ==> exists n :: Survives(EntryName, files, k, n) && Canonical(files)[k] == files[n]
  {
    RenamedContent(EntryName, files, k);
  }

  ghost predicate Packable(files: map<string, string>) {
    forall n :: n in files ==> !Unwritable(n) && |files[n]| <= MAX_UPLOAD
  }

  /** The reader accepts every entry the writer emits for a file within the limit, under its canonical name. */
  lemma EntryIsAccepted(files: map<string, string>, name: string, so: map<string, string>)
    requires name in files && !Refused(name) && |files[name]| <= MAX_UPLOAD
    ensures ReadOne(so, EntryOf(files, name)) == Ok(so[EntryName(name) := files[name]])
  {
    RefusedIff(name);
    CleanCanonical(Canon(name));
    DotDotPrefix(Canon(name));
    NoDotDotInside(Canon(name));
  }

  lemma ReadLast(es: seq<Entry>, e: Entry, so: map<string, string>, r: map<string, string>)
    requires Untar(es) == Ok(so) && ReadOne(so, e) == Ok(r)
    ensures Untar(es + [e]) == Ok(r)
  {
    assert (es + [e])[..|es|] == es;
  }

  lemma EntriesLast(files: map<string, string>, names: seq<string>, x: string)
    requires forall n :: n in names + [x] ==> n in files
    requires forall n :: n in names ==> n in files
    requires x in files
    ensures EntriesOf(files, names + [x]) == EntriesOf(files, names) + [EntryOf(files, x)]
  {
  }

  lemma {:induction false} EntriesRead(files: map<string, string>, names: seq<string>)
    requires Packable(files) && forall n :: n in names ==> n in files
    ensures Untar(EntriesOf(files, names)) == Ok(LastWins(EntryName, files, names))
  {
    if names != [] {
      var n := |names| - 1;
      var init, x := names[..n], names[n];
      assert names == init + [x] && x in names;
      assert forall y :: y in init ==> y in names;
      EntriesRead(files, init);
      EntriesLast(files, init, x);
      LastWinsLast(EntryName, files, init, x);
      EntryIsAccepted(files, x, LastWins(EntryName, files, init));
      ReadLast(EntriesOf(files, init), EntryOf(files, x), LastWins(EntryName, files, init), LastWins(EntryName, files, names));
    }
  }

  /** Reading what was written gives the file map with its names canonicalised. */
  lemma ReadAfterWrite(files: map<string, string>)
    requires Packable(files)
    ensures Untar(Tar(files)) == Ok(Canonical(files))
  {
    EntriesRead(files, SortedNames(files.Keys));
  }

  /** The round trip is the identity exactly on file maps whose names are all canonical. */
  lemma RoundTripIsIdentityIff(files: map<string, string>)
    requires Packable(files)
    ensures Untar(Tar(files)) == Ok(files) <==> forall n :: n in files ==> EntryName(n) == n
  {
    ReadAfterWrite(files);
    CanonicalIsItselfIff(files);
  }

  lemma CanonicalIsItselfIff(files: map<string, string>)
    ensures Canonical(files) == files <==> forall n :: n in files ==> EntryName(n) == n
  {
    forall n | n in files
      ensures EntryName(EntryName(n)) == EntryName(n)
    {
      EntryNameIsStable(n);
    }
    RenamedIsItselfIff(EntryName, files);
  }

  lemma SameEntrySameRefusal(n: string)
    requires !Unwritable(n)
    ensures !Unwritable(EntryName(n))
  {
    CanonJoin(Canon(n));
    RefusedIff(n);
    RefusedIff(EntryName(n));
    HasNulIff(n);
    HasNulIff(EntryName(n));
  }

  /** For all file maps the writer accepts: what comes back goes through unchanged from then on. */
  lemma RoundTripIsIdempotent(files: map<string, string>)
    requires Packable(files)
    ensures Packable(Canonical(files)) && Untar(Tar(Canonical(files))) == Ok(Canonical(files))
  {
    forall k | k in Canonical(files)
      ensures EntryName(k) == k && !Unwritable(k) && |Canonical(files)[k]| <= MAX_UPLOAD
    {
      CanonicalContent(files, k);
      var n :| Survives(EntryName, files, k, n) && Canonical(files)[k] == files[n];
      EntryNameIsStable(n);
      SameEntrySameRefusal(n);
    }
    RoundTripIsIdentityIff(Canonical(files));
  }

  /** What is read to the end holds no entry above the limit. */
  lemma {:induction false} ReadEntryFits(es: seq<Entry>, i: nat)
    requires Untar(es).Ok? && i < |es| && es[i].regular
    ensures |es[i].content| <= MAX_UPLOAD
  {
    var k := |es| - 1;
    if i < k { ReadEntryFits(es[..k], i); }
  }

  /** Only files within the limit are read back. */
  lemma ReadSizes(files: map<string, string>)
    requires Untar(Tar(files)).Ok?
    ensures forall n :: n in files ==> |files[n]| <= MAX_UPLOAD
  {
    var names := SortedNames(files.Keys);
    forall n | n in files
      ensures |files[n]| <= MAX_UPLOAD
    {
      var i :| 0 <= i < |names| && names[i] == n;
      ReadEntryFits(EntriesOf(files, names), i);
    }
  }

  lemma DotIsRefused()
    ensures Refused(".")
  {
    assert Split(".") == ["."];
    assert PushAll(true, [], ["."]) == PushAll(true, [], ["."][1..]);
    RefusedIff(".");
  }

  lemma {:induction false} DotIsClean()
    ensures Clean(".") == "."
  {
    assert Split(".") == ["."];
    assert PushAll(false, [], ["."]) == PushAll(false, [], ["."][1..]);
  }

  /** The reader does yield a file ".": an entry of this name is admitted. */
  lemma DotIsRead(content: string)
    requires |content| <= MAX_UPLOAD
    ensures Untar([Entry(".", content, true)]) == Ok(map["." := content])
  {
    DotIsClean();
    var e := Entry(".", content, true);
    assert !Unsafe(".") by { assert Find(".", "/../").None?; }
    assert ReadOne(map[], e) == Ok(map["." := content]);
    ReadLast([], e, map[], map["." := content]);
    assert [] + [e] == [e];
  }

  /**
    What was read from an archive can be written again exactly when no file is named ".", which the reader admits
    and the writer refuses, and no name holds a NUL, which no tar file can give; and it is then read back unchanged.
  */
  lemma ReadThenWriteIff(es: seq<Entry>)
    requires Untar(es).Ok?
    ensures var files := Untar(es).value;
      ((forall n :: n in files ==> !Unwritable(n)) <==> "." !in files && forall n :: n in files ==> '\0' !in n) &&
      ((forall n :: n in files ==> !Unwritable(n)) ==> Untar(Tar(files)) == Ok(files))
  {
    var files := Untar(es).value;
    DotIsRefused();
    forall n | n in files && n != "."
      ensures EntryName(n) == n && !Refused(n) && (HasNul(n) <==> '\0' in n) && |files[n]| <= MAX_UPLOAD
    {
      ReadNamesAreSafe(es, n);
      RefusedIff(n);
      HasNulIff(n);
    }
    if forall n :: n in files ==> !Unwritable(n) {
      RoundTripIsIdentityIff(files);
    }
  }
}
