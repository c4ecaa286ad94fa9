/**
  The build context: how `Start` of internal/builder/builder.go lays out the sources of an application
  and `packFiles` packs them, for the sources that `putSource` (internal/httpapi/builds.go) and the
  archive import let in.
*/
module Packing {
  import opened Wrappers
  import opened Strings
  import opened Paths
  import opened Archive
  import M = Manifest
  import ImageRef

  datatype BuildInput = BuildInput(name: string, route: string, files: map<string, string>)

  const MANIFEST := "spin.toml"

  // ---------- admission ----------

  /** putSource's check on one file name. */
  predicate Admitted(rel: string) {
    rel != "" && !HasPrefix(rel, "/") && !Contains(rel, "..")
  }

  /** The validation loop of putSource. */
  method ValidatePaths(files: map<string, string>) returns (bad: Option<string>)
    ensures bad.None? <==> forall n :: n in files ==> Admitted(n)
    ensures bad.Some? ==> bad.value in files && !Admitted(bad.value)
  {
    var todo := files.Keys;
    while todo != {}
      invariant todo <= files.Keys
      invariant forall n :: n in files && n !in todo ==> Admitted(n)
      decreases todo
    {
      var n :| n in todo;
      if n == "" || HasPrefix(n, "/") || Contains(n, "..") { return Some(n); }
      todo := todo - {n};
    }
    return None;
  }

  /** No segment climbs: what admission is for. */
  predicate Contained(rel: string) {
    ".." !in Split(rel)
  }

  lemma {:induction false} SegmentOccurs(segs: seq<string>, i: nat) returns (k: nat)
    requires i < |segs|
    ensures OccursAt(Join(segs), segs[i], k)
  {
    var all := Join(segs);
    if i == 0 {
      k := 0;
      assert all[..|segs[0]|] == segs[0];
    } else {
      var l := SegmentOccurs(segs[1..], i - 1);
      var from := |segs[0]| + 1;
      assert all == segs[0] + "/" + Join(segs[1..]);
      assert all[from..] == Join(segs[1..]);
      OccursLater(all, from, segs[i], l);
      k := l + from;
    }
  }

  lemma OccursLater(s: string, from: nat, p: string, l: nat)
    requires from <= |s| && OccursAt(s[from..], p, l)
    ensures OccursAt(s, p, l + from)
  {
    assert s[from..][l..l + |p|] == s[l + from..l + from + |p|];
  }

  /** What PUT source admits does not climb. */
  lemma AdmittedIsContained(rel: string)
    requires Admitted(rel)
    ensures Contained(rel)
  {
    if ".." in Split(rel) {
      var i :| 0 <= i < |Split(rel)| && Split(rel)[i] == "..";
      JoinSplit(rel);
      var k := SegmentOccurs(Split(rel), i);
    }
  }

  /** What an archive import admits does not climb. */
  lemma ImportedIsContained(es: seq<Entry>, rel: string)
    requires Untar(es).Ok? && rel in Untar(es).value
    ensures Contained(rel)
  {
    ReadNamesAreSafe(es, rel);
    if rel == "." {
      assert Split(".") == ["."];
    } else {
      SplitJoin(Canon(rel));
    }
  }

  // ---------- the file tree ----------

  function Key(fn: string, rel: string): string {
    "functions/" + fn + "/" + rel
  }

  lemma KeyParts(fn: string, rel: string)
    requires '/' !in fn
    ensures Split(Key(fn, rel)) == ["functions", fn] + Split(rel)
  {
    assert Key(fn, rel) == "functions" + "/" + (fn + "/" + rel);
    SplitCons("functions", fn + "/" + rel);
    SplitCons(fn, rel);
  }

  /** The key determines function and file. */
  lemma KeyIsInjective(fn: string, rel: string, fn': string, rel': string)
    requires '/' !in fn && '/' !in fn' && Key(fn, rel) == Key(fn', rel')
    ensures fn == fn' && rel == rel'
  {
    KeyParts(fn, rel);
    KeyParts(fn', rel');
    assert Split(Key(fn, rel))[1] == fn && Split(Key(fn', rel'))[1] == fn';
    assert rel == Key(fn, rel)[11 + |fn|..] && rel' == Key(fn', rel')[11 + |fn'|..];
  }

  /** The functions of an application: DNS-1123 names, no two alike. */
  ghost predicate GoodInputs(fns: seq<BuildInput>) {
    (forall i :: 0 <= i < |fns| ==> ImageRef.Dns1123(fns[i].name)) &&
    (forall i, j :: 0 <= i < j < |fns| ==> fns[i].name != fns[j].name)
  }

  /** `key` is that of a file of a function. */
  ghost predicate Lists(fns: seq<BuildInput>, key: string, i: nat, rel: string) {
    i < |fns| && rel in fns[i].files && key == Key(fns[i].name, rel)
  }

  /** `files` holds the files of the functions under their keys, and nothing else. */
  ghost predicate IsTree(fns: seq<BuildInput>, files: map<string, string>) {
    (forall i, rel :: 0 <= i < |fns| && rel in fns[i].files ==>
      Key(fns[i].name, rel) in files && files[Key(fns[i].name, rel)] == fns[i].files[rel]) &&
    (forall key :: key in files ==> exists i: nat, rel :: Lists(fns, key, i, rel))
  }

  ghost predicate IsContext(language: string, appName: string, fns: seq<BuildInput>, files: map<string, string>)
    requires GoodInputs(fns)
  {
    MANIFEST in files && files[MANIFEST] == M.Text(language, appName, SpecsOf(fns)) && IsTree(fns, files - {MANIFEST})
  }

  function SpecsOf(fns: seq<BuildInput>): seq<M.FunctionSpec> {
    seq(|fns|, i requires 0 <= i < |fns| => M.FunctionSpec(fns[i].name, fns[i].route))
  }

  lemma SpecsStep(fns: seq<BuildInput>, i: nat)
    requires i < |fns|
    ensures SpecsOf(fns[..i + 1]) == SpecsOf(fns[..i]) + [M.FunctionSpec(fns[i].name, fns[i].route)]
  {
  }

  lemma KeyIsNotManifest(fn: string, rel: string)
    ensures Key(fn, rel) != MANIFEST
  {
    assert Key(fn, rel)[0] == 'f' && MANIFEST[0] == 's';
  }

  lemma NamesHaveNoSlash(fns: seq<BuildInput>)
    requires forall i :: 0 <= i < |fns| ==> ImageRef.Dns1123(fns[i].name)
    ensures forall i :: 0 <= i < |fns| ==> '/' !in fns[i].name
  {
  }

  /** The map `Start` builds, whatever order functions and files come in. */
  method BuildContext(language: string, appName: string, fns: seq<BuildInput>) returns (r: Result<map<string, string>, string>)
    requires GoodInputs(fns)
    ensures r.Err? <==> fns == []
    ensures r.Ok? ==> IsContext(language, appName, fns, r.value)
  {
    if fns == [] { return Err("application has no functions to build"); }
    var specs: seq<M.FunctionSpec> := [];
    var files: map<string, string> := map[];
    for i := 0 to |fns|
      invariant specs == SpecsOf(fns[..i])
      invariant IsTree(fns[..i], files)
    {
      var fb := fns[i];
      SpecsStep(fns, i);
      specs := specs + [M.FunctionSpec(fb.name, fb.route)];
      files := AddFunction(fns, i, files);
    }
    assert fns[..|fns|] == fns;
    var manifest := M.SynthesizeSpinToml(language, appName, specs);
    if manifest.Err? { return Err("no functions"); }
    AddManifest(fns, files, manifest.value);
    files := files[MANIFEST := manifest.value];
    return Ok(files);
  }

  lemma AddManifest(fns: seq<BuildInput>, files: map<string, string>, text: string)
    requires IsTree(fns, files)
    ensures files[MANIFEST := text] - {MANIFEST} == files
  {
    forall i: nat, rel
      ensures !Lists(fns, MANIFEST, i, rel)
    {
      if i < |fns| { KeyIsNotManifest(fns[i].name, rel); }
    }
  }

  /** The inner loop of `Start`: the files of one more function. */
  method AddFunction(fns: seq<BuildInput>, n: nat, files: map<string, string>) returns (out: map<string, string>)
    requires GoodInputs(fns) && n < |fns| && IsTree(fns[..n], files)
    ensures IsTree(fns[..n + 1], out)
  {
    var fb := fns[n];
    NamesHaveNoSlash(fns);
    out := files;
    var todo := fb.files.Keys;
    while todo != {}
      invariant todo <= fb.files.Keys
      invariant forall key :: key in files ==> key in out && out[key] == files[key]
      invariant forall rel :: rel in fb.files && rel !in todo ==> Key(fb.name, rel) in out && out[Key(fb.name, rel)] == fb.files[rel]
      invariant forall key :: key in out ==> key in files || exists rel :: rel in fb.files && key == Key(fb.name, rel)
      decreases todo
    {
      var rel :| rel in todo;
      OwnKeyIsNew(fns, n, files, rel);
      forall r | r in fb.files && Key(fb.name, r) == Key(fb.name, rel)
        ensures r == rel
      {
        KeyIsInjective(fb.name, r, fb.name, rel);
      }
      out := out[Key(fb.name, rel) := fb.files[rel]];
      todo := todo - {rel};
    }
    TreeGrows(fns, n, files, out);
  }

  lemma OwnKeyIsNew(fns: seq<BuildInput>, n: nat, files: map<string, string>, rel: string)
    requires GoodInputs(fns) && n < |fns| && IsTree(fns[..n], files)
    ensures Key(fns[n].name, rel) !in files
  {
    NamesHaveNoSlash(fns);
    var key := Key(fns[n].name, rel);
    if key in files {
      var i: nat, rel' :| Lists(fns[..n], key, i, rel');
      KeyIsInjective(fns[n].name, rel, fns[i].name, rel');
      assert false;
    }
  }

  lemma GrownFiles(fns: seq<BuildInput>, n: nat, files: map<string, string>, out: map<string, string>, i: nat, rel: string)
    requires n < |fns| && IsTree(fns[..n], files)
    requires forall key :: key in files ==> key in out && out[key] == files[key]
    requires forall rel :: rel in fns[n].files ==> Key(fns[n].name, rel) in out && out[Key(fns[n].name, rel)] == fns[n].files[rel]
    requires i <= n && rel in fns[i].files
    ensures Key(fns[i].name, rel) in out && out[Key(fns[i].name, rel)] == fns[i].files[rel]
  {
    if i < n {
      assert fns[..n][i] == fns[i];
      assert Key(fns[i].name, rel) in files;
    }
  }

  lemma TreeGrows(fns: seq<BuildInput>, n: nat, files: map<string, string>, out: map<string, string>)
    requires n < |fns| && IsTree(fns[..n], files)
    requires forall key :: key in files ==> key in out && out[key] == files[key]
    requires forall rel :: rel in fns[n].files ==> Key(fns[n].name, rel) in out && out[Key(fns[n].name, rel)] == fns[n].files[rel]
    requires forall key :: key in out ==> key in files || exists rel :: rel in fns[n].files && key == Key(fns[n].name, rel)
    ensures IsTree(fns[..n + 1], out)
  {
    var more := fns[..n + 1];
    forall i, rel | 0 <= i < |more| && rel in more[i].files
      ensures Key(more[i].name, rel) in out && out[Key(more[i].name, rel)] == more[i].files[rel]
    {
      GrownFiles(fns, n, files, out, i, rel);
    }
    forall key | key in out
      ensures exists i: nat, rel :: Lists(more, key, i, rel)
    {
      GrownKey(fns, n, more, files, key);
    }
  }

  lemma GrownKey(fns: seq<BuildInput>, n: nat, more: seq<BuildInput>, files: map<string, string>, key: string)
    requires n < |fns| && more == fns[..n + 1] && IsTree(fns[..n], files)
    requires key in files || exists rel :: rel in fns[n].files && key == Key(fns[n].name, rel)
    ensures exists i: nat, rel :: Lists(more, key, i, rel)
  {
    if key in files {
      var i: nat, rel :| Lists(fns[..n], key, i, rel);
      assert Lists(more, key, i, rel);
    } else {
      var rel :| rel in fns[n].files && key == Key(fns[n].name, rel);
      assert Lists(more, key, n, rel);
    }
  }

  // ---------- where the packed entries land ----------

  lemma FunctionSegments(fn: string)
    requires ImageRef.Dns1123(fn)
    ensures AllPlain(["functions", fn])
  {
    ImageRef.NamesHaveNoSeparators(fn, "00000000000000000000000000000000");
    assert '.' != fn[0];
  }

  /** The segments of a packed file: its function's directory, then the cleaned file path. */
  lemma PackedSegments(fn: string, rel: string)
    requires ImageRef.Dns1123(fn) && Contained(rel)
    ensures Canon(Key(fn, rel)) == ["functions", fn] + Canon(rel)
  {
    ImageRef.NamesHaveNoSeparators(fn, "00000000000000000000000000000000");
    FunctionSegments(fn);
    KeyParts(fn, rel);
    PushAllConcat(true, [], ["functions", fn], Split(rel));
    PushPlain(true, [], ["functions", fn]);
    assert [] + ["functions", fn] == ["functions", fn];
    PushWithoutDotDot(true, ["functions", fn], Split(rel));
  }

  lemma PackedEntryName(fn: string, rel: string)
    requires ImageRef.Dns1123(fn) && Contained(rel)
    ensures EntryName(Key(fn, rel)) == if Canon(rel) == [] then "functions/" + fn else "functions/" + fn + "/" + EntryName(rel)
  {
    PackedSegments(fn, rel);
    var segs := ["functions", fn] + Canon(rel);
    assert segs[1..] == [fn] + Canon(rel);
    assert segs[1..][1..] == Canon(rel);
    if Canon(rel) == [] {
      assert Join(segs) == "functions" + "/" + Join([fn]);
    } else {
      assert Join(segs) == "functions" + "/" + (fn + "/" + Join(Canon(rel)));
    }
  }

  /** A packed file stays under its own function's directory exactly when its path names a file at all. */
  lemma StaysUnderItsFunction(fn: string, rel: string)
    requires ImageRef.Dns1123(fn) && Contained(rel)
    ensures HasPrefix(EntryName(Key(fn, rel)), "functions/" + fn + "/") <==> Canon(rel) != []
  {
    PackedEntryName(fn, rel);
    var dir := "functions/" + fn + "/";
    if Canon(rel) != [] {
      assert (dir + EntryName(rel))[..|dir|] == dir;
    }
  }

  /** Such a path is admitted: "." is no file, and is packed under the name of the directory itself. */
  lemma DotIsAdmitted(fn: string)
    requires ImageRef.Dns1123(fn)
    ensures Admitted(".") && EntryName(Key(fn, ".")) == "functions/" + fn
  {
    assert Split(".") == ["."];
    assert PushAll(true, [], ["."]) == PushAll(true, [], ["."][1..]);
    PackedEntryName(fn, ".");
    var k := Find(".", "..");
  }

  /** Files of different functions never share an entry. */
  lemma FunctionsNeverCollide(fn: string, rel: string, fn': string, rel': string)
    requires ImageRef.Dns1123(fn) && ImageRef.Dns1123(fn') && Contained(rel) && Contained(rel')
    requires EntryName(Key(fn, rel)) == EntryName(Key(fn', rel'))
    ensures fn == fn'
  {
    PackedSegments(fn, rel);
    PackedSegments(fn', rel');
    CanonJoin(Canon(Key(fn, rel)));
    CanonJoin(Canon(Key(fn', rel')));
    assert Canon(Key(fn, rel))[1] == fn && Canon(Key(fn', rel'))[1] == fn';
  }

  lemma ManifestIsPlain()
    ensures Plain(MANIFEST) && '\0' !in MANIFEST && !HasPrefix(MANIFEST, "..")
  {
    assert MANIFEST[0] == 's';
  }

  lemma ManifestEntry()
    ensures Canon(MANIFEST) == [MANIFEST] && EntryName(MANIFEST) == MANIFEST && !Unwritable(MANIFEST)
  {
    ManifestIsPlain();
    PlainEntry(MANIFEST);
    RefusedIff(MANIFEST);
    HasNulIff(MANIFEST);
  }

  lemma FileIsPackable(fn: string, rel: string)
    requires ImageRef.Dns1123(fn) && Contained(rel)
    ensures !Refused(Key(fn, rel)) && EntryName(Key(fn, rel)) != MANIFEST
  {
    PackedSegments(fn, rel);
    var segs := Canon(Key(fn, rel));
    assert segs[0] == "functions" && segs[0][0] == 'f';
    RefusedIff(Key(fn, rel));
    JoinNonEmpty(segs);
    assert MANIFEST[0] == 's';
  }

  lemma NamesHaveNoNul(fn: string)
    requires ImageRef.Dns1123(fn)
    ensures '\0' !in fn
  {
  }

  /** The directory adds no NUL. */
  lemma FileHasNulIff(fn: string, rel: string)
    requires ImageRef.Dns1123(fn) && Contained(rel)
    ensures HasNul(Key(fn, rel)) <==> '\0' in EntryName(rel)
  {
    HasNulIff(Key(fn, rel));
    PackedEntryName(fn, rel);
    NamesHaveNoNul(fn);
    NulInPath(fn, EntryName(rel));
  }

  lemma NulInPath(fn: string, entry: string)
    requires '\0' !in fn
    ensures '\0' in "functions/" + fn + "/" + entry <==> '\0' in entry
    ensures '\0' !in "functions/" + fn
  {
    assert '\0' !in "functions/" && '\0' !in "/";
  }

  ghost predicate NulFreeFiles(fns: seq<BuildInput>) {
    forall i, rel :: 0 <= i < |fns| && rel in fns[i].files ==> '\0' !in EntryName(rel)
  }

  ghost predicate AllContained(fns: seq<BuildInput>) {
    forall i, rel :: 0 <= i < |fns| && rel in fns[i].files ==> Contained(rel)
  }

  /** Every key of a build context is the manifest or a contained file of a function. */
  lemma ContextKeys(language: string, appName: string, fns: seq<BuildInput>, files: map<string, string>, key: string)
    requires GoodInputs(fns) && AllContained(fns) && IsContext(language, appName, fns, files) && key in files && key != MANIFEST
    ensures exists i: nat, rel :: Lists(fns, key, i, rel) && Contained(rel)
  {
    assert key in files - {MANIFEST};
    var i: nat, rel :| Lists(fns, key, i, rel);
  }

  lemma KeyIsWritableIff(fn: string, rel: string)
    requires ImageRef.Dns1123(fn) && Contained(rel)
    ensures Unwritable(Key(fn, rel)) <==> '\0' in EntryName(rel)
  {
    FileIsPackable(fn, rel);
    FileHasNulIff(fn, rel);
  }

  lemma KeysAreWritable(language: string, appName: string, fns: seq<BuildInput>, files: map<string, string>, key: string)
    requires GoodInputs(fns) && AllContained(fns) && IsContext(language, appName, fns, files) && NulFreeFiles(fns) && key in files
    ensures !Unwritable(key)
  {
    if key == MANIFEST {
      ManifestEntry();
    } else {
      ContextKeys(language, appName, fns, files, key);
      var i: nat, rel :| Lists(fns, key, i, rel) && Contained(rel);
      KeyIsWritableIff(fns[i].name, rel);
    }
  }

  lemma NulIsUnwritable(language: string, appName: string, fns: seq<BuildInput>, files: map<string, string>, i: nat, rel: string)
    requires GoodInputs(fns) && AllContained(fns) && IsContext(language, appName, fns, files)
    requires i < |fns| && rel in fns[i].files && '\0' in EntryName(rel)
    ensures exists key :: key in files && Unwritable(key)
  {
    assert Key(fns[i].name, rel) in files - {MANIFEST};
    KeyIsWritableIff(fns[i].name, rel);
  }

  /** Packing an admitted context fails exactly when some file name holds a NUL once it is cleaned. */
  lemma ContextIsPackableIff(language: string, appName: string, fns: seq<BuildInput>, files: map<string, string>)
    requires GoodInputs(fns) && AllContained(fns) && IsContext(language, appName, fns, files)
    ensures (forall key :: key in files ==> !Unwritable(key)) <==> NulFreeFiles(fns)
  {
    if NulFreeFiles(fns) {
      forall key | key in files
        ensures !Unwritable(key)
      {
        KeysAreWritable(language, appName, fns, files, key);
      }
    } else {
      var i, rel :| 0 <= i < |fns| && rel in fns[i].files && '\0' in EntryName(rel);
      NulIsUnwritable(language, appName, fns, files, i, rel);
    }
  }

  /** PUT admits such a name. */
  lemma NulIsAdmitted()
    ensures Admitted("a\0b") && Contained("a\0b") && '\0' in EntryName("a\0b")
  {
    var s := "a\0b";
    assert s[0] == 'a' && s[1] == '\0' && s[2] == 'b';
    assert Find(s, "..").None?;
    AdmittedIsContained(s);
    PlainEntry(s);
  }

  /** Nothing but the synthesized manifest is ever packed as spin.toml, and it always is. */
  lemma ManifestIsNeverShadowed(language: string, appName: string, fns: seq<BuildInput>, files: map<string, string>, key: string)
    requires GoodInputs(fns) && AllContained(fns) && IsContext(language, appName, fns, files) && key in files
    ensures EntryName(key) == MANIFEST <==> key == MANIFEST
    ensures EntryName(key) == MANIFEST ==> files[key] == M.Text(language, appName, SpecsOf(fns))
  {
    ManifestEntry();
    if key != MANIFEST {
      ContextKeys(language, appName, fns, files, key);
      var i: nat, rel :| Lists(fns, key, i, rel) && Contained(rel);
      FileIsPackable(fns[i].name, rel);
    }
  }

  // ---------- reproducible packing ----------

  ghost predicate SameFunctions(fns: seq<BuildInput>, gns: seq<BuildInput>) {
    forall f :: f in fns <==> f in gns
  }

  lemma ListsCarriesOver(fns: seq<BuildInput>, gns: seq<BuildInput>, files: map<string, string>, out: map<string, string>, key: string)
    requires SameFunctions(fns, gns) && IsTree(fns, files) && IsTree(gns, out) && key in files
    ensures key in out && out[key] == files[key]
  {
    var i: nat, rel :| Lists(fns, key, i, rel);
    assert fns[i] in gns;
    var j :| 0 <= j < |gns| && gns[j] == fns[i];
    assert out[Key(gns[j].name, rel)] == gns[j].files[rel];
    assert files[Key(fns[i].name, rel)] == fns[i].files[rel];
  }

  lemma SpecsCarryOver(fns: seq<BuildInput>, gns: seq<BuildInput>)
    requires SameFunctions(fns, gns)
    ensures forall s :: s in SpecsOf(fns) ==> s in SpecsOf(gns)
  {
    forall s | s in SpecsOf(fns)
      ensures s in SpecsOf(gns)
    {
      var i :| 0 <= i < |fns| && SpecsOf(fns)[i] == s;
      assert fns[i] in gns;
      var j :| 0 <= j < |gns| && gns[j] == fns[i];
      assert SpecsOf(gns)[j] == s;
    }
  }

  /** The same functions in any order give the same context, hence the same archive, byte for byte. */
  lemma PackingIsReproducible(language: string, appName: string, fns: seq<BuildInput>, gns: seq<BuildInput>,
                              files: map<string, string>, out: map<string, string>)
    requires GoodInputs(fns) && GoodInputs(gns) && SameFunctions(fns, gns)
    requires IsContext(language, appName, fns, files) && IsContext(language, appName, gns, out)
    ensures files == out && Tar(files) == Tar(out)
  {
    SpecsCarryOver(fns, gns);
    SpecsCarryOver(gns, fns);
    M.TextIgnoresOrder(language, appName, SpecsOf(fns), SpecsOf(gns));
    SameTree(fns, gns, files - {MANIFEST}, out - {MANIFEST});
    SplitOff(files, out);
  }

  lemma SplitOff(files: map<string, string>, out: map<string, string>)
    requires MANIFEST in files && MANIFEST in out && files[MANIFEST] == out[MANIFEST]
    requires files - {MANIFEST} == out - {MANIFEST}
    ensures files == out
  {
    assert files == (files - {MANIFEST})[MANIFEST := files[MANIFEST]];
    assert out == (out - {MANIFEST})[MANIFEST := out[MANIFEST]];
  }

  lemma SameTree(fns: seq<BuildInput>, gns: seq<BuildInput>, files: map<string, string>, out: map<string, string>)
    requires SameFunctions(fns, gns) && IsTree(fns, files) && IsTree(gns, out)
    ensures files == out
  {
    SubTree(fns, gns, files, out);
    SubTree(gns, fns, out, files);
    SameContent(files, out);
  }

  lemma SameContent(files: map<string, string>, out: map<string, string>)
    requires forall key :: key in files ==> key in out && out[key] == files[key]
    requires forall key :: key in out ==> key in files && files[key] == out[key]
    ensures files == out
  {
  }

  lemma SubTree(fns: seq<BuildInput>, gns: seq<BuildInput>, files: map<string, string>, out: map<string, string>)
    requires SameFunctions(fns, gns) && IsTree(fns, files) && IsTree(gns, out)
    ensures forall key :: key in files ==> key in out && out[key] == files[key]
  {
    forall key | key in files
      ensures key in out && out[key] == files[key]
    {
      ListsCarriesOver(fns, gns, files, out, key);
    }
  }
}
