/** The synthesized Spin manifest: internal/builder/manifest.go. */
module Manifest {
  import opened Wrappers
  import opened Strings
  import opened Toml

  datatype FunctionSpec = FunctionSpec(name: string, route: string)

  function NameOf(f: FunctionSpec): string {
    f.name
  }

  /** Function names are unique within an application (schema of the functions table). */
  ghost predicate UniquelyNamed(fs: seq<FunctionSpec>) {
    forall i, j :: 0 <= i < j < |fs| ==> fs[i].name != fs[j].name
  }

  // ---------- sorting by name ----------

  ghost function ByName(fs: seq<FunctionSpec>): (s: seq<FunctionSpec>)
    requires UniquelyNamed(fs)
    ensures SortedBy(NameOf, s)
    ensures forall f :: f in s <==> f in fs
  {
    if fs == [] then []
    else
      var n := |fs| - 1;
      var s := ByName(fs[..n]);
      assert forall i :: 0 <= i < |s| ==> s[i] in fs[..n];
      assert fs == fs[..n] + [fs[n]];
      Insert(NameOf, s, fs[n])
  }

  /** sort.Slice on the name. */
  method SortByName(fs: seq<FunctionSpec>) returns (s: seq<FunctionSpec>)
    requires UniquelyNamed(fs)
    ensures s == ByName(fs)
  {
    s := [];
    for i := 0 to |fs|
      invariant s == ByName(fs[..i])
    {
      assert fs[..i + 1][..i] == fs[..i];
      assert forall k :: 0 <= k < |s| ==> s[k] in fs[..i];
      s := Insert(NameOf, s, fs[i]);
    }
    assert fs[..|fs|] == fs;
  }

  lemma ByNameIgnoresOrder(fs: seq<FunctionSpec>, gs: seq<FunctionSpec>)
    requires UniquelyNamed(fs) && UniquelyNamed(gs) && forall f :: f in fs <==> f in gs
    ensures ByName(fs) == ByName(gs)
  {
    SortedUnique(NameOf, ByName(fs), ByName(gs));
  }

  // ---------- the text ----------

  /** A table or an entry of an array of tables. */
  function TableLines(header: string, fields: seq<Field>): seq<string> {
    [header] + KeyLines(fields)
  }

  function VersionFields(): seq<Field> {
    [Field("spin_manifest_version", "2")]
  }

  function ApplicationFields(appName: string): seq<Field> {
    [Field("name", Quote(appName)), Field("version", "\"0.1.0\"")]
  }

  function HeaderLines(appName: string): seq<string> {
    KeyLines(VersionFields()) + [""] + TableLines("[application]", ApplicationFields(appName)) + [""]
  }

  function TriggerFields(f: FunctionSpec): seq<Field> {
    [Field("route", Quote(f.route)), Field("component", Quote(f.name))]
  }

  function TriggerLines(f: FunctionSpec): seq<string> {
    TableLines("[[trigger.http]]", TriggerFields(f)) + [""]
  }

  function ComponentHeader(name: string): string {
    "[component." + name + "]"
  }

  function BuildHeader(name: string): string {
    "[component." + name + ".build]"
  }

  /** The keys of a component: where its build leaves the wasm, and one more. */
  function SourceFields(language: string, workdir: string): seq<Field> {
    if language == "go" then
      [Field("source", Quote(workdir + "/main.wasm")), Field("allowed_outbound_hosts", "[]")]
    else if language == "rust" then
      [Field("source", Quote(workdir + "/target/wasm32-wasip2/release/scaffold.wasm")), Field("allowed_outbound_hosts", "[]")]
    else
      [Field("source", Quote(workdir + "/dist/scaffold.wasm")), Field("exclude_files", "[\"**/node_modules\"]")]
  }

  /** The keys of its build: the command, where to run it, and what to watch. */
  function BuildFields(language: string, workdir: string): seq<Field> {
    if language == "go" then
      [Field("command", "\"go tool componentize-go build\""), Field("workdir", Quote(workdir)),
       Field("watch", "[\"**/*.go\", \"go.mod\"]")]
    else if language == "rust" then
      [Field("command", "\"cargo build --target wasm32-wasip2 --release\""), Field("workdir", Quote(workdir)),
       Field("watch", "[\"src/**/*.rs\", \"Cargo.toml\"]")]
    else
      [Field("command", "[\"npm install\", \"npm run build\"]"), Field("workdir", Quote(workdir)),
       Field("watch", if language == "ts" then "[\"src/**/*.ts\", \"package.json\"]" else "[\"src/**/*.js\", \"package.json\"]")]
  }

  predicate KnownLanguage(language: string) {
    language in ["go", "js", "ts", "rust"]
  }

  function ComponentLines(language: string, name: string): seq<string> {
    if KnownLanguage(language) then
      TableLines(ComponentHeader(name), SourceFields(language, "functions/" + name))
      + TableLines(BuildHeader(name), BuildFields(language, "functions/" + name)) + [""]
    else [ComponentHeader(name), "# unknown language " + Quote(language), ""]
  }

  function ComponentOf(language: string): FunctionSpec -> seq<string> {
    (f: FunctionSpec) => ComponentLines(language, f.name)
  }

  /** One block a function, in order. */
  function Blocks(block: FunctionSpec -> seq<string>, fs: seq<FunctionSpec>): seq<string> {
    if fs == [] then [] else Blocks(block, fs[..|fs| - 1]) + block(fs[|fs| - 1])
  }

  /** The lines of the manifest of a set of functions. */
  ghost function TextLines(language: string, appName: string, fs: seq<FunctionSpec>): seq<string>
    requires UniquelyNamed(fs)
  {
    HeaderLines(appName) + Blocks(TriggerLines, ByName(fs)) + Blocks(ComponentOf(language), ByName(fs))
  }

  ghost function Text(language: string, appName: string, fs: seq<FunctionSpec>): string
    requires UniquelyNamed(fs)
  {
    Unlines(TextLines(language, appName, fs))
  }

  /** One of the two loops that write a block a function. */
  method AppendBlocks(start: string, block: FunctionSpec -> seq<string>, fs: seq<FunctionSpec>) returns (b: string)
    ensures b == start + Unlines(Blocks(block, fs))
  {
    b := start;
    for i := 0 to |fs|
      invariant b == start + Unlines(Blocks(block, fs[..i]))
    {
      assert fs[..i + 1][..i] == fs[..i];
      UnlinesConcat(Blocks(block, fs[..i]), block(fs[i]));
      Associate(start, Unlines(Blocks(block, fs[..i])), Unlines(block(fs[i])));
      b := b + Unlines(block(fs[i]));
    }
    assert fs[..|fs|] == fs;
  }

  method SynthesizeSpinToml(language: string, appName: string, functions: seq<FunctionSpec>) returns (r: Result<string, string>)
    requires UniquelyNamed(functions)
    ensures r.Err? <==> functions == []
    ensures r.Ok? ==> r.value == Text(language, appName, functions)
  {
    if functions == [] { return Err("no functions"); }
    var fs := SortByName(functions);
    var b := AppendBlocks(Unlines(HeaderLines(appName)), TriggerLines, fs);
    b := AppendBlocks(b, ComponentOf(language), fs);
    UnlinesConcat(HeaderLines(appName), Blocks(TriggerLines, fs));
    UnlinesConcat(HeaderLines(appName) + Blocks(TriggerLines, fs), Blocks(ComponentOf(language), fs));
    return Ok(b);
  }

  /** The manifest depends on the set of functions, not on the order they are listed in. */
  lemma TextIgnoresOrder(language: string, appName: string, fs: seq<FunctionSpec>, gs: seq<FunctionSpec>)
    requires UniquelyNamed(fs) && UniquelyNamed(gs) && forall f :: f in fs <==> f in gs
    ensures Text(language, appName, fs) == Text(language, appName, gs)
  {
    ByNameIgnoresOrder(fs, gs);
  }
}
