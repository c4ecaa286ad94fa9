/**
  Reading a manifest back, as Spin does when it publishes the application: the triggers and components of the
  text that `synthesizeSpinToml` returns, and what dispatch makes of them.
*/
module ManifestRead {
  import opened Wrappers
  import opened Strings
  import opened Toml
  import opened Routes
  import opened Loader
  import opened Manifest
  import ImageRef

  datatype Component = Component(id: string, source: string, workdir: string)

  datatype SpinManifest = SpinManifest(name: string, triggers: seq<HttpTrigger>, components: seq<Component>)

  // ---------- the reader ----------

  function StringAt(m: Fields, key: string): Option<string> {
    if key in m then ReadString(m[key]) else None
  }

  function ReadTrigger(e: Entry): Option<HttpTrigger> {
    var route, component := StringAt(e.fields, "route"), StringAt(e.fields, "component");
    if e.header != "[[trigger.http]]" || route.None? || component.None? then None
    else Some(HttpTrigger(route.value, component.value))
  }

  function ReadTriggers(es: seq<Entry>): Option<seq<HttpTrigger>> {
    if es == [] then Some([])
    else
      var n := |es| - 1;
      var before, t := ReadTriggers(es[..n]), ReadTrigger(es[n]);
      if before.None? || t.None? then None else Some(before.value + [t.value])
  }

  /** The id in the header of a component; the tables below a component have one more '.' in theirs. */
  function ComponentId(header: string): Option<string> {
    if |header| > 12 && HasPrefix(header, "[component.") && HasSuffix(header, "]") && '.' !in header[11..|header| - 1]
    then Some(header[11..|header| - 1]) else None
  }

  function ReadComponent(tables: map<string, Fields>, id: string): Option<Component> {
    var main, build := "[component." + id + "]", "[component." + id + ".build]";
    if main !in tables || build !in tables then None
    else
      var source, workdir := StringAt(tables[main], "source"), StringAt(tables[build], "workdir");
      if source.None? || workdir.None? then None else Some(Component(id, source.value, workdir.value))
  }

  function ReadComponents(tables: map<string, Fields>, headers: seq<string>): Option<seq<Component>> {
    if headers == [] then Some([])
    else
      var n := |headers| - 1;
      var before, id := ReadComponents(tables, headers[..n]), ComponentId(headers[n]);
      if before.None? then None
      else if id.None? then before
      else
        var c := ReadComponent(tables, id.value);
        if c.None? then None else Some(before.value + [c.value])
  }

  function ReadDocument(d: Document): Option<SpinManifest> {
    if "" !in d.tables || "spin_manifest_version" !in d.tables[""] || d.tables[""]["spin_manifest_version"] != "2"
       || "[application]" !in d.tables
    then None
    else
      var name := StringAt(d.tables["[application]"], "name");
      var ts, cs := ReadTriggers(d.entries), ReadComponents(d.tables, d.headers);
      if name.None? || ts.None? || cs.None? then None else Some(SpinManifest(name.value, ts.value, cs.value))
  }

  function ReadManifest(text: string): Option<SpinManifest> {
    var d := Parse(text);
    if d.None? then None else ReadDocument(d.value)
  }

  // ---------- what is fed to it ----------

  predicate DnsNames(fs: seq<FunctionSpec>) {
    forall i :: 0 <= i < |fs| ==> ImageRef.Dns1123(fs[i].name)
  }

  lemma {:induction false} PutAllOthers(m: Fields, fs: seq<Field>, key: string)
    requires forall i :: 0 <= i < |fs| ==> fs[i].key != key
    ensures key in PutAll(m, fs) <==> key in m
    ensures key in m ==> PutAll(m, fs)[key] == m[key]
    decreases |fs|
  {
    if fs != [] {
      assert forall i :: 0 <= i < |fs[1..]| ==> fs[1..][i] == fs[i + 1];
      PutAllOthers(m[fs[0].key := fs[0].value], fs[1..], key);
    }
  }

  /** A key that was written holds what was written. */
  lemma {:induction false} PutAllAt(m: Fields, fs: seq<Field>, i: nat)
    requires i < |fs| && DistinctKeys(fs)
    ensures fs[i].key in PutAll(m, fs) && PutAll(m, fs)[fs[i].key] == fs[i].value
    decreases |fs|
  {
    assert forall j :: 0 <= j < |fs[1..]| ==> fs[1..][j] == fs[j + 1];
    if i == 0 {
      PutAllOthers(m[fs[0].key := fs[0].value], fs[1..], fs[0].key);
    } else {
      PutAllAt(m[fs[0].key := fs[0].value], fs[1..], i - 1);
    }
  }

  function Table(fs: seq<Field>): Fields {
    PutAll(map[], fs)
  }

  predicate GoodFields(fs: seq<Field>) {
    BareKeys(fs) && DistinctKeys(fs)
  }

  lemma FeedThenBlank(d: Document, ls: seq<string>)
    requires FeedAll(d, ls).Some?
    ensures FeedAll(d, ls + [""]) == FeedAll(d, ls)
  {
    FeedConcat(d, ls, [""]);
    FeedBlank(FeedAll(d, ls).value);
  }

  // ---------- the head ----------

  /** Keys above the first table, and the first table. */
  function Head(header: string, top: seq<Field>, fs: seq<Field>): Document {
    Document(map["" := Table(top)][header := Table(fs)], [header], [], header)
  }

  lemma FeedHead(header: string, top: seq<Field>, fs: seq<Field>)
    requires GoodFields(top) && GoodFields(fs) && header != "" && IsHeader(header) && !HasPrefix(header, "[[")
    ensures FeedAll(EMPTY, KeyLines(top) + [""] + TableLines(header, fs) + [""]) == Some(Head(header, top, fs))
  {
    FeedTableFields(EMPTY, top);
    var d := EMPTY.(tables := EMPTY.tables["" := Table(top)]);
    assert d.tables == map["" := Table(top)];
    FeedThenBlank(EMPTY, KeyLines(top));
    FeedConcat(EMPTY, KeyLines(top) + [""], TableLines(header, fs));
    FeedTable(d, header, fs);
    assert d.headers + [header] == [header];
    FeedThenBlank(EMPTY, KeyLines(top) + [""] + TableLines(header, fs));
  }

  // ---------- triggers ----------

  function EntriesOf(header: string, fields: FunctionSpec -> seq<Field>, fs: seq<FunctionSpec>): seq<Entry> {
    seq(|fs|, i requires 0 <= i < |fs| => Entry(header, Table(fields(fs[i]))))
  }

  lemma {:induction false} FeedEntries(d: Document, header: string, block: FunctionSpec -> seq<string>,
                                       fields: FunctionSpec -> seq<Field>, fs: seq<FunctionSpec>)
    requires IsEntryHeader(header)
    requires forall f :: block(f) == TableLines(header, fields(f)) + [""]
    requires forall f :: GoodFields(fields(f))
    ensures FeedAll(d, Blocks(block, fs)) ==
      Some(d.(entries := d.entries + EntriesOf(header, fields, fs), at := if fs == [] then d.at else header))
  {
    if fs == [] {
      assert d.entries + [] == d.entries;
    } else {
      var n := |fs| - 1;
      var before := Blocks(block, fs[..n]);
      FeedEntries(d, header, block, fields, fs[..n]);
      var e := FeedAll(d, before).value;
      FeedConcat(d, before, block(fs[n]));
      FeedEntry(e, header, fields(fs[n]));
      FeedThenBlank(e, TableLines(header, fields(fs[n])));
      var last := Entry(header, Table(fields(fs[n])));
      assert EntriesOf(header, fields, fs) == EntriesOf(header, fields, fs[..n]) + [last];
      Associate(d.entries, EntriesOf(header, fields, fs[..n]), [last]);
    }
  }

  // ---------- components ----------

  /** The two tables of a component: how they are headed and what they hold. */
  datatype Layout = Layout(main: string -> string, build: string -> string,
                           source: string -> seq<Field>, steps: string -> seq<Field>)

  predicate TableHeader(header: string) {
    header != "" && IsHeader(header) && !HasPrefix(header, "[[")
  }

  ghost predicate Apart(l: Layout, n: string, m: string) {
    l.main(n) != l.build(m) && (n != m ==> l.main(n) != l.main(m) && l.build(n) != l.build(m))
  }

  /** No two of the tables have the same header. */
  ghost predicate SoundLayout(l: Layout) {
    && (forall n :: ImageRef.Dns1123(n) ==> TableHeader(l.main(n)) && GoodFields(l.source(n)))
    && (forall n :: ImageRef.Dns1123(n) ==> TableHeader(l.build(n)) && GoodFields(l.steps(n)))
    && (forall n, m :: ImageRef.Dns1123(n) && ImageRef.Dns1123(m) ==> Apart(l, n, m))
  }

  /** None of these tables is there. */
  ghost predicate Unlaid(l: Layout, tables: map<string, Fields>) {
    forall n :: ImageRef.Dns1123(n) ==> l.main(n) !in tables && l.build(n) !in tables
  }

  function AfterComponent(d: Document, l: Layout, name: string): Document {
    d.(tables := d.tables[l.main(name) := Table(l.source(name))][l.build(name) := Table(l.steps(name))],
       headers := d.headers + [l.main(name), l.build(name)], at := l.build(name))
  }

  function AfterComponents(d: Document, l: Layout, fs: seq<FunctionSpec>): Document {
    if fs == [] then d else AfterComponent(AfterComponents(d, l, fs[..|fs| - 1]), l, fs[|fs| - 1].name)
  }

  lemma FeedComponent(d: Document, l: Layout, name: string)
    requires SoundLayout(l) && ImageRef.Dns1123(name) && l.main(name) !in d.tables && l.build(name) !in d.tables
    ensures FeedAll(d, TableLines(l.main(name), l.source(name)) + TableLines(l.build(name), l.steps(name)) + [""]) ==
      Some(AfterComponent(d, l, name))
  {
    var a, b := TableLines(l.main(name), l.source(name)), TableLines(l.build(name), l.steps(name));
    FeedTable(d, l.main(name), l.source(name));
    FeedConcat(d, a, b);
    var e := FeedAll(d, a).value;
    FeedTable(e, l.build(name), l.steps(name));
    assert Apart(l, name, name);
    assert d.headers + [l.main(name)] + [l.build(name)] == d.headers + [l.main(name), l.build(name)];
    FeedThenBlank(d, a + b);
  }

  /** Which tables are there after some components: those from before, and two for each. */
  lemma {:induction false} TablesAfter(d: Document, l: Layout, fs: seq<FunctionSpec>, h: string)
    requires h in AfterComponents(d, l, fs).tables
    ensures h in d.tables || exists i :: 0 <= i < |fs| && (h == l.main(fs[i].name) || h == l.build(fs[i].name))
  {
    if fs != [] {
      var n := |fs| - 1;
      if h in AfterComponents(d, l, fs[..n]).tables {
        TablesAfter(d, l, fs[..n], h);
        if h !in d.tables {
          var i :| 0 <= i < n && (h == l.main(fs[..n][i].name) || h == l.build(fs[..n][i].name));
          assert fs[i] == fs[..n][i];
        }
      } else {
        assert h == l.main(fs[n].name) || h == l.build(fs[n].name);
      }
    }
  }

  lemma StillUnlaid(d: Document, l: Layout, fs: seq<FunctionSpec>, name: string)
    requires SoundLayout(l) && Unlaid(l, d.tables) && DnsNames(fs) && ImageRef.Dns1123(name)
    requires forall i :: 0 <= i < |fs| ==> fs[i].name != name
    ensures l.main(name) !in AfterComponents(d, l, fs).tables && l.build(name) !in AfterComponents(d, l, fs).tables
  {
    assert forall i :: 0 <= i < |fs| ==> Apart(l, name, fs[i].name) && Apart(l, fs[i].name, name);
    if l.main(name) in AfterComponents(d, l, fs).tables { TablesAfter(d, l, fs, l.main(name)); }
    if l.build(name) in AfterComponents(d, l, fs).tables { TablesAfter(d, l, fs, l.build(name)); }
  }

  lemma {:induction false} FeedComponents(d: Document, l: Layout, block: FunctionSpec -> seq<string>, fs: seq<FunctionSpec>)
    requires SoundLayout(l) && Unlaid(l, d.tables) && DnsNames(fs) && UniquelyNamed(fs)
    requires forall f :: block(f) == TableLines(l.main(f.name), l.source(f.name)) + TableLines(l.build(f.name), l.steps(f.name)) + [""]
    ensures FeedAll(d, Blocks(block, fs)) == Some(AfterComponents(d, l, fs))
  {
    if fs != [] {
      var n := |fs| - 1;
      FeedComponents(d, l, block, fs[..n]);
      FeedConcat(d, Blocks(block, fs[..n]), block(fs[n]));
      StillUnlaid(d, l, fs[..n], fs[n].name);
      FeedComponent(AfterComponents(d, l, fs[..n]), l, fs[n].name);
    }
  }

  ghost predicate Laid(tables: map<string, Fields>, l: Layout, name: string) {
    && l.main(name) in tables && tables[l.main(name)] == Table(l.source(name))
    && l.build(name) in tables && tables[l.build(name)] == Table(l.steps(name))
  }

  lemma OthersStayLaid(d: Document, l: Layout, name: string, last: string)
    requires Apart(l, name, last) && Apart(l, last, name) && Apart(l, last, last)
    requires name == last || Laid(d.tables, l, name)
    ensures Laid(AfterComponent(d, l, last).tables, l, name)
  {
  }

  /** The headers of these components are all different. */
  ghost predicate AllApart(l: Layout, fs: seq<FunctionSpec>) {
    forall i, j :: 0 <= i < |fs| && 0 <= j < |fs| ==> Apart(l, fs[i].name, fs[j].name)
  }

  /** Later components leave the tables of earlier ones alone. */
  lemma {:induction false} LaidAt(d: Document, l: Layout, fs: seq<FunctionSpec>, i: nat)
    requires AllApart(l, fs) && i < |fs|
    ensures Laid(AfterComponents(d, l, fs).tables, l, fs[i].name)
  {
    var n := |fs| - 1;
    if i < n {
      assert fs[..n][i] == fs[i];
      assert AllApart(l, fs[..n]);
      LaidAt(d, l, fs[..n], i);
    }
    assert Apart(l, fs[i].name, fs[n].name) && Apart(l, fs[n].name, fs[i].name) && Apart(l, fs[n].name, fs[n].name);
    OthersStayLaid(AfterComponents(d, l, fs[..n]), l, fs[i].name, fs[n].name);
  }

  /** What was there before stays. */
  lemma {:induction false} HeadStays(d: Document, l: Layout, fs: seq<FunctionSpec>, h: string)
    requires Unlaid(l, d.tables) && DnsNames(fs) && h in d.tables
    ensures h in AfterComponents(d, l, fs).tables && AfterComponents(d, l, fs).tables[h] == d.tables[h]
    ensures AfterComponents(d, l, fs).entries == d.entries
  {
    if fs != [] { HeadStays(d, l, fs[..|fs| - 1], h); }
  }

  /** The headers are those of components in turn, and of tables below them. */
  ghost predicate Identifies(l: Layout) {
    forall n :: ImageRef.Dns1123(n) ==> ComponentId(l.main(n)) == Some(n) && ComponentId(l.build(n)) == None
  }

  lemma ReadHeaders(tables: map<string, Fields>, headers: seq<string>, main: string, build: string, id: string)
    requires ReadComponents(tables, headers).Some? && ComponentId(main) == Some(id) && ComponentId(build) == None
    requires ReadComponent(tables, id).Some?
    ensures ReadComponents(tables, headers + [main, build]) ==
      Some(ReadComponents(tables, headers).value + [ReadComponent(tables, id).value])
  {
    var all := headers + [main, build];
    assert all[..|all| - 1] == headers + [main];
    assert (headers + [main])[..|headers|] == headers;
  }

  lemma HeadersAfter(d: Document, l: Layout, fs: seq<FunctionSpec>)
    requires fs != []
    ensures var n := |fs| - 1;
      AfterComponents(d, l, fs).headers == AfterComponents(d, l, fs[..n]).headers + [l.main(fs[n].name), l.build(fs[n].name)]
  {
  }

  /** Each component is read in order, if each can be read. */
  /** These are what is read for the components of these names. */
  ghost predicate AreRead(tables: map<string, Fields>, fs: seq<FunctionSpec>, cs: seq<Component>) {
    |cs| == |fs| && forall i :: 0 <= i < |fs| ==> ReadComponent(tables, fs[i].name) == Some(cs[i])
  }

  lemma FirstAreRead(tables: map<string, Fields>, fs: seq<FunctionSpec>, cs: seq<Component>)
    requires AreRead(tables, fs, cs) && fs != []
    ensures var n := |fs| - 1; AreRead(tables, fs[..n], cs[..n]) && ReadComponent(tables, fs[n].name) == Some(cs[n])
  {
  }

  lemma OneMoreRead(tables: map<string, Fields>, d: Document, l: Layout, fs: seq<FunctionSpec>, cs: seq<Component>)
    requires Identifies(l) && fs != [] && |cs| == |fs| && ImageRef.Dns1123(fs[|fs| - 1].name)
    requires ReadComponents(tables, AfterComponents(d, l, fs[..|fs| - 1]).headers) == Some(cs[..|fs| - 1])
    requires ReadComponent(tables, fs[|fs| - 1].name) == Some(cs[|fs| - 1])
    ensures ReadComponents(tables, AfterComponents(d, l, fs).headers) == Some(cs)
  {
    var n := |fs| - 1;
    var name := fs[n].name;
    assert ComponentId(l.main(name)) == Some(name) && ComponentId(l.build(name)) == None;
    HeadersAfter(d, l, fs);
    ReadHeaders(tables, AfterComponents(d, l, fs[..n]).headers, l.main(name), l.build(name), name);
    assert cs == cs[..n] + [cs[n]];
  }

  lemma {:induction false} ComponentsRead(tables: map<string, Fields>, d: Document, l: Layout, fs: seq<FunctionSpec>, cs: seq<Component>)
    requires Identifies(l) && DnsNames(fs) && AreRead(tables, fs, cs) && ReadComponents(tables, d.headers) == Some([])
    ensures ReadComponents(tables, AfterComponents(d, l, fs).headers) == Some(cs)
  {
    if fs == [] {
      assert cs == [];
    } else {
      FirstAreRead(tables, fs, cs);
      ComponentsRead(tables, d, l, fs[..|fs| - 1], cs[..|fs| - 1]);
      OneMoreRead(tables, d, l, fs, cs);
    }
  }

  // ---------- the tables of a synthesized manifest ----------

  function LayoutOf(language: string): Layout {
    Layout(ComponentHeader, BuildHeader, (n: string) => SourceFields(language, "functions/" + n),
           (n: string) => BuildFields(language, "functions/" + n))
  }

  lemma DnsAgreed(name: string)
    requires ImageRef.Dns1123(name)
    ensures AllAgreed(name) && OneLine(name) && '.' !in name && name != ""
  {
  }

  lemma MainHeaderShape(n: string)
    requires ImageRef.Dns1123(n)
    ensures TableHeader(ComponentHeader(n)) && ComponentId(ComponentHeader(n)) == Some(n) && OneLine(ComponentHeader(n))
  {
    DnsAgreed(n);
    var h := ComponentHeader(n);
    assert h[0] == '[' && h[1] == 'c' && h[|h| - 1] == ']' && h[11..|h| - 1] == n;
    assert h[..11] == "[component.";
  }

  lemma BuildHeaderShape(n: string)
    requires ImageRef.Dns1123(n)
    ensures TableHeader(BuildHeader(n)) && ComponentId(BuildHeader(n)) == None && OneLine(BuildHeader(n))
  {
    DnsAgreed(n);
    var h := BuildHeader(n);
    assert h[0] == '[' && h[1] == 'c' && h[|h| - 1] == ']';
    assert h[11 + |n|] == '.' && h[11..|h| - 1][|n|] == '.';
  }

  lemma HeadersDiffer(n: string, m: string)
    requires ImageRef.Dns1123(n) && ImageRef.Dns1123(m)
    ensures ComponentHeader(n) != BuildHeader(m)
    ensures n != m ==> ComponentHeader(n) != ComponentHeader(m) && BuildHeader(n) != BuildHeader(m)
  {
    MainHeaderShape(n);
    MainHeaderShape(m);
    BuildHeaderShape(m);
    if BuildHeader(n) == BuildHeader(m) {
      assert n == BuildHeader(n)[11..|BuildHeader(n)| - 7] == m;
    }
  }

  lemma TwoGood(f: Field, g: Field)
    requires BareKey(f.key) && BareKey(g.key) && f.key != g.key
    ensures GoodFields([f, g])
  {
  }

  lemma ThreeGood(f: Field, g: Field, h: Field)
    requires BareKey(f.key) && BareKey(g.key) && BareKey(h.key) && f.key != g.key && f.key != h.key && g.key != h.key
    ensures GoodFields([f, g, h])
  {
  }

  lemma SourceKeys()
    ensures BareKey("source") && BareKey("allowed_outbound_hosts") && BareKey("exclude_files")
    ensures "source" != "allowed_outbound_hosts" && "source" != "exclude_files"
  {
    assert |"source"| == 6 && |"allowed_outbound_hosts"| == 22 && |"exclude_files"| == 13;
  }

  lemma BuildKeys()
    ensures BareKey("command") && BareKey("workdir") && BareKey("watch")
    ensures "command" != "workdir" && "command" != "watch" && "workdir" != "watch"
  {
    assert "command"[0] == 'c' && "workdir"[0] == 'w' && "watch"[1] == 'a' && "workdir"[1] == 'o';
  }

  lemma SourceFieldsGood(language: string, workdir: string)
    ensures GoodFields(SourceFields(language, workdir)) && SourceFields(language, workdir)[0].key == "source"
  {
    SourceKeys();
    var fs := SourceFields(language, workdir);
    assert fs == [fs[0], fs[1]];
    TwoGood(fs[0], fs[1]);
  }

  lemma BuildFieldsGood(language: string, workdir: string)
    ensures GoodFields(BuildFields(language, workdir)) && BuildFields(language, workdir)[1] == Field("workdir", Quote(workdir))
  {
    BuildKeys();
    var fs := BuildFields(language, workdir);
    assert fs == [fs[0], fs[1], fs[2]];
    ThreeGood(fs[0], fs[1], fs[2]);
  }

  lemma LayoutIsSound(language: string)
    ensures SoundLayout(LayoutOf(language)) && Identifies(LayoutOf(language))
  {
    var l := LayoutOf(language);
    forall n | ImageRef.Dns1123(n)
      ensures TableHeader(l.main(n)) && GoodFields(l.source(n)) && TableHeader(l.build(n)) && GoodFields(l.steps(n))
      ensures ComponentId(l.main(n)) == Some(n) && ComponentId(l.build(n)) == None
    {
      MainHeaderShape(n);
      BuildHeaderShape(n);
      SourceFieldsGood(language, "functions/" + n);
      BuildFieldsGood(language, "functions/" + n);
    }
    forall n, m | ImageRef.Dns1123(n) && ImageRef.Dns1123(m)
      ensures Apart(l, n, m)
    {
      HeadersDiffer(n, m);
    }
  }

  /** Where a build of this language leaves the wasm, below the working directory of the component. */
  function ArtifactOf(language: string): string {
    if language == "go" then "/main.wasm"
    else if language == "rust" then "/target/wasm32-wasip2/release/scaffold.wasm"
    else "/dist/scaffold.wasm"
  }

  /** What is to be read for a function. */
  function ComponentFor(language: string, name: string): Component {
    Component(name, "functions/" + name + ArtifactOf(language), "functions/" + name)
  }

  lemma AgreedConcat(a: string, b: string)
    requires AllAgreed(a) && AllAgreed(b)
    ensures AllAgreed(a + b)
  {
  }

  lemma ArtifactAgreed(language: string)
    ensures AllAgreed(ArtifactOf(language))
  {
  }

  lemma PathsAgreed(language: string, name: string)
    requires ImageRef.Dns1123(name)
    ensures AllAgreed("functions/" + name) && AllAgreed("functions/" + name + ArtifactOf(language))
  {
    DnsAgreed(name);
    assert AllAgreed("functions/");
    AgreedConcat("functions/", name);
    ArtifactAgreed(language);
    AgreedConcat("functions/" + name, ArtifactOf(language));
  }

  lemma SourceFieldIs(language: string, workdir: string)
    requires KnownLanguage(language)
    ensures SourceFields(language, workdir)[0].value == Quote(workdir + ArtifactOf(language))
  {
  }

  lemma SourceReads(language: string, name: string)
    requires KnownLanguage(language) && ImageRef.Dns1123(name)
    ensures StringAt(Table(SourceFields(language, "functions/" + name)), "source") == Some("functions/" + name + ArtifactOf(language))
  {
    var workdir := "functions/" + name;
    SourceFieldsGood(language, workdir);
    SourceFieldIs(language, workdir);
    PutAllAt(map[], SourceFields(language, workdir), 0);
    PathsAgreed(language, name);
    ReadsBackIff(workdir + ArtifactOf(language));
  }

  lemma WorkdirReads(language: string, name: string)
    requires ImageRef.Dns1123(name)
    ensures StringAt(Table(BuildFields(language, "functions/" + name)), "workdir") == Some("functions/" + name)
  {
    var workdir := "functions/" + name;
    BuildFieldsGood(language, workdir);
    PutAllAt(map[], BuildFields(language, workdir), 1);
    PathsAgreed(language, name);
    ReadsBackIff(workdir);
  }

  lemma ComponentReads(tables: map<string, Fields>, language: string, name: string)
    requires KnownLanguage(language) && ImageRef.Dns1123(name) && Laid(tables, LayoutOf(language), name)
    ensures ReadComponent(tables, name) == Some(ComponentFor(language, name))
  {
    SourceReads(language, name);
    WorkdirReads(language, name);
    assert ComponentHeader(name) in tables && BuildHeader(name) in tables;
    assert tables[ComponentHeader(name)] == Table(SourceFields(language, "functions/" + name));
    assert tables[BuildHeader(name)] == Table(BuildFields(language, "functions/" + name));
  }

  // ---------- every block is made of lines ----------

  predicate OneLineFields(fs: seq<Field>) {
    forall i :: 0 <= i < |fs| ==> OneLine(fs[i].key) && OneLine(fs[i].value)
  }

  lemma KeyLinesAreLines(fs: seq<Field>)
    requires OneLineFields(fs)
    ensures AllLines(KeyLines(fs))
  {
    assert OneLine(" = ");
  }

  lemma LinesConcat(a: seq<string>, b: seq<string>)
    requires AllLines(a) && AllLines(b)
    ensures AllLines(a + b)
  {
  }

  lemma TableIsLines(header: string, fs: seq<Field>)
    requires OneLine(header) && OneLineFields(fs)
    ensures AllLines(TableLines(header, fs)) && AllLines(TableLines(header, fs) + [""])
  {
    KeyLinesAreLines(fs);
    LinesConcat([header], KeyLines(fs));
    LinesConcat(TableLines(header, fs), [""]);
  }

  lemma {:induction false} BlocksAreLines(block: FunctionSpec -> seq<string>, fs: seq<FunctionSpec>)
    requires forall i :: 0 <= i < |fs| ==> AllLines(block(fs[i]))
    ensures AllLines(Blocks(block, fs))
  {
    if fs != [] {
      var n := |fs| - 1;
      BlocksAreLines(block, fs[..n]);
      LinesConcat(Blocks(block, fs[..n]), block(fs[n]));
    }
  }

  lemma TriggerIsLines(f: FunctionSpec)
    ensures AllLines(TriggerLines(f))
  {
    QuoteIsOneLine(f.route);
    QuoteIsOneLine(f.name);
    TableIsLines("[[trigger.http]]", TriggerFields(f));
  }

  predicate OneLineField(f: Field) {
    OneLine(f.key) && OneLine(f.value)
  }

  lemma SourceKeysAreOneLine()
    ensures OneLine("source") && OneLine("allowed_outbound_hosts") && OneLine("exclude_files")
  {
  }

  lemma SourceIsOneLine(language: string, workdir: string)
    ensures OneLineFields(SourceFields(language, workdir))
  {
    SourceKeysAreOneLine();
    assert OneLine("[]") && OneLine("[\"**/node_modules\"]");
    QuoteIsOneLine(workdir + "/main.wasm");
    QuoteIsOneLine(workdir + "/target/wasm32-wasip2/release/scaffold.wasm");
    QuoteIsOneLine(workdir + "/dist/scaffold.wasm");
    var fs := SourceFields(language, workdir);
    assert OneLineField(fs[0]) && OneLineField(fs[1]);
  }

  lemma GoCommandIsOneLine()
    ensures OneLine("\"go tool componentize-go build\"")
  {
  }

  lemma RustCommandParts()
    ensures OneLine("\"cargo build --target") && OneLine(" wasm32-wasip2 --release\"")
  {
  }

  lemma RustCommandIsOneLine()
    ensures OneLine("\"cargo build --target wasm32-wasip2 --release\"")
  {
    RustCommandParts();
    var a, b := "\"cargo build --target", " wasm32-wasip2 --release\"";
    assert "\"cargo build --target wasm32-wasip2 --release\"" == a + b;
  }

  lemma CommandsAreOneLine()
    ensures OneLine("\"go tool componentize-go build\"") && OneLine("\"cargo build --target wasm32-wasip2 --release\"")
    ensures OneLine("[\"npm install\", \"npm run build\"]")
  {
    GoCommandIsOneLine();
    RustCommandIsOneLine();
  }

  lemma WatchesAreOneLine()
    ensures OneLine("[\"**/*.go\", \"go.mod\"]") && OneLine("[\"src/**/*.rs\", \"Cargo.toml\"]")
    ensures OneLine("[\"src/**/*.ts\", \"package.json\"]") && OneLine("[\"src/**/*.js\", \"package.json\"]")
  {
  }

  lemma BuildIsOneLine(language: string, workdir: string)
    ensures OneLineFields(BuildFields(language, workdir))
  {
    QuoteIsOneLine(workdir);
    CommandsAreOneLine();
    WatchesAreOneLine();
    assert OneLine("command") && OneLine("workdir") && OneLine("watch");
    var fs := BuildFields(language, workdir);
    assert OneLineField(fs[0]) && OneLineField(fs[1]) && OneLineField(fs[2]);
  }

  lemma ComponentIsLines(language: string, name: string)
    requires KnownLanguage(language) && ImageRef.Dns1123(name)
    ensures AllLines(ComponentLines(language, name))
  {
    MainHeaderShape(name);
    BuildHeaderShape(name);
    SourceIsOneLine(language, "functions/" + name);
    BuildIsOneLine(language, "functions/" + name);
    TableIsLines(ComponentHeader(name), SourceFields(language, "functions/" + name));
    TableIsLines(BuildHeader(name), BuildFields(language, "functions/" + name));
    LinesConcat(TableLines(ComponentHeader(name), SourceFields(language, "functions/" + name)),
                TableLines(BuildHeader(name), BuildFields(language, "functions/" + name)));
  }

  lemma HeaderIsLines(appName: string)
    ensures AllLines(HeaderLines(appName))
  {
    QuoteIsOneLine(appName);
    KeyLinesAreLines(VersionFields());
    TableIsLines("[application]", ApplicationFields(appName));
    LinesConcat(KeyLines(VersionFields()), [""]);
    LinesConcat(KeyLines(VersionFields()) + [""], TableLines("[application]", ApplicationFields(appName)));
  }

  lemma TextIsLines(language: string, appName: string, s: seq<FunctionSpec>)
    requires KnownLanguage(language) && DnsNames(s)
    ensures AllLines(HeaderLines(appName) + Blocks(TriggerLines, s) + Blocks(ComponentOf(language), s))
  {
    HeaderIsLines(appName);
    forall i | 0 <= i < |s|
      ensures AllLines(TriggerLines(s[i])) && AllLines(ComponentOf(language)(s[i]))
    {
      TriggerIsLines(s[i]);
      ComponentIsLines(language, s[i].name);
    }
    BlocksAreLines(TriggerLines, s);
    BlocksAreLines(ComponentOf(language), s);
    LinesConcat(HeaderLines(appName), Blocks(TriggerLines, s));
    LinesConcat(HeaderLines(appName) + Blocks(TriggerLines, s), Blocks(ComponentOf(language), s));
  }

  // ---------- reading the whole text ----------

  lemma VersionIsGood()
    ensures GoodFields(VersionFields())
  {
    assert BareKey("spin_manifest_version");
  }

  lemma ApplicationIsGood(appName: string)
    ensures GoodFields(ApplicationFields(appName))
  {
    assert BareKey("name") && BareKey("version") && |"name"| == 4 && |"version"| == 7;
    TwoGood(ApplicationFields(appName)[0], ApplicationFields(appName)[1]);
  }

  lemma ApplicationHeaderShape()
    ensures TableHeader("[application]") && ComponentId("[application]") == None
  {
    assert "[application]"[1] == 'a' && "[["[1] == '[' && "[component."[1] == 'c' && |"[application]"| == 13;
    assert "[application]"[12] == ']';
  }

  lemma TriggerHeaderShape()
    ensures IsEntryHeader("[[trigger.http]]")
  {
  }

  lemma TriggersAreGood(f: FunctionSpec)
    ensures GoodFields(TriggerFields(f))
  {
    assert BareKey("route") && BareKey("component") && |"route"| == 5 && |"component"| == 9;
    TwoGood(TriggerFields(f)[0], TriggerFields(f)[1]);
  }

  function HeadOf(appName: string): Document {
    Head("[application]", VersionFields(), ApplicationFields(appName))
  }

  /** The document after the triggers. */
  function Triggered(appName: string, s: seq<FunctionSpec>): Document {
    var d := HeadOf(appName);
    d.(entries := d.entries + EntriesOf("[[trigger.http]]", TriggerFields, s), at := if s == [] then d.at else "[[trigger.http]]")
  }

  function DocumentOf(language: string, appName: string, s: seq<FunctionSpec>): Document {
    AfterComponents(Triggered(appName, s), LayoutOf(language), s)
  }

  lemma HeadTables(appName: string, s: seq<FunctionSpec>, h: string)
    ensures h in Triggered(appName, s).tables <==> h == "" || h == "[application]"
  {
  }

  lemma HeadersAreNew(n: string)
    requires ImageRef.Dns1123(n)
    ensures ComponentHeader(n) != "" && ComponentHeader(n) != "[application]" && BuildHeader(n) != "" && BuildHeader(n) != "[application]"
  {
    assert "[application]"[1] == 'a' && ComponentHeader(n)[1] == 'c' && BuildHeader(n)[1] == 'c';
  }

  lemma HeadIsUnlaid(language: string, appName: string, s: seq<FunctionSpec>)
    ensures Unlaid(LayoutOf(language), Triggered(appName, s).tables)
  {
    forall n | ImageRef.Dns1123(n)
      ensures ComponentHeader(n) !in Triggered(appName, s).tables && BuildHeader(n) !in Triggered(appName, s).tables
    {
      HeadersAreNew(n);
      HeadTables(appName, s, ComponentHeader(n));
      HeadTables(appName, s, BuildHeader(n));
    }
  }

  lemma FeedText(language: string, appName: string, s: seq<FunctionSpec>)
    requires KnownLanguage(language) && DnsNames(s) && UniquelyNamed(s)
    ensures FeedAll(EMPTY, HeaderLines(appName) + Blocks(TriggerLines, s) + Blocks(ComponentOf(language), s))
      == Some(DocumentOf(language, appName, s))
  {
    VersionIsGood();
    ApplicationIsGood(appName);
    ApplicationHeaderShape();
    FeedHead("[application]", VersionFields(), ApplicationFields(appName));
    TriggerHeaderShape();
    forall f: FunctionSpec
      ensures GoodFields(TriggerFields(f))
    {
      TriggersAreGood(f);
    }
    FeedEntries(HeadOf(appName), "[[trigger.http]]", TriggerLines, TriggerFields, s);
    FeedConcat(EMPTY, HeaderLines(appName), Blocks(TriggerLines, s));
    LayoutIsSound(language);
    HeadIsUnlaid(language, appName, s);
    FeedComponents(Triggered(appName, s), LayoutOf(language), ComponentOf(language), s);
    FeedConcat(EMPTY, HeaderLines(appName) + Blocks(TriggerLines, s), Blocks(ComponentOf(language), s));
  }

  lemma TextParses(language: string, appName: string, fs: seq<FunctionSpec>)
    requires KnownLanguage(language) && UniquelyNamed(fs) && DnsNames(ByName(fs)) && UniquelyNamed(ByName(fs))
    ensures Parse(Text(language, appName, fs)) == Some(DocumentOf(language, appName, ByName(fs)))
  {
    TextIsLines(language, appName, ByName(fs));
    LinesOfUnlines(TextLines(language, appName, fs));
    FeedText(language, appName, ByName(fs));
  }

  // ---------- triggers, read ----------

  /** Every route is one that the two formats agree on. */
  predicate RoutesAgreed(fs: seq<FunctionSpec>) {
    forall i :: 0 <= i < |fs| ==> AllAgreed(fs[i].route)
  }

  function TriggersOf(fs: seq<FunctionSpec>): seq<HttpTrigger> {
    seq(|fs|, i requires 0 <= i < |fs| => HttpTrigger(fs[i].route, fs[i].name))
  }

  lemma TriggerReads(f: FunctionSpec)
    requires ImageRef.Dns1123(f.name)
    ensures ReadTrigger(Entry("[[trigger.http]]", Table(TriggerFields(f)))) ==
      if AllAgreed(f.route) then Some(HttpTrigger(f.route, f.name)) else None
  {
    DnsAgreed(f.name);
    ReadsBackIff(f.route);
    ReadsBackIff(f.name);
    TriggersAreGood(f);
    PutAllAt(map[], TriggerFields(f), 0);
    PutAllAt(map[], TriggerFields(f), 1);
  }

  lemma {:induction false} AllRead(es: seq<Entry>, ts: seq<HttpTrigger>)
    requires |ts| == |es| && forall i :: 0 <= i < |es| ==> ReadTrigger(es[i]) == Some(ts[i])
    ensures ReadTriggers(es) == Some(ts)
  {
    if es == [] {
      assert ts == [];
    } else {
      var n := |es| - 1;
      AllRead(es[..n], ts[..n]);
      assert ts == ts[..n] + [ts[n]];
    }
  }

  lemma {:induction false} OneUnread(es: seq<Entry>, i: nat)
    requires i < |es| && ReadTrigger(es[i]) == None
    ensures ReadTriggers(es) == None
  {
    var n := |es| - 1;
    if i < n {
      assert es[..n][i] == es[i];
      OneUnread(es[..n], i);
    }
  }

  lemma TriggersRead(fs: seq<FunctionSpec>)
    requires DnsNames(fs)
    ensures ReadTriggers(EntriesOf("[[trigger.http]]", TriggerFields, fs)) == if RoutesAgreed(fs) then Some(TriggersOf(fs)) else None
  {
    var es := EntriesOf("[[trigger.http]]", TriggerFields, fs);
    forall i | 0 <= i < |fs|
      ensures ReadTrigger(es[i]) == if AllAgreed(fs[i].route) then Some(TriggersOf(fs)[i]) else None
    {
      TriggerReads(fs[i]);
    }
    if RoutesAgreed(fs) {
      AllRead(es, TriggersOf(fs));
    } else {
      var i :| 0 <= i < |fs| && !AllAgreed(fs[i].route);
      OneUnread(es, i);
    }
  }

  // ---------- the document, read ----------

  function ComponentsOf(language: string, fs: seq<FunctionSpec>): seq<Component> {
    seq(|fs|, i requires 0 <= i < |fs| => ComponentFor(language, fs[i].name))
  }

  lemma DocumentComponents(language: string, appName: string, s: seq<FunctionSpec>)
    requires KnownLanguage(language) && DnsNames(s)
    ensures ReadComponents(DocumentOf(language, appName, s).tables, DocumentOf(language, appName, s).headers) == Some(ComponentsOf(language, s))
  {
    var l, d := LayoutOf(language), Triggered(appName, s);
    var tables := DocumentOf(language, appName, s).tables;
    LayoutIsSound(language);
    assert AllApart(l, s);
    forall i | 0 <= i < |s|
      ensures ReadComponent(tables, s[i].name) == Some(ComponentsOf(language, s)[i])
    {
      LaidAt(d, l, s, i);
      ComponentReads(tables, language, s[i].name);
    }
    ApplicationHeaderShape();
    FirstHeader(tables, "[application]");
    ComponentsRead(tables, d, l, s, ComponentsOf(language, s));
  }

  lemma FirstHeader(tables: map<string, Fields>, header: string)
    requires ComponentId(header) == None
    ensures ReadComponents(tables, [header]) == Some([])
  {
    assert [header][..0] == [];
  }

  lemma DocumentHead(language: string, appName: string, s: seq<FunctionSpec>)
    requires KnownLanguage(language) && DnsNames(s) && ImageRef.Dns1123(appName)
    ensures var d := DocumentOf(language, appName, s);
      && "" in d.tables
      && "spin_manifest_version" in d.tables[""] && d.tables[""]["spin_manifest_version"] == "2"
      && "[application]" in d.tables && StringAt(d.tables["[application]"], "name") == Some(appName)
      && d.entries == EntriesOf("[[trigger.http]]", TriggerFields, s)
  {
    var l, d := LayoutOf(language), Triggered(appName, s);
    HeadIsUnlaid(language, appName, s);
    HeadTables(appName, s, "");
    HeadTables(appName, s, "[application]");
    HeadStays(d, l, s, "");
    HeadStays(d, l, s, "[application]");
    VersionIsGood();
    ApplicationIsGood(appName);
    PutAllAt(map[], VersionFields(), 0);
    PutAllAt(map[], ApplicationFields(appName), 0);
    DnsAgreed(appName);
    ReadsBackIff(appName);
    assert [] + EntriesOf("[[trigger.http]]", TriggerFields, s) == EntriesOf("[[trigger.http]]", TriggerFields, s);
  }

  lemma DocumentReads(language: string, appName: string, s: seq<FunctionSpec>)
    requires KnownLanguage(language) && DnsNames(s) && ImageRef.Dns1123(appName)
    ensures ReadDocument(DocumentOf(language, appName, s)) ==
      if RoutesAgreed(s) then Some(SpinManifest(appName, TriggersOf(s), ComponentsOf(language, s))) else None
  {
    DocumentHead(language, appName, s);
    TriggersRead(s);
    DocumentComponents(language, appName, s);
  }

  // ---------- main results ----------

  /** The manifest of these functions: in name order, one trigger and one component a function. */
  ghost predicate Describes(language: string, appName: string, fs: seq<FunctionSpec>, m: SpinManifest) {
    && m.name == appName && |m.triggers| == |fs| && |m.components| == |fs|
    && (forall i, j :: 0 <= i < j < |fs| ==>
         LexLe(m.triggers[i].component, m.triggers[j].component) && m.triggers[i].component != m.triggers[j].component)
    && (forall f :: f in fs ==> HttpTrigger(f.route, f.name) in m.triggers)
    && (forall i :: 0 <= i < |fs| ==> FunctionSpec(m.triggers[i].component, m.triggers[i].route) in fs)
    && (forall i :: 0 <= i < |fs| ==> Builds(language, m.triggers[i].component, m.components[i]))
  }

  /** The component is built in its function's own directory, and its wasm is found below that. */
  ghost predicate Builds(language: string, name: string, c: Component) {
    && c.id == name && c.workdir == "functions/" + name
    && (language == "go" ==> c.source == c.workdir + "/main.wasm")
    && (language == "js" || language == "ts" ==> c.source == c.workdir + "/dist/scaffold.wasm")
    && (language == "rust" ==> c.source == c.workdir + "/target/wasm32-wasip2/release/scaffold.wasm")
  }

  lemma {:induction false} SameLength(fs: seq<FunctionSpec>, gs: seq<FunctionSpec>)
    requires UniquelyNamed(fs) && UniquelyNamed(gs) && forall f :: f in fs <==> f in gs
    ensures |fs| == |gs|
  {
    DistinctSize(fs);
    DistinctSize(gs);
    assert (set f | f in fs) == (set f | f in gs);
  }

  lemma {:induction false} DistinctSize(fs: seq<FunctionSpec>)
    requires UniquelyNamed(fs)
    ensures |set f | f in fs| == |fs|
  {
    if fs == [] {
      assert (set f | f in fs) == {};
    } else {
      var n := |fs| - 1;
      DistinctSize(fs[..n]);
      assert fs == fs[..n] + [fs[n]];
      assert (set f | f in fs) == (set f | f in fs[..n]) + {fs[n]};
    }
  }

  lemma ByNameFits(fs: seq<FunctionSpec>)
    requires UniquelyNamed(fs)
    ensures |ByName(fs)| == |fs| && UniquelyNamed(ByName(fs))
    ensures DnsNames(fs) <==> DnsNames(ByName(fs))
    ensures RoutesAgreed(fs) <==> RoutesAgreed(ByName(fs))
  {
    var s := ByName(fs);
    forall i, j | 0 <= i < j < |s|
      ensures s[i].name != s[j].name
    {
      assert NameOf(s[i]) != NameOf(s[j]);
    }
    SameLength(fs, s);
    forall i | 0 <= i < |fs| ensures fs[i] in s { assert fs[i] in fs; }
    forall i | 0 <= i < |s| ensures s[i] in fs { assert s[i] in s; }
  }

  lemma ComponentForBuilds(language: string, name: string)
    requires KnownLanguage(language)
    ensures Builds(language, name, ComponentFor(language, name))
  {
  }

  lemma SortedTriggers(fs: seq<FunctionSpec>)
    requires UniquelyNamed(fs)
    ensures var ts := TriggersOf(ByName(fs));
      && |ts| == |fs|
      && (forall i, j :: 0 <= i < j < |fs| ==> LexLe(ts[i].component, ts[j].component) && ts[i].component != ts[j].component)
      && (forall f :: f in fs ==> HttpTrigger(f.route, f.name) in ts)
      && (forall i :: 0 <= i < |fs| ==> FunctionSpec(ts[i].component, ts[i].route) in fs)
  {
    ByNameFits(fs);
    var s := ByName(fs);
    var ts := TriggersOf(s);
    forall f | f in fs
      ensures HttpTrigger(f.route, f.name) in ts
    {
      assert f in s;
      var i :| 0 <= i < |s| && s[i] == f;
      assert ts[i] == HttpTrigger(f.route, f.name);
    }
    forall i | 0 <= i < |fs|
      ensures FunctionSpec(ts[i].component, ts[i].route) in fs
    {
      assert s[i] in s;
    }
    forall i, j | 0 <= i < j < |fs|
      ensures LexLe(ts[i].component, ts[j].component) && ts[i].component != ts[j].component
    {
      assert LexLe(NameOf(s[i]), NameOf(s[j])) && NameOf(s[i]) != NameOf(s[j]);
    }
  }

  lemma SortedDescribes(language: string, appName: string, fs: seq<FunctionSpec>)
    requires UniquelyNamed(fs) && KnownLanguage(language)
    ensures Describes(language, appName, fs, SpinManifest(appName, TriggersOf(ByName(fs)), ComponentsOf(language, ByName(fs))))
  {
    SortedTriggers(fs);
    var ts, cs := TriggersOf(ByName(fs)), ComponentsOf(language, ByName(fs));
    forall i | 0 <= i < |fs|
      ensures Builds(language, ts[i].component, cs[i])
    {
      ComponentForBuilds(language, ByName(fs)[i].name);
    }
  }

  /**
    The text of a manifest is read back as what it was made for: the application's name, and for each function, in name
    order, one trigger with its own route and one component with its own directory. It can be read at all exactly
    when no route holds a control character that TOML has no escape for.
  */
  lemma ManifestReadsBackIff(language: string, appName: string, fs: seq<FunctionSpec>)
    requires KnownLanguage(language) && ImageRef.Dns1123(appName) && UniquelyNamed(fs) && DnsNames(fs)
    ensures ReadManifest(Text(language, appName, fs)).Some? <==> RoutesAgreed(fs)
    ensures RoutesAgreed(fs) ==> Describes(language, appName, fs, ReadManifest(Text(language, appName, fs)).value)
  {
    ByNameFits(fs);
    TextParses(language, appName, fs);
    DocumentReads(language, appName, ByName(fs));
    SortedDescribes(language, appName, fs);
  }
}
