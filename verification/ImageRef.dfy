/**
  Image references: one printer (the builder) and two parsers (the worker's `parse_ref`
  and the parameter expansions of the builder image's entrypoint).
*/
module ImageRef {
  import opened Wrappers
  import opened Strings

  datatype Parts = Parts(host: string, path: string, tag: string)

  /** internal/builder/builder.go: fmt.Sprintf("%s/%s:%s", registry, app, buildID). */
  function Print(registry: string, app: string, buildID: string): string {
    registry + "/" + app + ":" + buildID
  }

  predicate HostLike(h: string) {
    '.' in h || ':' in h
  }

  /** parse_ref: split at the last ':', then at the first '/' when what precedes it looks like a host. */
  function ParseRef(ref: string): Result<Parts, string> {
    var k := AfterLast(ref, ':');
    if k == 0 || '/' in ref[k..] then Err("image ref missing tag")
    else Ok(SplitName(ref[..k - 1], ref[k..]))
  }

  function SplitName(name: string, tag: string): Parts {
    var i := FirstIndex(name, '/');
    if i < |name| && HostLike(name[..i]) then Parts(name[..i], name[i + 1..], tag)
    else Parts("docker.io", name, tag)
  }

  /** ${REF%%/*}, ${REF#*/}, and ${…%:*}, ${…##*:} of the latter. */
  function ShellSplit(ref: string): Parts {
    var i := FirstIndex(ref, '/');
    SplitTag(ref[..i], if i < |ref| then ref[i + 1..] else ref)
  }

  function SplitTag(host: string, nameTag: string): Parts {
    var k := AfterLast(nameTag, ':');
    if k == 0 then Parts(host, nameTag, nameTag) else Parts(host, nameTag[..k - 1], nameTag[k..])
  }

  // ---------- names the printer is given ----------

  predicate AlphaNumeric(c: char) {
    'a' <= c <= 'z' || '0' <= c <= '9'
  }

  /** The application name pattern of internal/httpapi/applications.go. */
  predicate Dns1123(s: string) {
    1 <= |s| <= 63 && AlphaNumeric(s[0]) && AlphaNumeric(s[|s| - 1]) &&
    forall i :: 0 <= i < |s| ==> AlphaNumeric(s[i]) || s[i] == '-'
  }

  /** A UUID without its dashes. */
  predicate BuildId(s: string) {
    |s| == 32 && forall i :: 0 <= i < |s| ==> '0' <= s[i] <= '9' || 'a' <= s[i] <= 'f'
  }

  lemma NamesHaveNoSeparators(app: string, id: string)
    requires Dns1123(app) && BuildId(id)
    ensures '/' !in app && ':' !in app && '/' !in id && ':' !in id
  {
  }

  // ---------- splitting at a known separator ----------

  lemma LastSeparator(a: string, c: char, b: string)
    requires c !in b
    ensures var s := a + [c] + b; AfterLast(s, c) == |a| + 1 && s[..|a|] == a && s[|a| + 1..] == b
  {
    var s := a + [c] + b;
    assert s[|a|] == c && s[|a| + 1..] == b;
    assert forall i :: |a| < i < |s| ==> s[i] == b[i - |a| - 1];
  }

  lemma FirstSeparator(a: string, c: char, b: string)
    requires c !in a
    ensures var s := a + [c] + b; FirstIndex(s, c) == |a| && s[..|a|] == a && s[|a| + 1..] == b
  {
    var s := a + [c] + b;
    assert s[|a|] == c;
  }

  lemma ParseAtTag(name: string, tag: string)
    requires ':' !in tag && '/' !in tag
    ensures ParseRef(name + [':'] + tag) == Ok(SplitName(name, tag))
  {
    LastSeparator(name, ':', tag);
  }

  lemma SplitNameAtHost(host: string, path: string, tag: string)
    requires '/' !in host
    ensures SplitName(host + ['/'] + path, tag) ==
      if HostLike(host) then Parts(host, path, tag) else Parts("docker.io", host + ['/'] + path, tag)
  {
    FirstSeparator(host, '/', path);
  }

  lemma ShellSplitAt(host: string, path: string, tag: string)
    requires '/' !in host && ':' !in tag
    ensures ShellSplit(host + ['/'] + (path + [':'] + tag)) == Parts(host, path, tag)
  {
    FirstSeparator(host, '/', path + [':'] + tag);
    LastSeparator(path, ':', tag);
  }

  function HostOf(registry: string): string {
    registry[..FirstIndex(registry, '/')]
  }

  /** The repository path the registry prefix and the application name make. */
  function RepositoryOf(registry: string, app: string): string {
    var i := FirstIndex(registry, '/');
    if i < |registry| then registry[i + 1..] + "/" + app else app
  }

  lemma RepositorySplit(registry: string, app: string)
    ensures '/' !in HostOf(registry)
    ensures registry + "/" + app == HostOf(registry) + ['/'] + RepositoryOf(registry, app)
  {
    var i := FirstIndex(registry, '/');
    if i < |registry| {
      assert registry == registry[..i] + ['/'] + registry[i + 1..];
    }
  }

  lemma PrintedSplit(registry: string, app: string, id: string)
    ensures Print(registry, app, id) == HostOf(registry) + ['/'] + (RepositoryOf(registry, app) + [':'] + id)
    ensures Print(registry, app, id) == (registry + "/" + app) + [':'] + id
  {
    RepositorySplit(registry, app);
  }

  /** On a printed reference the worker recovers host, repository and build id, whenever the host looks like one. */
  lemma WorkerParsesPrinted(registry: string, app: string, id: string)
    requires Dns1123(app) && BuildId(id)
    ensures ParseRef(Print(registry, app, id)) ==
      if HostLike(HostOf(registry)) then Ok(Parts(HostOf(registry), RepositoryOf(registry, app), id))
      else Ok(Parts("docker.io", registry + "/" + app, id))
  {
    NamesHaveNoSeparators(app, id);
    PrintedSplit(registry, app, id);
    ParseAtTag(registry + "/" + app, id);
    RepositorySplit(registry, app);
    SplitNameAtHost(HostOf(registry), RepositoryOf(registry, app), id);
  }

  lemma ShellParsesPrinted(registry: string, app: string, id: string)
    requires Dns1123(app) && BuildId(id)
    ensures ShellSplit(Print(registry, app, id)) == Parts(HostOf(registry), RepositoryOf(registry, app), id)
  {
    NamesHaveNoSeparators(app, id);
    PrintedSplit(registry, app, id);
    RepositorySplit(registry, app);
    ShellSplitAt(HostOf(registry), RepositoryOf(registry, app), id);
  }

  lemma DefaultHost()
    ensures HostLike("docker.io") && '/' !in "docker.io"
  {
    assert "docker.io"[6] == '.';
  }

  /** The two parsers agree on what the builder printed exactly when the registry host contains '.' or ':'. */
  lemma ParsersAgreeIff(registry: string, app: string, id: string)
    requires Dns1123(app) && BuildId(id)
    ensures var ref := Print(registry, app, id);
      ParseRef(ref) == Ok(ShellSplit(ref)) <==> HostLike(HostOf(registry))
  {
    WorkerParsesPrinted(registry, app, id);
    ShellParsesPrinted(registry, app, id);
    DefaultHost();
  }

  /** Two builds share a reference only when they are the same build of applications of one name. */
  lemma PrintIsInjective(registry: string, app1: string, id1: string, app2: string, id2: string)
    requires Dns1123(app1) && BuildId(id1) && Dns1123(app2) && BuildId(id2)
    requires Print(registry, app1, id1) == Print(registry, app2, id2)
    ensures app1 == app2 && id1 == id2
  {
    NamesHaveNoSeparators(app1, id1);
    NamesHaveNoSeparators(app2, id2);
    PrintedSplit(registry, app1, id1);
    PrintedSplit(registry, app2, id2);
    LastSeparator(registry + "/" + app1, ':', id1);
    LastSeparator(registry + "/" + app2, ':', id2);
    assert app1 == (registry + "/" + app1)[|registry| + 1..];
    assert app2 == (registry + "/" + app2)[|registry| + 1..];
  }

  /** Which strings are references at all, and that the parts of one rebuild it. */
  lemma PartsRebuild(ref: string)
    ensures ParseRef(ref).Ok? <==> ':' in ref && '/' !in ref[AfterLast(ref, ':')..]
    ensures ParseRef(ref).Ok? ==> var p := ParseRef(ref).value;
      ref == p.host + "/" + p.path + ":" + p.tag || (p.host == "docker.io" && ref == p.path + ":" + p.tag)
  {
    var k := AfterLast(ref, ':');
    if k > 0 {
      assert ref == ref[..k - 1] + ":" + ref[k..];
      NameRebuilds(ref[..k - 1], ref[k..]);
    }
  }

  lemma NameRebuilds(name: string, tag: string)
    ensures var p := SplitName(name, tag);
      p.tag == tag && (name == p.host + "/" + p.path || (p.host == "docker.io" && name == p.path))
  {
    var i := FirstIndex(name, '/');
    if i < |name| {
      assert name == name[..i] + "/" + name[i + 1..];
    }
  }

  /** Printing the parts with their host and parsing again gives the parts back, the default host included. */
  lemma ParseIsStable(ref: string)
    requires ParseRef(ref).Ok?
    ensures var p := ParseRef(ref).value; ParseRef(p.host + "/" + p.path + ":" + p.tag) == Ok(p)
  {
    var p := ParseRef(ref).value;
    ParsedParts(ref);
    ParseAtTag(p.host + "/" + p.path, p.tag);
    PartsAreStable(p);
    assert p.host + "/" + p.path + [':'] + p.tag == p.host + "/" + p.path + ":" + p.tag;
  }

  lemma PartsAreStable(p: Parts)
    requires HostLike(p.host) && '/' !in p.host
    ensures SplitName(p.host + "/" + p.path, p.tag) == p
  {
    assert p.host + "/" + p.path == p.host + ['/'] + p.path;
    FirstSeparator(p.host, '/', p.path);
  }

  lemma ParsedParts(ref: string)
    requires ParseRef(ref).Ok?
    ensures var p := ParseRef(ref).value; HostLike(p.host) && '/' !in p.host && ':' !in p.tag && '/' !in p.tag
  {
    DefaultHost();
  }
}
