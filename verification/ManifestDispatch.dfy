/** From the text of the synthesized manifest to dispatch: which function a path reaches, and with what. */
module ManifestDispatch {
  import opened Wrappers
  import opened Strings
  import opened Routes
  import opened Loader
  import opened Manifest
  import opened ManifestRead
  import ImageRef

  /** The lock file Spin derives from a manifest: its triggers and components, each component with the digest of its wasm. */
  function LockOf(m: SpinManifest, digest: string -> string): SpinLock {
    SpinLock(m.triggers, seq(|m.components|, i requires 0 <= i < |m.components| =>
                           LockComponent(m.components[i].id, digest(m.components[i].source))))
  }

  /** `m` is read from the manifest of these functions, in the form the handlers and the builder let in. */
  ghost predicate ReadFrom(language: string, appName: string, fs: seq<FunctionSpec>, m: SpinManifest) {
    KnownLanguage(language) && ImageRef.Dns1123(appName) && UniquelyNamed(fs) && DnsNames(fs)
    && ReadManifest(Text(language, appName, fs)) == Some(m)
  }

  lemma ReadDescribes(language: string, appName: string, fs: seq<FunctionSpec>, m: SpinManifest)
    requires ReadFrom(language, appName, fs, m)
    ensures Describes(language, appName, fs, m)
  {
    ManifestReadsBackIff(language, appName, fs);
  }

  lemma OneComponentEach(language: string, appName: string, fs: seq<FunctionSpec>, m: SpinManifest, i: nat, j: nat)
    requires Describes(language, appName, fs, m) && i < |m.triggers| && j < |m.components|
    ensures m.components[j].id == m.triggers[i].component <==> j == i
  {
    assert Builds(language, m.triggers[j].component, m.components[j]);
    if j < i {
      assert m.triggers[j].component != m.triggers[i].component;
    } else if i < j {
      assert m.triggers[i].component != m.triggers[j].component;
    }
  }

  /** Every trigger names exactly one component block. */
  lemma EachTriggerHasOneComponent(language: string, appName: string, fs: seq<FunctionSpec>, m: SpinManifest,
                                   digest: string -> string, i: nat)
    requires ReadFrom(language, appName, fs, m) && i < |LockOf(m, digest).triggers|
    ensures var lock := LockOf(m, digest);
      && |lock.components| == |lock.triggers|
      && forall j :: 0 <= j < |lock.components| ==> (lock.components[j].id == lock.triggers[i].component <==> j == i)
  {
    ReadDescribes(language, appName, fs, m);
    forall j | 0 <= j < |m.components|
      ensures m.components[j].id == m.triggers[i].component <==> j == i
    {
      OneComponentEach(language, appName, fs, m, i, j);
    }
  }

  lemma LockIsLinked(language: string, appName: string, fs: seq<FunctionSpec>, m: SpinManifest, digest: string -> string)
    requires ReadFrom(language, appName, fs, m)
    ensures Linked(LockOf(m, digest))
  {
    var lock := LockOf(m, digest);
    forall i | 0 <= i < |lock.triggers|
      ensures Declares(lock, lock.triggers[i].component)
    {
      EachTriggerHasOneComponent(language, appName, fs, m, digest, i);
      assert lock.components[i].id == lock.triggers[i].component;
    }
  }

  /**
    An application loaded from such a lock file dispatches every path: no route, or a compiled component.
    The answer to a component that was not compiled is unreachable.
  */
  lemma DispatchNeverMissesComponent(language: string, appName: string, fs: seq<FunctionSpec>, m: SpinManifest,
                                     digest: string -> string, name: string, imageRef: string, o: Outside,
                                     table: map<string, AppEntry>, path: string)
    requires ReadFrom(language, appName, fs, m) && o.lock == Some(LockOf(m, digest)) && Load(name, imageRef, o).Ok?
    requires name in table && table[name] == Load(name, imageRef, o).value
    ensures Dispatch(table, name, path).NoRoute? || Dispatch(table, name, path).Invoke?
  {
    LockIsLinked(language, appName, fs, m, digest);
    LinkedAlwaysCompiled(table, name, imageRef, o, path);
  }

  /** `f` matches the path, and every other match has a shorter prefix, or one as long and a later name. */
  ghost predicate Wins(fs: seq<FunctionSpec>, path: string, f: FunctionSpec) {
    f in fs && MatchRoute(f.route, path).Some? &&
    forall g :: g in fs && MatchRoute(g.route, path).Some? ==>
      |PrefixOf(g.route)| < |PrefixOf(f.route)| || (|PrefixOf(g.route)| == |PrefixOf(f.route)| && LexLe(f.name, g.name))
  }

  lemma NoneMatchesIff(language: string, appName: string, fs: seq<FunctionSpec>, m: SpinManifest, path: string)
    requires Describes(language, appName, fs, m)
    ensures NoneMatches(m.triggers, path) <==> forall f :: f in fs ==> MatchRoute(f.route, path).None?
  {
    forall f | f in fs
      ensures exists i :: 0 <= i < |m.triggers| && m.triggers[i].route == f.route
    {
      assert HttpTrigger(f.route, f.name) in m.triggers;
    }
    forall i | 0 <= i < |m.triggers|
      ensures exists f :: f in fs && f.route == m.triggers[i].route
    {
      assert FunctionSpec(m.triggers[i].component, m.triggers[i].route) in fs;
    }
  }

  lemma ChosenWins(language: string, appName: string, fs: seq<FunctionSpec>, m: SpinManifest, path: string, i: nat)
    requires Describes(language, appName, fs, m) && Chosen(m.triggers, path, i)
    ensures Wins(fs, path, FunctionSpec(m.triggers[i].component, m.triggers[i].route))
  {
    var ts := m.triggers;
    var f := FunctionSpec(ts[i].component, ts[i].route);
    assert f in fs;
    forall g | g in fs && MatchRoute(g.route, path).Some?
      ensures |PrefixOf(g.route)| < |PrefixOf(f.route)| || (|PrefixOf(g.route)| == |PrefixOf(f.route)| && LexLe(f.name, g.name))
    {
      assert HttpTrigger(g.route, g.name) in ts;
      var j :| 0 <= j < |ts| && ts[j] == HttpTrigger(g.route, g.name);
      LexLeRefl(f.name);
      if i < j { assert LexLe(ts[i].component, ts[j].component); }
    }
  }

  lemma SourceIs(language: string, name: string, c: Component)
    requires KnownLanguage(language) && Builds(language, name, c)
    ensures c.source == "functions/" + name + ArtifactOf(language)
  {
  }

  /** The file of a function's component is the one its build left. */
  lemma OwnFile(language: string, appName: string, fs: seq<FunctionSpec>, m: SpinManifest, digest: string -> string, i: nat)
    requires KnownLanguage(language) && Describes(language, appName, fs, m) && i < |m.triggers|
    ensures var cs, c := LockOf(m, digest).components, m.triggers[i].component;
      c in ComponentTable(cs) && ComponentTable(cs)[c].wasmPath == digest("functions/" + c + ArtifactOf(language))
  {
    var cs, c := LockOf(m, digest).components, m.triggers[i].component;
    assert Builds(language, c, m.components[i]);
    SourceIs(language, c, m.components[i]);
    forall j | i < j < |cs|
      ensures cs[j].id != cs[i].id
    {
      OneComponentEach(language, appName, fs, m, i, j);
    }
    LastDeclarationWins(cs, i);
  }

  /** The function that wins is called: its own wasm, with the rest of the path. */
  ghost predicate CallsWinner(language: string, fs: seq<FunctionSpec>, digest: string -> string, path: string, d: Dispatched)
    requires d.Invoke?
  {
    exists f :: Wins(fs, path, f) && SeesRest(f.route, path, d.guestPath)
      && d.compiled == digest("functions/" + f.name + ArtifactOf(language))
  }

  lemma CalledIsWinner(language: string, appName: string, fs: seq<FunctionSpec>, m: SpinManifest, digest: string -> string,
                       app: LoadedApp, path: string, d: Dispatched)
    requires KnownLanguage(language) && Describes(language, appName, fs, m) && d.Invoke? && Answers(app, path, d)
    requires app.triggers == m.triggers && app.components == ComponentTable(LockOf(m, digest).components)
    ensures CallsWinner(language, fs, digest, path, d)
  {
    var i: nat :| Calls(app, path, i, d.compiled, d.guestPath);
    ChosenWins(language, appName, fs, m, path, i);
    OwnFile(language, appName, fs, m, digest, i);
  }

  lemma LoadedParts(name: string, imageRef: string, o: Outside, lock: SpinLock)
    requires o.lock == Some(lock) && Load(name, imageRef, o).Ok?
    ensures var app := Load(name, imageRef, o).value.app; app.triggers == lock.triggers && app.components == ComponentTable(lock.components)
  {
  }

  /** What answers a path, in terms of the functions the manifest was made for. */
  lemma DescribedResolves(language: string, appName: string, fs: seq<FunctionSpec>, m: SpinManifest, digest: string -> string,
                          app: LoadedApp, path: string, d: Dispatched)
    requires KnownLanguage(language) && Describes(language, appName, fs, m) && (d.NoRoute? || d.Invoke?) && Answers(app, path, d)
    requires app.triggers == m.triggers && app.components == ComponentTable(LockOf(m, digest).components)
    ensures if forall f :: f in fs ==> MatchRoute(f.route, path).None? then d.NoRoute?
            else d.Invoke? && CallsWinner(language, fs, digest, path, d)
  {
    NoneMatchesIff(language, appName, fs, m, path);
    if d.Invoke? {
      CalledIsWinner(language, appName, fs, m, digest, app, path, d);
      var i: nat :| Calls(app, path, i, d.compiled, d.guestPath);
      assert !NoneMatches(m.triggers, path);
    }
  }

  /**
    What is made of the text: a path that no function's route matches has no route, and any other calls, of the functions
    that match it, the one with the longest prefix, among equals the first by name: the wasm its build left, with what
    is left of the path.
  */
  lemma ManifestResolves(language: string, appName: string, fs: seq<FunctionSpec>, m: SpinManifest, digest: string -> string,
                         name: string, imageRef: string, o: Outside, table: map<string, AppEntry>, path: string)
    requires ReadFrom(language, appName, fs, m) && o.lock == Some(LockOf(m, digest)) && Load(name, imageRef, o).Ok?
    requires name in table && table[name] == Load(name, imageRef, o).value
    ensures var d := Dispatch(table, name, path);
      if forall f :: f in fs ==> MatchRoute(f.route, path).None? then d.NoRoute?
      else d.Invoke? && CallsWinner(language, fs, digest, path, d)
  {
    ReadDescribes(language, appName, fs, m);
    DispatchNeverMissesComponent(language, appName, fs, m, digest, name, imageRef, o, table, path);
    LoadIsWhole(name, imageRef, o);
    LoadedParts(name, imageRef, o, LockOf(m, digest));
    DispatchServesIff(table, name, path, Dispatch(table, name, path));
    DescribedResolves(language, appName, fs, m, digest, table[name].app, path, Dispatch(table, name, path));
  }
}
