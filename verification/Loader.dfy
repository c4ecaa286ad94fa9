/**
  Pulling and compiling an application: `LoadedApp::pull` of services/worker/src/loader.rs and
  `pull_and_compile` of router.rs.  The registry, the Spin cache on disk and wasmtime are outside
  the model: what they answer is a parameter.
*/
module Loader {
  import opened Wrappers
  import opened Routes
  import opened Strings
  import ImageRef

  datatype LockComponent = LockComponent(id: string, digest: string)

  /** Spin's lock file: triggers and components in declaration order. */
  datatype SpinLock = SpinLock(triggers: seq<HttpTrigger>, components: seq<LockComponent>)

  /** What one attempt meets outside: the pull and the lock file it leaves, the blobs on disk, the compiler. */
  datatype Outside = Outside(lock: Option<SpinLock>, blobs: set<string>, compiles: set<string>)

  /** `wasmPath` stands for the blob's file, named by its digest. */
  datatype ComponentInfo = ComponentInfo(id: string, wasmPath: string)

  datatype LoadedApp = LoadedApp(
    name: string, imageRef: string, components: map<string, ComponentInfo>, triggers: seq<HttpTrigger>)

  /** A compiled component is identified with the file it was compiled from. */
  datatype AppEntry = AppEntry(app: LoadedApp, components: map<string, string>)

  datatype LoadError = PullFailed | BadReference | MissingBlob | CompileFailed

  /** The table `pull` fills: a later component of the same id replaces an earlier one. */
  function ComponentTable(cs: seq<LockComponent>): (m: map<string, ComponentInfo>)
    ensures forall k :: k in m <==> exists i :: 0 <= i < |cs| && cs[i].id == k
    ensures forall k :: k in m ==> m[k].id == k && exists i :: 0 <= i < |cs| && cs[i].id == k && cs[i].digest == m[k].wasmPath
  {
    if cs == [] then map[]
    else
      var n := |cs| - 1;
      ComponentTable(cs[..n])[cs[n].id := ComponentInfo(cs[n].id, cs[n].digest)]
  }

  function Pull(name: string, imageRef: string, o: Outside): Result<LoadedApp, LoadError> {
    if o.lock.None? then Err(PullFailed)
    else if ImageRef.ParseRef(imageRef).Err? then Err(BadReference)
    else if exists i :: 0 <= i < |o.lock.value.components| && o.lock.value.components[i].digest !in o.blobs
    then Err(MissingBlob)
    else Ok(LoadedApp(name, imageRef, ComponentTable(o.lock.value.components), o.lock.value.triggers))
  }

  function Load(name: string, imageRef: string, o: Outside): Result<AppEntry, LoadError> {
    var r := Pull(name, imageRef, o);
    if r.Err? then Err(r.error)
    else
      var app := r.value;
      if exists k :: k in app.components && app.components[k].wasmPath !in o.compiles then Err(CompileFailed)
      else Ok(AppEntry(app, map k | k in app.components :: app.components[k].wasmPath))
  }

  method PullApp(name: string, imageRef: string, o: Outside) returns (r: Result<LoadedApp, LoadError>)
    ensures r == Pull(name, imageRef, o)
  {
    if o.lock.None? { return Err(PullFailed); }
    var reference := ImageRef.ParseRef(imageRef);
    if reference.Err? { return Err(BadReference); }
    var lock := o.lock.value;
    var components := map[];
    for i := 0 to |lock.components|
      invariant components == ComponentTable(lock.components[..i])
      invariant forall j :: 0 <= j < i ==> lock.components[j].digest in o.blobs
    {
      var c := lock.components[i];
      if c.digest !in o.blobs { return Err(MissingBlob); }
      components := components[c.id := ComponentInfo(c.id, c.digest)];
      assert lock.components[..i + 1][..i] == lock.components[..i];
    }
    assert lock.components[..|lock.components|] == lock.components;
    return Ok(LoadedApp(name, imageRef, components, lock.triggers));
  }

  method PullAndCompile(name: string, imageRef: string, o: Outside) returns (r: Result<AppEntry, LoadError>)
    ensures r == Load(name, imageRef, o)
  {
    var pulled := PullApp(name, imageRef, o);
    if pulled.Err? { return Err(pulled.error); }
    var app := pulled.value;
    var components: map<string, string> := map[];
    var todo := app.components.Keys;
    while todo != {}
      invariant todo <= app.components.Keys
      invariant components == map k | k in app.components && k !in todo :: app.components[k].wasmPath
      invariant forall k :: k in app.components && k !in todo ==> app.components[k].wasmPath in o.compiles
      decreases todo
    {
      var k :| k in todo;
      if app.components[k].wasmPath !in o.compiles { return Err(CompileFailed); }
      components := components[k := app.components[k].wasmPath];
      todo := todo - {k};
    }
    assert components == map k | k in app.components :: app.components[k].wasmPath;
    return Ok(AppEntry(app, components));
  }

  // ---------- what every table entry satisfies ----------

  /** The compiled components are those of the application, each compiled from its own file. */
  ghost predicate Whole(e: AppEntry) {
    e.components.Keys == e.app.components.Keys &&
    forall k :: k in e.components ==> e.app.components[k].id == k && e.components[k] == e.app.components[k].wasmPath
  }

  lemma LoadIsWhole(name: string, imageRef: string, o: Outside)
    requires Load(name, imageRef, o).Ok?
    ensures var e := Load(name, imageRef, o).value;
      Whole(e) && e.app.name == name && e.app.imageRef == imageRef && e.app.triggers == o.lock.value.triggers
  {
  }

  /** A load fails exactly when the pull fails, the reference has no tag, or a component in use has no blob or does not compile. */
  lemma LoadSucceedsIff(name: string, imageRef: string, o: Outside)
    ensures Load(name, imageRef, o).Ok? <==>
      && o.lock.Some?
      && ImageRef.ParseRef(imageRef).Ok?
      && (forall i :: 0 <= i < |o.lock.value.components| ==> o.lock.value.components[i].digest in o.blobs)
      && (forall i :: 0 <= i < |o.lock.value.components| && InUse(o.lock.value.components, i) ==>
            o.lock.value.components[i].digest in o.compiles)
  {
    if o.lock.Some? {
      var cs := o.lock.value.components;
      forall i | 0 <= i < |cs| && InUse(cs, i)
        ensures cs[i].id in ComponentTable(cs) && ComponentTable(cs)[cs[i].id].wasmPath == cs[i].digest
      {
        LastDeclarationWins(cs, i);
      }
      forall k | k in ComponentTable(cs)
        ensures exists i :: 0 <= i < |cs| && InUse(cs, i) && cs[i].id == k
      {
        HasLastDeclaration(cs, k);
      }
    }
  }

  /** No later component has the same id. */
  ghost predicate InUse(cs: seq<LockComponent>, i: nat) {
    i < |cs| && forall j :: i < j < |cs| ==> cs[j].id != cs[i].id
  }

  lemma {:induction false} LastDeclarationWins(cs: seq<LockComponent>, i: nat)
    requires InUse(cs, i)
    ensures cs[i].id in ComponentTable(cs) && ComponentTable(cs)[cs[i].id].wasmPath == cs[i].digest
  {
    var n := |cs| - 1;
    if i < n {
      assert cs[n].id != cs[i].id;
      assert cs[..n][i] == cs[i] && InUse(cs[..n], i);
      LastDeclarationWins(cs[..n], i);
      assert ComponentTable(cs) == ComponentTable(cs[..n])[cs[n].id := ComponentInfo(cs[n].id, cs[n].digest)];
    }
  }

  lemma {:induction false} HasLastDeclaration(cs: seq<LockComponent>, k: string)
    requires exists i :: 0 <= i < |cs| && cs[i].id == k
    ensures exists i :: 0 <= i < |cs| && InUse(cs, i) && cs[i].id == k
  {
    var n := |cs| - 1;
    if cs[n].id == k {
      assert InUse(cs, n);
    } else {
      HasLastDeclaration(cs[..n], k);
      var i :| 0 <= i < n && InUse(cs[..n], i) && cs[..n][i].id == k;
      assert InUse(cs, i);
    }
  }

  // ---------- dispatch ----------

  datatype Dispatched =
    | NoSuchApp
    | NoRoute
    | NotCompiled(component: string)
    | Invoke(compiled: string, guestPath: string)

  /** services/worker/src/server.rs `dispatch`, up to the call of the guest, once the entry is there. */
  function DispatchTo(e: AppEntry, innerPath: string): Dispatched {
    var a := Answer(e.app.triggers, innerPath);
    if a.None? then NoRoute
    else if a.value.0 !in e.components then NotCompiled(a.value.0)
    else Invoke(e.components[a.value.0], a.value.1)
  }

  function Dispatch(table: map<string, AppEntry>, app: string, innerPath: string): Dispatched {
    if app !in table then NoSuchApp else DispatchTo(table[app], innerPath)
  }

  /** Trigger `i` matches the path, and no other match has a longer prefix, or one as long and comes earlier. */
  ghost predicate Chosen(ts: seq<HttpTrigger>, path: string, i: nat) {
    i < |ts| && MatchRoute(ts[i].route, path).Some? &&
    forall j :: 0 <= j < |ts| && MatchRoute(ts[j].route, path).Some? ==>
      |PrefixOf(ts[j].route)| < |PrefixOf(ts[i].route)| || (|PrefixOf(ts[j].route)| == |PrefixOf(ts[i].route)| && i <= j)
  }

  ghost predicate NoneMatches(ts: seq<HttpTrigger>, path: string) {
    forall i :: 0 <= i < |ts| ==> MatchRoute(ts[i].route, path).None?
  }

  /** What a guest behind this route gets to see of the path: behind a well-formed one, what follows its prefix. */
  ghost predicate SeesRest(route: string, path: string, guest: string) {
    && MatchRoute(route, path) == Some(guest)
    && (HasPrefix(path, "/") ==> HasPrefix(guest, "/"))
    && (WellFormed(route) ==> if path == PrefixOf(route) then guest == "/" else PrefixOf(route) + guest == path)
  }

  /** Trigger `i` is chosen, and its component's own file is called with the rest of the path. */
  ghost predicate Calls(app: LoadedApp, path: string, i: nat, compiled: string, guest: string) {
    Chosen(app.triggers, path, i) && SeesRest(app.triggers[i].route, path, guest)
    && app.triggers[i].component in app.components && compiled == app.components[app.triggers[i].component].wasmPath
  }

  /** What an answer to a request for this application means. */
  ghost predicate Answers(app: LoadedApp, path: string, d: Dispatched) {
    match d
    case NoSuchApp => false
    case NoRoute => NoneMatches(app.triggers, path)
    case NotCompiled(c) => c !in app.components && exists i: nat :: Chosen(app.triggers, path, i) && app.triggers[i].component == c
    case Invoke(compiled, guest) => exists i: nat :: Calls(app, path, i, compiled, guest)
  }

  lemma ChosenIsBest(ts: seq<HttpTrigger>, path: string, i: nat)
    requires i < |ts|
    ensures Chosen(ts, path, i) <==> IsBest(Weights(ts), Hits(ts, path), i)
  {
    assert |Weights(ts)| == |Hits(ts, path)| == |ts|;
    assert forall j :: 0 <= j < |ts| ==>
      Weights(ts)[j] == |PrefixOf(ts[j].route)| && (Hits(ts, path)[j] <==> MatchRoute(ts[j].route, path).Some?);
  }

  lemma MatchSeesRest(route: string, path: string)
    requires MatchRoute(route, path).Some?
    ensures SeesRest(route, path, MatchRoute(route, path).value)
  {
    if WellFormed(route) { MatchRebuildsPath(route, path); }
    if HasPrefix(path, "/") { GuestPathIsRooted(route, path); }
  }

  /** An answer that means what it should is the one given. */
  lemma ChosenAnswers(ts: seq<HttpTrigger>, path: string, i: nat)
    requires Chosen(ts, path, i)
    ensures Answer(ts, path) == Some((ts[i].component, MatchRoute(ts[i].route, path).value))
  {
    ChosenIsBest(ts, path, i);
    BestIsAnswer(ts, path, i);
  }

  lemma AnswerIsChosen(ts: seq<HttpTrigger>, path: string) returns (i: nat)
    ensures Answer(ts, path).None? <==> NoneMatches(ts, path)
    ensures Answer(ts, path).Some? ==> Chosen(ts, path, i) && Answer(ts, path).value.0 == ts[i].component
    ensures Answer(ts, path).Some? ==> SeesRest(ts[i].route, path, Answer(ts, path).value.1)
  {
    var b := BestIndex(Weights(ts), Hits(ts, path));
    i := if b.Some? then b.value else 0;
    if b.Some? {
      ChosenIsBest(ts, path, i);
      MatchSeesRest(ts[i].route, path);
    }
    assert forall j :: 0 <= j < |ts| ==> (Hits(ts, path)[j] <==> MatchRoute(ts[j].route, path).Some?);
  }

  lemma DispatchMeans(e: AppEntry, path: string)
    requires Whole(e)
    ensures Answers(e.app, path, DispatchTo(e, path))
  {
    var i := AnswerIsChosen(e.app.triggers, path);
    var d := DispatchTo(e, path);
    if d.Invoke? {
      assert Calls(e.app, path, i, d.compiled, d.guestPath);
    } else if d.NotCompiled? {
      assert Chosen(e.app.triggers, path, i) && e.app.triggers[i].component == d.component;
    }
  }

  lemma MeaningIsDispatched(e: AppEntry, path: string, d: Dispatched)
    requires Whole(e) && Answers(e.app, path, d)
    ensures d == DispatchTo(e, path)
  {
    if d.NoRoute? {
      var _ := AnswerIsChosen(e.app.triggers, path);
    } else if d.NotCompiled? {
      var j: nat :| Chosen(e.app.triggers, path, j) && e.app.triggers[j].component == d.component;
      ChosenAnswers(e.app.triggers, path, j);
    } else {
      var j: nat :| Calls(e.app, path, j, d.compiled, d.guestPath);
      ChosenAnswers(e.app.triggers, path, j);
    }
  }

  /** A whole entry is answered from in exactly one way: the one that means what it should. */
  lemma DispatchAnswersIff(e: AppEntry, path: string, d: Dispatched)
    requires Whole(e)
    ensures d == DispatchTo(e, path) <==> Answers(e.app, path, d)
  {
    DispatchMeans(e, path);
    if Answers(e.app, path, d) { MeaningIsDispatched(e, path, d); }
  }

  /** What an answer to a request means: whether there is the application, and what is made of its triggers. */
  ghost predicate Serves(table: map<string, AppEntry>, name: string, path: string, d: Dispatched) {
    if name in table then Answers(table[name].app, path, d) else d.NoSuchApp?
  }

  /** Exactly one answer means what it should: the one given. */
  lemma DispatchServesIff(table: map<string, AppEntry>, name: string, path: string, d: Dispatched)
    requires name in table ==> Whole(table[name])
    ensures d == Dispatch(table, name, path) <==> Serves(table, name, path, d)
  {
    if name in table { DispatchAnswersIff(table[name], path, d); }
  }

  /** Every trigger names a component that the lock file declares. */
  ghost predicate Linked(lock: SpinLock) {
    forall i :: 0 <= i < |lock.triggers| ==> Declares(lock, lock.triggers[i].component)
  }

  ghost predicate Declares(lock: SpinLock, component: string) {
    exists j :: 0 <= j < |lock.components| && lock.components[j].id == component
  }

  /** An entry loaded from a linked lock file never dispatches to a component that was not compiled. */
  lemma LinkedAlwaysCompiled(table: map<string, AppEntry>, name: string, imageRef: string, o: Outside, path: string)
    requires Load(name, imageRef, o).Ok? && Linked(o.lock.value)
    requires name in table && table[name] == Load(name, imageRef, o).value
    ensures !Dispatch(table, name, path).NotCompiled?
  {
    var e := table[name];
    LoadIsWhole(name, imageRef, o);
    var ts := e.app.triggers;
    var b := BestIndex(Weights(ts), Hits(ts, path));
    if b.Some? {
      assert Declares(o.lock.value, ts[b.value].component);
      assert ts[b.value].component in ComponentTable(o.lock.value.components);
    }
  }
}
