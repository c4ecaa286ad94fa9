/** What callers of the handlers of `Handlers` may rely on. */
module HandlerEffects {
  import opened Wrappers
  import opened Strings
  import opened Policy
  import opened Deploy
  import opened Store
  import opened Routes
  import opened Paths
  import opened Handlers
  import Protocol
  import Json
  import A = Archive
  import K = Packing
  import ImageRef

  ghost function ReplyTo(db: Db, c: Call): Reply {
    match c
    case CreateApplicationCall(n, appId, fnId, now, f) => AfterCreateApplication(db, n, appId, fnId, now, f).1
    case CreateFunctionCall(appId, fnId, name, route, now, fails) => AfterCreateFunction(db, appId, fnId, name, route, now, fails).1
    case UpdateFunctionCall(appId, fnId, route, now, fails) => AfterUpdateFunction(db, appId, fnId, route, now, fails).1
    case DeleteFunctionCall(appId, fnId, fails) => AfterDeleteFunction(db, appId, fnId, fails).1
    case DeleteApplicationCall(appId, undeployed, fails) => AfterDeleteApplication(db, appId, undeployed, fails).1
    case PutSourceCall(appId, fnId, files, now, fails) => AfterPutSource(db, appId, fnId, files, now, fails).1
    case ImportSourceCall(appId, fnId, up, now, fails) => AfterImportSource(db, appId, fnId, up, now, fails).1
    case PatchCall(env, appId, input, now, fails) => AfterPatch(env, db, appId, input, now, fails).1
  }

  predicate Failed(r: Reply) {
    r == BadRequest || r == Missing || r == Conflict || r == Internal || r == BadGateway
  }

  /** The application a call is about is another tenant's, or not there at all; the store was asked and answered. */
  ghost predicate NoApplication(db: Db, appId: string, f: Fails) {
    !f.app && (appId !in db.applications || db.applications[appId].tenantID != TENANT)
  }

  /** So with its function, or this is not the application's. */
  ghost predicate NoFunction(db: Db, appId: string, fnId: string, f: Fails) {
    NoApplication(db, appId, f) ||
    (!f.app && !f.fn && (fnId !in db.functions || db.functions[fnId].applicationID != appId))
  }

  /** A call answers that something is missing exactly when it is. */
  lemma MissingIff(db: Db, c: Call)
    ensures ReplyTo(db, c) == Missing <==>
      match c
      case CreateApplicationCall(_, _, _, _, _) => false
      case CreateFunctionCall(appId, _, _, _, _, f) => NoApplication(db, appId, f)
      case UpdateFunctionCall(appId, fnId, _, _, f) => NoFunction(db, appId, fnId, f)
      case DeleteFunctionCall(appId, fnId, f) => NoFunction(db, appId, fnId, f)
      case DeleteApplicationCall(appId, _, f) => NoApplication(db, appId, f)
      case PutSourceCall(appId, fnId, _, _, f) => NoFunction(db, appId, fnId, f)
      case ImportSourceCall(appId, fnId, _, _, f) => NoFunction(db, appId, fnId, f)
      case PatchCall(_, appId, _, _, f) => NoApplication(db, appId, f)
  {
  }

  lemma FailedCreation(db: Db, n: NewApplication, appId: string, fnId: string, now: nat, f: Faults)
    requires ValidDb(db) && Failed(AfterCreateApplication(db, n, appId, fnId, now, f).1)
    ensures AfterCreateApplication(db, n, appId, fnId, now, f).0 == db
      <==> !Stranded(db, CreateApplicationCall(n, appId, fnId, now, f))
  {
    if GoodInput(n) && !f.first && InsertApplication(db, Fresh(n, appId), now).Ok? {
      DeleteUndoesCreate(db, Fresh(n, appId), now);
    }
  }

  /** A handler that answers an error has changed nothing, exactly unless it stranded an application. */
  lemma FailedCallsChangeNothingIff(db: Db, c: Call)
    requires ValidDb(db) && Failed(ReplyTo(db, c))
    ensures Handle(db, c) == db <==> !Stranded(db, c)
  {
    if c.CreateApplicationCall? {
      FailedCreation(db, c.n, c.appId, c.fnId, c.now, c.f);
    }
  }

  /** Tables but for the row of one application. */
  ghost predicate OnlyApplication(db: Db, d: Db, appId: string) {
    && d.applications - {appId} == db.applications - {appId}
    && d.sources == db.sources && d.builds == db.builds
  }

  /** The new row: no runtime asked for means spinkube. */
  ghost predicate HoldsWhatWasAsked(a: Application, n: NewApplication, appId: string, now: nat) {
    && a.id == appId && a.name == n.name && a.language == n.language && a.description == n.description
    && (a.runtime == WorkerPool <==> n.runtime == "workerpool") && (a.runtime == SpinKube <==> n.runtime == "" || n.runtime == "spinkube")
    && a.replicas == 1 && a.variables == [] && a.resources == Resources("", "", "", "") && a.createdAt == now == a.updatedAt
  }

  /**
    A creation succeeds exactly when name, language and runtime are good, neither the ids nor the name are taken, and
    the store takes both rows.
  */
  lemma CreatedIff(db: Db, n: NewApplication, appId: string, fnId: string, now: nat, f: Faults)
    requires ValidDb(db)
    ensures AfterCreateApplication(db, n, appId, fnId, now, f).1 == Created <==>
      && ImageRef.Dns1123(n.name) && n.language in ["go", "js", "ts", "rust"] && n.runtime in ["", "spinkube", "workerpool"]
      && appId !in db.applications && fnId !in db.functions && !f.first && !f.second
      && forall k :: k in db.applications && db.applications[k].name == n.name ==> db.applications[k].tenantID != TENANT
  {
    if GoodInput(n) && InsertApplication(db, Fresh(n, appId), now).Ok? {
      assert !FunctionNameTaken(InsertApplication(db, Fresh(n, appId), now).value, appId, "default");
    }
  }

  /**
    A created application was not there before, under its id or its name, and holds what was asked for, with one replica,
    no variables and no resources of its own, and exactly one function, whose route matches every path; nothing else changed.
  */
  lemma CreatedIsServable(db: Db, n: NewApplication, appId: string, fnId: string, now: nat, f: Faults, path: string)
    requires ValidDb(db) && AfterCreateApplication(db, n, appId, fnId, now, f).1 == Created
    ensures var d := AfterCreateApplication(db, n, appId, fnId, now, f).0;
      && OnlyApplication(db, d, appId) && d.functions - {fnId} == db.functions
      && appId !in db.applications && !NameTaken(db, TENANT, n.name)
      && Protocol.HasApplication(d, appId) && HoldsWhatWasAsked(d.applications[appId], n, appId, now)
      && FunctionsOf(d, appId) == {fnId} && d.functions[fnId].name == "default"
      && MatchRoute(d.functions[fnId].route, path) == Some(if path == "" then "/" else path)
  {
    var d := AfterCreateApplication(db, n, appId, fnId, now, f).0;
    FirstFunctionIsOnly(InsertApplication(db, Fresh(n, appId), now).value, DefaultFunction(appId, fnId), now);
    NewAppHasNoFunction(db, Fresh(n, appId), now);
    WildcardMatchesAll(path);
  }

  lemma FirstFunctionIsOnly(db: Db, f: Function, now: nat)
    requires InsertFunction(db, f, now).Ok?
    ensures var d := InsertFunction(db, f, now).value;
      && d.functions - {f.id} == db.functions && FunctionsOf(d, f.applicationID) == FunctionsOf(db, f.applicationID) + {f.id}
      && d.functions[f.id].route == f.route && d.functions[f.id].name == f.name
  {
  }

  /** The function a creation leaves: named and routed as asked for, or routed below its own name. */
  ghost predicate IsNewFunction(f: Function, appId: string, fnId: string, name: string, route: string, now: nat) {
    && f.id == fnId && f.applicationID == appId && f.name == name && f.createdAt == now == f.updatedAt
    && (route != "" ==> f.route == route)
    && (route == "" ==> forall rest :: MatchRoute(f.route, "/" + name + "/" + rest) == Some("/" + rest))
    && (route == "" ==> MatchRoute(f.route, "/" + name) == Some("/"))
  }

  lemma BelowItsName(name: string, rest: string)
    ensures MatchRoute("/" + name + "/...", "/" + name + "/" + rest) == Some("/" + rest)
    ensures MatchRoute("/" + name + "/...", "/" + name) == Some("/")
  {
    var route, prefix, path := "/" + name + "/...", "/" + name, "/" + name + "/" + rest;
    assert route[..|route| - 4] == prefix && route[|route| - 4..] == "/...";
    assert path[..|prefix| + 1] == prefix + "/" && path[|prefix|..] == "/" + rest;
    assert prefix[|prefix|..] == "";
  }

  /**
    A function is created exactly when its application is there, its name is good and free within the application,
    and the store takes the row; then that row is all that is new.
  */
  lemma FunctionCreatedIff(db: Db, appId: string, fnId: string, name: string, route: string, now: nat, fails: Fails)
    ensures var r := AfterCreateFunction(db, appId, fnId, name, route, now, fails);
      && (r.1 == Created <==>
            && !fails.app && appId in db.applications && db.applications[appId].tenantID == TENANT && ImageRef.Dns1123(name)
            && !fails.write && fnId !in db.functions
            && forall k :: k in db.functions && db.functions[k].name == name ==> db.functions[k].applicationID != appId)
      && (r.1 == Created ==> fnId in r.0.functions && IsNewFunction(r.0.functions[fnId], appId, fnId, name, route, now))
      && (r.1 == Created ==> r.0.(functions := r.0.functions - {fnId}) == db)
  {
    forall rest
      ensures MatchRoute("/" + name + "/...", "/" + name + "/" + rest) == Some("/" + rest)
    {
      BelowItsName(name, rest);
    }
    BelowItsName(name, "");
    var r := AfterCreateFunction(db, appId, fnId, name, route, now, fails);
    if r.1 == Created { assert r.0.functions - {fnId} == db.functions; }
  }

  /**
    An update succeeds exactly when the function is the application's, the route is rooted and the store takes it; then
    the function has this route, and only that changed.
  */
  lemma FunctionUpdatedIff(db: Db, appId: string, fnId: string, route: string, now: nat, fails: Fails)
    ensures var r := AfterUpdateFunction(db, appId, fnId, route, now, fails);
      && (r.1 == Okay <==> !fails.app && !fails.fn && !fails.write && LoadsFunction(db, appId, fnId) && HasPrefix(route, "/"))
      && (r.1 == Okay ==> fnId in r.0.functions && r.0.functions[fnId].route == route && r.0.functions[fnId].updatedAt == now)
      && (r.1 == Okay ==>
            r.0.functions[fnId] == db.functions[fnId].(route := r.0.functions[fnId].route, updatedAt := r.0.functions[fnId].updatedAt))
      && (r.1 == Okay ==> r.0.(functions := db.functions) == db && r.0.functions - {fnId} == db.functions - {fnId})
  {
    assert HasPrefix(route, "/") <==> route != "" && route[0] == '/';
  }

  lemma WildcardMatchesAll(path: string)
    ensures MatchRoute("/...", path) == Some(if path == "" then "/" else path)
  {
    assert "/..."[..0] == "";
  }

  /**
    A successful PATCH changes one row and in it the four config columns only. Each given description and list of
    variables is what is stored; so are given resources, unless the policy forces the platform's; a given count of
    zero is stored as one. What is not given stays. The name, the runtime and every other row stay.
  */
  lemma PatchChangesWhatIsGiven(env: Protocol.Env, db: Db, appId: string, input: Protocol.PatchInput, now: nat, fails: Fails)
    requires AfterPatch(env, db, appId, input, now, fails).1 == Okay
    ensures var d := AfterPatch(env, db, appId, input, now, fails).0;
      var before, after, p := db.applications[appId], d.applications[appId], env.deploy.policy;
      && OnlyApplication(db, d, appId) && d.functions == db.functions
      && after.(description := before.description, replicas := before.replicas, variables := before.variables,
                resources := before.resources, updatedAt := before.updatedAt) == before
      && Protocol.Follows(input.description, before.description, after.description)
      && Protocol.Follows(input.variables, before.variables, after.variables)
      && (input.replicas.Some? ==> after.replicas == if input.replicas.value == 0 then 1 else input.replicas.value)
      && (input.replicas.None? && before.replicas >= 1 ==> after.replicas == before.replicas)
      && (p.mode != "forced" ==> Protocol.Follows(input.resources, before.resources, after.resources))
      && (p.mode == "forced" ==> after.resources == Resources(p.cpu.request, p.cpu.limit, p.mem.request, p.mem.limit))
  {
  }

  predicate GoodName(s: string) {
    s != "" && !('0' <= s[0] <= '9') &&
    forall i :: 0 <= i < |s| ==> 'A' <= s[i] <= 'Z' || 'a' <= s[i] <= 'z' || '0' <= s[i] <= '9' || s[i] == '_'
  }

  /** The values a PATCH would store for the replicas and the resources are ones it may store. */
  ghost predicate MayStore(p: ResourcePolicy, replicas: int, resources: Resources) {
    replicas >= 0 && KnownMode(p) && (p.mode == "forced" || Within(p, resources))
  }

  /**
    A PATCH succeeds exactly when the application is there and the store takes the write, the names of given variables are
    identifiers, the replicas it ends with are not negative, and the resources it ends with obey a known policy or are forced.
  */
  lemma PatchSucceedsIff(env: Protocol.Env, db: Db, appId: string, input: Protocol.PatchInput, now: nat, fails: Fails)
    ensures AfterPatch(env, db, appId, input, now, fails).1 == Okay <==>
      && !fails.app && !fails.write && appId in db.applications && db.applications[appId].tenantID == TENANT
      && (input.variables.Some? ==> forall i :: 0 <= i < |input.variables.value| ==> GoodName(input.variables.value[i].name))
      && MayStore(env.deploy.policy,
                  if input.replicas.Some? then input.replicas.value else db.applications[appId].replicas,
                  if input.resources.Some? then input.resources.value else db.applications[appId].resources)
  {
    forall s: string
      ensures GoodName(s) <==> Protocol.VariableName(s)
    {
    }
    if LoadRefusal(db, appId, fails).None? {
      var res := if input.resources.Some? then input.resources.value else db.applications[appId].resources;
      if KnownMode(env.deploy.policy) && env.deploy.policy.mode != "forced" { RejectsExactlyViolations(env.deploy.policy, res); }
    }
  }

  /** Every quantity that has to be compared can be. */
  ghost predicate Comparable(p: ResourcePolicy, r: Resources) {
    && CapsParse(p) && CapParses(p, r.cpuRequest) && CapParses(p, r.cpuLimit)
    && CapParses(p, r.memoryRequest) && CapParses(p, r.memoryLimit)
  }

  /**
    Under a known policy whose quantities all parse, a PATCH that is refused is the caller's fault; under an unknown one
    it never is, if all else is right.
  */
  lemma RefusedPatchIsCallersFault(env: Protocol.Env, db: Db, appId: string, input: Protocol.PatchInput, now: nat)
    requires Protocol.HasApplication(db, appId)
    ensures var p := env.deploy.policy;
      var replicas := if input.replicas.Some? then input.replicas.value else db.applications[appId].replicas;
      var res := if input.resources.Some? then input.resources.value else db.applications[appId].resources;
      var named := input.variables.Some? ==> forall i :: 0 <= i < |input.variables.value| ==> GoodName(input.variables.value[i].name);
      var reply := AfterPatch(env, db, appId, input, now, NO_FAILS).1;
      && (KnownMode(p) && Comparable(p, res) ==> reply == if named && MayStore(p, replicas, res) then Okay else BadRequest)
      && (!KnownMode(p) ==> reply == if named && replicas >= 0 then Internal else BadRequest)
  {
    PatchSucceedsIff(env, db, appId, input, now, NO_FAILS);
    forall s: string
      ensures GoodName(s) <==> Protocol.VariableName(s)
    {
    }
  }

  /** What a PATCH is to apply again: a SpinApp with an image that can be read, and given replicas, variables or resources. */
  ghost predicate AppliesAgain(row: Application, input: Protocol.PatchInput, spinApps: map<string, SpinApp>, readable: bool, spinUp: bool) {
    && row.runtime != WorkerPool && (input.replicas.Some? || input.variables.Some? || input.resources.Some?)
    && readable && spinUp && row.name in spinApps && spinApps[row.name].image != ""
  }

  /**
    A successful PATCH applies its SpinApp again with the image it runs and exactly the row's new variables, replicas and
    resources.
  */
  lemma PatchAppliesTheRow(env: Protocol.Env, spinApps: map<string, SpinApp>, db: Db, appId: string, input: Protocol.PatchInput,
                           now: nat, fails: Fails, readable: bool, spinUp: bool)
    requires AfterPatch(env, db, appId, input, now, fails).1 == Okay
    ensures var row := AfterPatch(env, db, appId, input, now, fails).0.applications[appId];
      var after := Reapplied(env, spinApps, db, appId, input, Okay, readable, spinUp);
      if !AppliesAgain(row, input, spinApps, readable, spinUp) then after == spinApps
      else
        && row.name in after && after - {row.name} == spinApps - {row.name}
        && Publishes(env.deploy, row, spinApps[row.name].image, 0, after[row.name])
        && after[row.name].resources == row.resources && after[row.name].replicas == row.replicas
  {
    PatchStoresFixedPoint(env, db, appId, input, now, fails);
    var row := AfterPatch(env, db, appId, input, now, fails).0.applications[appId];
    var after := Reapplied(env, spinApps, db, appId, input, Okay, readable, spinUp);
    if AppliesAgain(row, input, spinApps, readable, spinUp) {
      DesiredPublishesIff(env.deploy, row, spinApps[row.name].image, 0, after[row.name]);
    }
  }

  /** A function goes with its source and nothing else, and only while the application keeps another one. */
  lemma DeletedFunctionLeavesOthers(db: Db, appId: string, fnId: string, fails: Fails)
    requires ValidDb(db) && AfterDeleteFunction(db, appId, fnId, fails).1 == NoContent
    ensures var d := AfterDeleteFunction(db, appId, fnId, fails).0;
      && d.applications == db.applications && d.builds == db.builds
      && d.functions == db.functions - {fnId} && d.sources == db.sources - {fnId}
      && FunctionsOf(d, appId) == FunctionsOf(db, appId) - {fnId} && FunctionsOf(d, appId) != {}
  {
    var d := AfterDeleteFunction(db, appId, fnId, fails).0;
    assert fnId in FunctionsOf(db, appId);
    assert FunctionsOf(d, appId) == FunctionsOf(db, appId) - {fnId};
    assert |FunctionsOf(db, appId) - {fnId}| == |FunctionsOf(db, appId)| - 1;
  }

  /** Without faults the removal of a function is refused exactly when it is the last one. */
  lemma LastFunctionRefusedIff(db: Db, appId: string, fnId: string)
    requires LoadsFunction(db, appId, fnId)
    ensures AfterDeleteFunction(db, appId, fnId, NO_FAILS).1 == Conflict <==> FunctionsOf(db, appId) == {fnId}
    ensures AfterDeleteFunction(db, appId, fnId, NO_FAILS).1 in [Conflict, NoContent]
  {
    var fns := FunctionsOf(db, appId);
    assert fnId in fns && |fns - {fnId}| == |fns| - 1;
    if |fns| <= 1 { assert fns - {fnId} == {}; }
  }

  // ---------- sources ----------

  /** A file name that PUT accepts: not empty, not rooted, and no two dots next to each other; slashes are welcome. */
  predicate PutAccepts(name: string) {
    name != "" && name[0] != '/' && forall i :: 0 < i < |name| ==> !(name[i - 1] == '.' && name[i] == '.')
  }

  lemma AdmittedIff(name: string)
    ensures K.Admitted(name) <==> PutAccepts(name)
  {
    assert HasPrefix(name, "/") <==> name != "" && name[0] == '/';
    forall i | 0 < i < |name|
      ensures name[i - 1..i + 1] == [name[i - 1], name[i]]
    {
    }
    var k := Find(name, "..");
    if k.Some? {
      assert name[k.value..k.value + 2][0] == '.' && name[k.value..k.value + 2][1] == '.';
      assert name[k.value + 1 - 1] == '.' && name[k.value + 1] == '.';
    }
    forall i | 0 < i < |name| && name[i - 1] == '.' && name[i] == '.'
      ensures OccursAt(name, "..", i - 1)
    {
      assert name[i - 1..i + 1] == "..";
    }
  }

  /**
    A PUT succeeds exactly when the function is the application's, there is a file, every name is accepted and the store
    takes it; then that source is all that changed.
  */
  lemma PutSucceedsIff(db: Db, appId: string, fnId: string, files: map<string, string>, now: nat, fails: Fails)
    ensures var r := AfterPutSource(db, appId, fnId, files, now, fails);
      && (r.1 == Okay <==>
            !fails.app && !fails.fn && !fails.write && LoadsFunction(db, appId, fnId) && files != map[]
            && forall n :: n in files ==> PutAccepts(n))
      && (r.1 == Okay ==> fnId in r.0.sources && r.0.sources[fnId].updatedAt == now)
      && (r.1 == Okay ==> r.0.(sources := db.sources) == db && r.0.sources - {fnId} == db.sources - {fnId})
  {
    forall n | n in files
      ensures K.Admitted(n) <==> PutAccepts(n)
    {
      AdmittedIff(n);
    }
  }

  /** What PUT stores is what it was given exactly when every name and every content is UTF-8. */
  lemma PutStoresIff(db: Db, appId: string, fnId: string, files: map<string, string>, now: nat)
    requires AfterPutSource(db, appId, fnId, files, now, NO_FAILS).1 == Okay
    ensures AfterPutSource(db, appId, fnId, files, now, NO_FAILS).0.sources[fnId].files == files <==> Json.AllText(files)
  {
    Json.StoredIff(files);
  }

  /** The archive of a file map is stored as the map with its names canonicalised exactly when all of that is UTF-8. */
  lemma ImportStoresTheArchiveIff(db: Db, appId: string, fnId: string, files: map<string, string>, now: nat)
    requires A.Packable(files)
    requires AfterImportSource(db, appId, fnId, Archived(A.Tar(files)), now, NO_FAILS).1 == Okay
    ensures AfterImportSource(db, appId, fnId, Archived(A.Tar(files)), now, NO_FAILS).0.sources[fnId].files == A.Canonical(files)
      <==> Json.AllText(A.Canonical(files))
  {
    A.ReadAfterWrite(files);
    Json.StoredIff(A.Canonical(files));
  }

  /** One file holding the octet 0xFF is admitted and stored as U+FFFD. */
  lemma StrayOctetIsStoredAltered(db: Db, appId: string, fnId: string, now: nat)
    requires LoadsFunction(db, appId, fnId)
    ensures var r := AfterImportSource(db, appId, fnId, Archived([A.Entry("a", [0xFF as char], true)]), now, NO_FAILS);
      r.1 == Okay && r.0.sources[fnId].files == map["a" := Json.REPLACEMENT] && Json.REPLACEMENT != [0xFF as char]
  {
    var c := 0xFF as char;
    ReadsOneFile([c]);
    assert Json.Codes("a") == [0x61];
    Json.StrayOctetIsAltered("a", c);
    assert map["a" := [c]] != map[] by { assert "a" in map["a" := [c]]; }
  }

  lemma ReadsOneFile(content: string)
    requires |content| <= A.MAX_UPLOAD
    ensures A.Untar([A.Entry("a", content, true)]) == Ok(map["a" := content])
  {
    var files := map["a" := content];
    PlainEntry("a");
    A.RefusedIff("a");
    A.HasNulIff("a");
    assert "a"[0] == 'a';
    A.EntryIsAccepted(files, "a", map[]);
    A.ReadLast([], A.EntryOf(files, "a"), map[], map["a" := content]);
    A.RefusedIff("a");
    assert A.EntryOf(files, "a") == A.Entry("a", content, true);
    assert [] + [A.EntryOf(files, "a")] == [A.Entry("a", content, true)];
  }

  /** What an import leaves in the store. */
  ghost function Imported(db: Db, appId: string, fnId: string, es: seq<A.Entry>, now: nat): (d: Db)
    requires AfterImportSource(db, appId, fnId, Archived(es), now, NO_FAILS).1 == Okay
    ensures fnId in d.sources && d.sources[fnId].files == Json.Stored(A.Untar(es).value)
  {
    AfterImportSource(db, appId, fnId, Archived(es), now, NO_FAILS).0
  }

  lemma StoredNamesAreCanonical(es: seq<A.Entry>, k: string)
    requires A.Untar(es).Ok? && k in Json.Stored(A.Untar(es).value)
    ensures k == "." || (EntryName(k) == k && !A.Refused(k) && (A.HasNul(k) <==> '\0' in k))
  {
    var n := Json.StoredName(A.Untar(es).value, k);
    A.ReadNamesAreSafe(es, n);
    A.HasNulIff(k);
    A.RefusedIff(k);
    if n == "." {
      Json.DotStays();
    } else {
      Json.CoerceKeepsCanonical(n);
    }
  }

  /** The file map can be exported, and importing the export stores it again. */
  ghost predicate ComesBack(d: Db, appId: string, fnId: string, files: map<string, string>, later: nat) {
    (forall n :: n in files ==> !A.Unwritable(n)) &&
    var again := AfterImportSource(d, appId, fnId, Archived(A.Tar(files)), later, NO_FAILS);
    again.1 == Okay && again.0.sources[fnId].files == files
  }

  /** What a file map from an import needs to be exported and imported again. */
  ghost predicate Portable(files: map<string, string>) {
    "." !in files && forall n :: n in files ==> '\0' !in n && |files[n]| <= A.MAX_UPLOAD
  }

  lemma ImportStores(d: Db, appId: string, fnId: string, es: seq<A.Entry>, files: map<string, string>, later: nat)
    requires LoadsFunction(d, appId, fnId) && A.Untar(es) == Ok(files) && files != map[] && Json.Stored(files) == files
    ensures var again := AfterImportSource(d, appId, fnId, Archived(es), later, NO_FAILS);
      again.1 == Okay && again.0.sources[fnId].files == files
  {
  }

  lemma PortableIsPackable(files: map<string, string>)
    requires Portable(files)
    requires forall n :: n in files && n != "." ==> EntryName(n) == n && !A.Refused(n) && (A.HasNul(n) <==> '\0' in n)
    ensures A.Packable(files) && A.Untar(A.Tar(files)) == Ok(files)
  {
    assert forall n :: n in files ==> n != ".";
    A.RoundTripIsIdentityIff(files);
  }

  lemma ComingBackIsPortable(d: Db, appId: string, fnId: string, files: map<string, string>, later: nat)
    requires ComesBack(d, appId, fnId, files, later)
    requires forall n :: n in files && n != "." ==> EntryName(n) == n && !A.Refused(n) && (A.HasNul(n) <==> '\0' in n)
    ensures Portable(files)
  {
    A.DotIsRefused();
    A.ReadSizes(files);
  }

  /**
    A source that was imported comes back from export and import exactly when it has no file ".", no NUL in a
    name, and no content that outgrew the limit when it was made UTF-8.
  */
  lemma ExportThenImportIff(db: Db, appId: string, fnId: string, es: seq<A.Entry>, now: nat, later: nat)
    requires AfterImportSource(db, appId, fnId, Archived(es), now, NO_FAILS).1 == Okay
    ensures var d := Imported(db, appId, fnId, es, now);
      ComesBack(d, appId, fnId, d.sources[fnId].files, later) <==> Portable(d.sources[fnId].files)
  {
    var d, read := Imported(db, appId, fnId, es, now), A.Untar(es).value;
    var files := d.sources[fnId].files;
    assert files == Json.Stored(read);
    Json.StoredEmptyIff(read);
    Json.StoredTwice(read);
    forall n | n in files && n != "."
      ensures EntryName(n) == n && !A.Refused(n) && (A.HasNul(n) <==> '\0' in n)
    {
      StoredNamesAreCanonical(es, n);
    }
    if Portable(files) {
      assert LoadsFunction(d, appId, fnId);
      PortableIsPackable(files);
      ImportStores(d, appId, fnId, A.Tar(files), files, later);
    } else if ComesBack(d, appId, fnId, files, later) {
      ComingBackIsPortable(d, appId, fnId, files, later);
    }
  }
}
