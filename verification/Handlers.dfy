/**
  The HTTP handlers that write the store, run one at a time: internal/httpapi/applications.go,
  functions.go, builds.go and archive.go.  Authentication and JSON decoding are outside the model.
*/
module Handlers {
  import opened Wrappers
  import opened Strings
  import opened Policy
  import opened Store
  import opened Sqlite
  import opened Paths
  import Json
  import A = Archive
  import K = Packing
  import M = Manifest
  import Protocol
  import D = Deploy
  import ImageRef

  const TENANT := Protocol.TENANT

  datatype Reply = Created | Okay | NoContent | BadRequest | Missing | Conflict | Internal | BadGateway

  /** Which of the three statements of a creation the database fails. */
  datatype Faults = Faults(first: bool, second: bool, third: bool)

  /** Which store calls of another handler the database fails: loading the application or the function, listing, writing. */
  datatype Fails = Fails(app: bool, fn: bool, list: bool, write: bool)

  const NO_FAILS := Fails(false, false, false, false)

  datatype NewApplication = NewApplication(name: string, language: string, runtime: string, description: string)

  // ---------- what each handler does to the store ----------

  function RuntimeOf(s: string): Option<Runtime> {
    if s == "" || s == "spinkube" then Some(SpinKube) else if s == "workerpool" then Some(WorkerPool) else None
  }

  /** The languages that can be built. */
  predicate HasBuilder(language: string) {
    language in ["go", "js", "ts", "rust"]
  }

  predicate GoodInput(n: NewApplication) {
    ImageRef.Dns1123(n.name) && HasBuilder(n.language) && RuntimeOf(n.runtime).Some?
  }

  function Fresh(n: NewApplication, id: string): Application
    requires GoodInput(n)
  {
    Application(id, TENANT, n.name, n.language, RuntimeOf(n.runtime).value, n.description, 1, [], Resources("", "", "", ""), 0, 0)
  }

  function DefaultFunction(appId: string, id: string): Function {
    Function(id, appId, "default", "/...", 0, 0)
  }

  ghost function Try(r: Result<Db, StoreError>, fault: bool): Result<Db, StoreError> {
    if fault then Err(Constraint) else r
  }

  ghost function AfterCreateApplication(db: Db, n: NewApplication, appId: string, fnId: string, now: nat, f: Faults): (Db, Reply) {
    if !GoodInput(n) then (db, BadRequest)
    else
      var r1 := Try(InsertApplication(db, Fresh(n, appId), now), f.first);
      if r1.Err? then (db, Internal)
      else
        var r2 := Try(InsertFunction(r1.value, DefaultFunction(appId, fnId), now), f.second);
        if r2.Ok? then (r2.value, Created)
        else
          var r3 := Try(DeleteApplication(r1.value, TENANT, appId), f.third);
          (if r3.Ok? then r3.value else r1.value, Internal)
  }

  predicate LoadsFunction(db: Db, appId: string, fnId: string) {
    Protocol.HasApplication(db, appId) && HasFunction(db, appId, fnId)
  }

  /** The reply of loadApplication when it does not answer the application. */
  function LoadRefusal(db: Db, appId: string, fails: Fails): Option<Reply> {
    if fails.app then Some(Internal) else if !Protocol.HasApplication(db, appId) then Some(Missing) else None
  }

  /** The reply of loadFunction when it does not answer the function. */
  function FunctionRefusal(db: Db, appId: string, fnId: string, fails: Fails): Option<Reply> {
    var refusal := LoadRefusal(db, appId, fails);
    if refusal.Some? then refusal
    else if fails.fn then Some(Internal) else if !HasFunction(db, appId, fnId) then Some(Missing) else None
  }

  ghost function Settle(db: Db, r: Result<Db, StoreError>, good: Reply): (Db, Reply) {
    if r.Ok? then (r.value, good) else (db, Internal)
  }

  ghost function AfterCreateFunction(db: Db, appId: string, fnId: string, name: string, route: string, now: nat, fails: Fails): (Db, Reply) {
    var refusal := LoadRefusal(db, appId, fails);
    if refusal.Some? then (db, refusal.value)
    else if !ImageRef.Dns1123(name) then (db, BadRequest)
    else
      var f := Function(fnId, appId, name, if route == "" then "/" + name + "/..." else route, 0, 0);
      Settle(db, Try(InsertFunction(db, f, now), fails.write), Created)
  }

  ghost function AfterUpdateFunction(db: Db, appId: string, fnId: string, route: string, now: nat, fails: Fails): (Db, Reply) {
    var refusal := FunctionRefusal(db, appId, fnId, fails);
    if refusal.Some? then (db, refusal.value)
    else if route == "" || route[0] != '/' then (db, BadRequest)
    else Settle(db, Try(UpdateRoute(db, appId, fnId, route, now), fails.write), Okay)
  }

  ghost function AfterDeleteFunction(db: Db, appId: string, fnId: string, fails: Fails): (Db, Reply) {
    var refusal := FunctionRefusal(db, appId, fnId, fails);
    if refusal.Some? then (db, refusal.value)
    else if fails.list then (db, Internal)
    else if |FunctionsOf(db, appId)| <= 1 then (db, Conflict)
    else Settle(db, Try(Store.DeleteFunction(db, appId, fnId), fails.write), NoContent)
  }

  ghost function AfterDeleteApplication(db: Db, appId: string, undeployed: bool, fails: Fails): (Db, Reply) {
    var refusal := LoadRefusal(db, appId, fails);
    if refusal.Some? then (db, refusal.value)
    else if db.applications[appId].runtime != WorkerPool && !undeployed then (db, BadGateway)
    else Settle(db, Try(DeleteApplication(db, TENANT, appId), fails.write), NoContent)
  }

  ghost function AfterPutSource(db: Db, appId: string, fnId: string, files: map<string, string>, now: nat, fails: Fails): (Db, Reply) {
    var refusal := FunctionRefusal(db, appId, fnId, fails);
    if refusal.Some? then (db, refusal.value)
    else if files == map[] || exists n :: n in files && !K.Admitted(n) then (db, BadRequest)
    else Settle(db, Try(Store.PutSource(db, fnId, files, now), fails.write), Okay)
  }

  /** The body of an import: an archive, or one that is no archive or is cut off at the 8 MiB that are read. */
  datatype Upload = Archived(es: seq<A.Entry>) | Broken

  ghost function AfterImportSource(db: Db, appId: string, fnId: string, up: Upload, now: nat, fails: Fails): (Db, Reply) {
    var refusal := FunctionRefusal(db, appId, fnId, fails);
    if refusal.Some? then (db, refusal.value)
    else if up.Broken? then (db, BadRequest)
    else
      var r := A.Untar(up.es);
      if r.Err? || r.value == map[] then (db, BadRequest)
      else Settle(db, Try(Store.PutSource(db, fnId, r.value, now), fails.write), Okay)
  }

  /** The answer to a refused PATCH: the caller's fault, unless the policy itself is broken. */
  function Refusal(env: Protocol.Env, app: Application, input: Protocol.PatchInput): Reply {
    var replicas := if input.replicas.Some? then input.replicas.value else app.replicas;
    var named := input.variables.None?
      || forall i :: 0 <= i < |input.variables.value| ==> Protocol.VariableName(input.variables.value[i].name);
    var r := Policy.Apply(env.deploy.policy, if input.resources.Some? then input.resources.value else app.resources);
    if replicas >= 0 && named && r.Err? && !r.error.Violation? then Internal else BadRequest
  }

  /** Whether a PATCH ends in a re-apply that the cluster takes. */
  ghost predicate Reapplies(env: Protocol.Env, spinApps: map<string, D.SpinApp>, db: Db, appId: string, input: Protocol.PatchInput,
                            reply: Reply, readable: bool, spinUp: bool) {
    reply == Okay && Protocol.HasApplication(db, appId) && readable && spinUp &&
    var p := Protocol.Patched(env, db.applications[appId], input);
    p.Some? && Protocol.TouchesCluster(p.value, input) && p.value.name in spinApps && spinApps[p.value.name].image != ""
  }

  /** The cluster after a PATCH: re-applied with its own image when something it sees changed. */
  ghost function Reapplied(env: Protocol.Env, spinApps: map<string, D.SpinApp>, db: Db, appId: string, input: Protocol.PatchInput,
                           reply: Reply, readable: bool, spinUp: bool): map<string, D.SpinApp> {
    if !Reapplies(env, spinApps, db, appId, input, reply, readable, spinUp) then spinApps
    else
      var app := Protocol.Patched(env, db.applications[appId], input).value;
      spinApps[app.name := D.Desired(env.deploy, app, spinApps[app.name].image, 0)]
  }

  ghost function AfterPatch(env: Protocol.Env, db: Db, appId: string, input: Protocol.PatchInput, now: nat, fails: Fails): (Db, Reply) {
    var refusal := LoadRefusal(db, appId, fails);
    if refusal.Some? then (db, refusal.value)
    else
      var p := Protocol.Patched(env, db.applications[appId], input);
      if p.None? then (db, Refusal(env, db.applications[appId], input))
      else Settle(db, Try(UpdateConfig(db, TENANT, appId, p.value.description, p.value.replicas, p.value.variables,
                                       p.value.resources, now), fails.write), Okay)
  }

  // ---------- the handlers ----------

  class Server {
    const store: SqliteStore
    const deployer: D.Deployer

    constructor (store: SqliteStore, deployer: D.Deployer)
      ensures this.store == store && this.deployer == deployer
    {
      this.store, this.deployer := store, deployer;
    }

    /** Creates an application with its first function, and removes it again when that fails. */
    method CreateApplication(n: NewApplication, appId: string, fnId: string, now: nat, f: Faults) returns (reply: Reply)
      requires ValidDb(store.View())
      modifies store
      ensures (store.View(), reply) == AfterCreateApplication(old(store.View()), n, appId, fnId, now, f)
    {
      if !ImageRef.Dns1123(n.name) { return BadRequest; }
      if !HasBuilder(n.language) { return BadRequest; }
      if RuntimeOf(n.runtime).None? { return BadRequest; }
      InsertApplicationKeepsSchema(store.View(), Fresh(n, appId), now);
      var failed := store.CreateApplication(Fresh(n, appId), now, f.first);
      if failed.Some? { return Internal; }
      failed := store.CreateFunction(DefaultFunction(appId, fnId), now, f.second);
      if failed.Some? {
        var _ := store.DeleteApplication(TENANT, appId, f.third);
        return Internal;
      }
      return Created;
    }

    /** What every handler begins with: the application, or the reply when it cannot be had. */
    method LoadApplication(appId: string, fails: Fails) returns (r: Result<Application, Reply>)
      ensures r.Ok? <==> LoadRefusal(store.View(), appId, fails).None?
      ensures r.Ok? ==> r.value == store.applications[appId]
      ensures r.Err? ==> LoadRefusal(store.View(), appId, fails) == Some(r.error)
    {
      var app := store.GetApplication(TENANT, appId, fails.app);
      if app.Ok? { return Ok(app.value); }
      return Err(if app.error == Rejected(NotFound) then Missing else Internal);
    }

    method LoadFunction(appId: string, fnId: string, fails: Fails) returns (r: Result<Function, Reply>)
      ensures r.Ok? <==> FunctionRefusal(store.View(), appId, fnId, fails).None?
      ensures r.Ok? ==> r.value == store.functions[fnId]
      ensures r.Err? ==> FunctionRefusal(store.View(), appId, fnId, fails) == Some(r.error)
    {
      var app := LoadApplication(appId, fails);
      if app.Err? { return Err(app.error); }
      var fn := store.GetFunction(appId, fnId, fails.fn);
      if fn.Ok? { return Ok(fn.value); }
      return Err(if fn.error == Rejected(NotFound) then Missing else Internal);
    }

    method CreateFunction(appId: string, fnId: string, name: string, route: string, now: nat, fails: Fails) returns (reply: Reply)
      modifies store
      ensures (store.View(), reply) == AfterCreateFunction(old(store.View()), appId, fnId, name, route, now, fails)
    {
      var app := LoadApplication(appId, fails);
      if app.Err? { return app.error; }
      if !ImageRef.Dns1123(name) { return BadRequest; }
      var r := route;
      if r == "" { r := "/" + name + "/..."; }
      var failed := store.CreateFunction(Function(fnId, appId, name, r, 0, 0), now, fails.write);
      return if failed.Some? then Internal else Created;
    }

    method UpdateFunction(appId: string, fnId: string, route: string, now: nat, fails: Fails) returns (reply: Reply)
      modifies store
      ensures (store.View(), reply) == AfterUpdateFunction(old(store.View()), appId, fnId, route, now, fails)
    {
      var fn := LoadFunction(appId, fnId, fails);
      if fn.Err? { return fn.error; }
      if route == "" || route[0] != '/' { return BadRequest; }
      var failed := store.UpdateFunctionRoute(appId, fnId, route, now, fails.write);
      return if failed.Some? then Internal else Okay;
    }

    /** Refuses to remove the last function. */
    method DeleteFunction(appId: string, fnId: string, fails: Fails) returns (reply: Reply)
      requires ValidDb(store.View())
      modifies store
      ensures (store.View(), reply) == AfterDeleteFunction(old(store.View()), appId, fnId, fails)
    {
      var fn := LoadFunction(appId, fnId, fails);
      if fn.Err? { return fn.error; }
      var all := store.ListFunctions(appId, fails.list);
      if all.Err? { return Internal; }
      ListCounts(store.View(), appId, all.value);
      if |all.value| <= 1 { return Conflict; }
      var failed := store.DeleteFunction(appId, fnId, fails.write);
      return if failed.Some? then Internal else NoContent;
    }

    method DeleteApplication(appId: string, spinUp: bool, ingressUp: bool, fails: Fails) returns (reply: Reply)
      requires ValidDb(store.View())
      modifies store, deployer
      ensures (store.View(), reply) == AfterDeleteApplication(old(store.View()), appId, spinUp, fails)
      ensures deployer.spinApps ==
        if LoadRefusal(old(store.View()), appId, fails).None? && old(store.applications)[appId].runtime != WorkerPool && spinUp
        then old(deployer.spinApps) - {old(store.applications)[appId].name} else old(deployer.spinApps)
      ensures deployer.services ==
        if LoadRefusal(old(store.View()), appId, fails).None? && old(store.applications)[appId].runtime != WorkerPool && spinUp
           && ingressUp && deployer.config.ingress
        then old(deployer.services) - {old(store.applications)[appId].name} else old(deployer.services)
    {
      var app := LoadApplication(appId, fails);
      if app.Err? { return app.error; }
      if app.value.runtime != WorkerPool {
        var ok := deployer.Undeploy(app.value.name, spinUp, ingressUp);
        if !ok { return BadGateway; }
      }
      var failed := store.DeleteApplication(TENANT, appId, fails.write);
      return if failed.Some? then Internal else NoContent;
    }

    method PutSource(appId: string, fnId: string, files: map<string, string>, now: nat, fails: Fails) returns (reply: Reply)
      modifies store
      ensures (store.View(), reply) == AfterPutSource(old(store.View()), appId, fnId, files, now, fails)
    {
      var fn := LoadFunction(appId, fnId, fails);
      if fn.Err? { return fn.error; }
      if files == map[] { return BadRequest; }
      var bad := K.ValidatePaths(files);
      if bad.Some? { return BadRequest; }
      var failed := store.PutSource(fnId, files, now, fails.write);
      return if failed.Some? then Internal else Okay;
    }

    method ImportSource(appId: string, fnId: string, up: Upload, now: nat, fails: Fails) returns (reply: Reply)
      modifies store
      ensures (store.View(), reply) == AfterImportSource(old(store.View()), appId, fnId, up, now, fails)
    {
      var fn := LoadFunction(appId, fnId, fails);
      if fn.Err? { return fn.error; }
      if up.Broken? { return BadRequest; }
      var files := A.ReadTar(up.es);
      if files.Err? || files.value == map[] { return BadRequest; }
      var failed := store.PutSource(fnId, files.value, now, fails.write);
      return if failed.Some? then Internal else Okay;
    }

    /** The sources of the functions, in their order, or the reply when one cannot be had. */
    method ReadSources(fns: seq<Function>, unreadable: set<string>) returns (r: Result<seq<K.BuildInput>, Reply>)
      ensures r.Ok? <==> forall j :: 0 <= j < |fns| ==> fns[j].id in store.sources && fns[j].id !in unreadable
      ensures r.Ok? ==> |r.value| == |fns|
      ensures r.Ok? ==> forall j :: 0 <= j < |fns| ==> r.value[j] == InputOf(fns[j], store.sources[fns[j].id])
      ensures r == Err(Internal) ==> exists j :: 0 <= j < |fns| && fns[j].id in unreadable
      ensures r == Err(BadRequest) ==> exists j :: 0 <= j < |fns| && fns[j].id !in store.sources
      ensures r.Err? ==> r.error == Internal || r.error == BadRequest
    {
      var ins: seq<K.BuildInput> := [];
      for i := 0 to |fns|
        invariant |ins| == i
        invariant forall j :: 0 <= j < i ==> fns[j].id in store.sources && ins[j] == InputOf(fns[j], store.sources[fns[j].id])
        invariant forall j :: 0 <= j < i ==> fns[j].id !in unreadable
      {
        var src := store.GetSource(fns[i].id, fns[i].id in unreadable);
        if src.Err? { return Err(if src.error == Rejected(NotFound) then BadRequest else Internal); }
        ins := ins + [InputOf(fns[i], src.value)];
      }
      return Ok(ins);
    }

    /** The inputs of a build of this application, or the reply when they cannot be had. */
    method LoadInputs(appId: string, fails: Fails, unreadable: set<string>) returns (r: Result<seq<K.BuildInput>, Reply>)
      requires ValidDb(store.View()) && CleanRows(store.View()) && Protocol.HasApplication(store.View(), appId)
      ensures r.Ok? <==> !fails.list && Buildable(store.View(), appId) && Readable(store.View(), appId, unreadable)
      ensures r.Ok? ==> r.value != [] && AreInputs(store.View(), appId, r.value) && K.GoodInputs(r.value) && K.AllContained(r.value)
      ensures r.Ok? ==> (K.NulFreeFiles(r.value) <==> NulFree(store.View(), appId))
      ensures r == Err(Internal) ==> fails.list || !Readable(store.View(), appId, unreadable)
      ensures r == Err(BadRequest) ==> !Buildable(store.View(), appId)
      ensures r.Err? ==> r.error == Internal || r.error == BadRequest
    {
      var fns := store.ListFunctions(appId, fails.list);
      if fns.Err? { return Err(Internal); }
      ListCounts(store.View(), appId, fns.value);
      if fns.value == [] { return Err(BadRequest); }
      ListedIsOwn(store.View(), appId, fns.value);
      r := ReadSources(fns.value, unreadable);
      if r.Ok? {
        InputsAreGood(store.View(), appId, fns.value, r.value);
        NulFreeInputs(store.View(), appId, fns.value, r.value);
      }
    }

    /** The builder's part: the context of the inputs, packed. */
    method PackInputs(app: Application, ins: seq<K.BuildInput>) returns (r: Result<seq<A.Entry>, Reply>, ghost files: map<string, string>)
      requires ins != [] && K.GoodInputs(ins) && K.AllContained(ins)
      ensures r.Ok? <==> HasBuilder(app.language) && K.NulFreeFiles(ins)
      ensures r.Ok? ==> K.IsContext(app.language, app.name, ins, files) && r.value == A.Tar(files)
      ensures r.Err? ==> r.error == BadGateway
    {
      files := map[];
      if !HasBuilder(app.language) { r := Err(BadGateway); return; }
      var ctx := K.BuildContext(app.language, app.name, ins);
      assert ctx.Ok?;
      files := ctx.value;
      K.ContextIsPackableIff(app.language, app.name, ins, ctx.value);
      var tar := A.WriteTar(ctx.value);
      r := if tar.Err? then Err(BadGateway) else Ok(tar.value);
    }

    /**
      startBuild up to the archive it hands to the cluster: the functions by name, each with its source,
      and the context made of them.  It gets there exactly when the queries succeed, there is a function, each has a
      source, the language has a builder, and no file name holds a NUL once it is cleaned.
    */
    method PrepareBuild(appId: string, fails: Fails, unreadable: set<string>)
      returns (r: Result<seq<A.Entry>, Reply>, ghost inputs: seq<K.BuildInput>, ghost files: map<string, string>)
      requires ValidDb(store.View()) && CleanRows(store.View())
      ensures r == Err(Missing) <==> LoadRefusal(store.View(), appId, fails) == Some(Missing)
      ensures r == Err(BadRequest) ==> !Buildable(store.View(), appId)
      ensures r == Err(Internal) ==> fails.app || fails.list || !Readable(store.View(), appId, unreadable)
      ensures r == Err(BadGateway) ==> Protocol.HasApplication(store.View(), appId) && Buildable(store.View(), appId)
      ensures r == Err(BadGateway) ==> !HasBuilder(store.applications[appId].language) || !NulFree(store.View(), appId)
      ensures r.Ok? <==> Builds(store.View(), appId, fails, unreadable)
      ensures r.Ok? ==> AreInputs(store.View(), appId, inputs) && K.GoodInputs(inputs)
      ensures r.Ok? ==> K.IsContext(store.applications[appId].language, store.applications[appId].name, inputs, files)
      ensures r.Ok? ==> r.value == A.Tar(files)
      ensures r.Err? ==> r.error == Missing || r.error == BadRequest || r.error == Internal || r.error == BadGateway
    {
      inputs, files := [], map[];
      var app := LoadApplication(appId, fails);
      if app.Err? { r := Err(app.error); return; }
      var ins := LoadInputs(appId, fails, unreadable);
      if ins.Err? { r := Err(ins.error); return; }
      inputs := ins.value;
      r, files := PackInputs(app.value, ins.value);
    }

    /** The variables, rebuilt in place one by one, or None at the first bad name. */
    method CheckedVariables(given: seq<Variable>) returns (r: Option<seq<Variable>>)
      ensures r.Some? <==> forall i :: 0 <= i < |given| ==> Protocol.VariableName(given[i].name)
      ensures r.Some? ==> r.value == given
    {
      var vars: seq<Variable> := [];
      for i := 0 to |given|
        invariant vars == given[..i]
        invariant forall j :: 0 <= j < i ==> Protocol.VariableName(given[j].name)
      {
        if !Protocol.VariableName(given[i].name) { return None; }
        vars := vars + [given[i]];
      }
      return Some(vars);
    }

    /** The row with what the PATCH gives put in and the policy applied, or the answer to a bad PATCH. */
    method Merge(ghost env: Protocol.Env, loaded: Application, input: Protocol.PatchInput) returns (row: Option<Application>, refusal: Reply)
      requires env.deploy == deployer.config
      ensures row == Protocol.Patched(env, loaded, input)
      ensures row.Some? ==>
        && Protocol.Follows(input.description, loaded.description, row.value.description)
        && Protocol.Follows(input.variables, loaded.variables, row.value.variables)
        && Protocol.Follows(input.replicas, loaded.replicas, row.value.replicas)
        && (env.deploy.policy.mode != "forced" ==> Protocol.Follows(input.resources, loaded.resources, row.value.resources))
      ensures row.None? ==> refusal == Refusal(env, loaded, input)
    {
      var app := loaded;
      refusal := BadRequest;
      if input.description.Some? { app := app.(description := input.description.value); }
      if input.replicas.Some? { app := app.(replicas := input.replicas.value); }
      if app.replicas < 0 { return None, BadRequest; }
      if input.variables.Some? {
        var checked := CheckedVariables(input.variables.value);
        if checked.None? { return None, BadRequest; }
        app := app.(variables := checked.value);
      }
      if input.resources.Some? { app := app.(resources := input.resources.value); }
      var cleaned := Policy.Apply(deployer.config.policy, app.resources);
      if cleaned.Err? { return None, if cleaned.error.Violation? then BadRequest else Internal; }
      return Some(app.(resources := cleaned.value)), Okay;
    }

    /** The end of the PATCH: what is deployed is read and applied again with its own image. */
    method Reapply(app: Application, readable: bool, spinUp: bool, ingressUp: bool)
      modifies deployer
      ensures var c := deployer.config;
        var now := readable && spinUp && app.name in old(deployer.spinApps) && old(deployer.spinApps)[app.name].image != "";
        && deployer.spinApps == (if now
             then old(deployer.spinApps)[app.name := D.Desired(c, app, old(deployer.spinApps)[app.name].image, 0)]
             else old(deployer.spinApps))
        && deployer.services == (if now && D.IngressOn(c, ingressUp)
             then old(deployer.services)[app.name := D.Service(c, app)] else old(deployer.services))
    {
      if readable && app.name in deployer.spinApps && deployer.spinApps[app.name].image != "" {
        var _ := deployer.Deploy(app, deployer.spinApps[app.name].image, 0, spinUp, ingressUp);
      }
    }

    /** The config PATCH, and the re-apply of what is deployed when the cluster would see a difference. */
    method UpdateApplication(ghost env: Protocol.Env, appId: string, input: Protocol.PatchInput, now: nat, fails: Fails,
                             readable: bool, spinUp: bool, ingressUp: bool) returns (reply: Reply)
      requires env.deploy == deployer.config && ValidDb(store.View())
      modifies store, deployer
      ensures (store.View(), reply) == AfterPatch(env, old(store.View()), appId, input, now, fails)
      ensures deployer.spinApps == Reapplied(env, old(deployer.spinApps), old(store.View()), appId, input, reply, readable, spinUp)
      ensures deployer.services ==
        if Reapplies(env, old(deployer.spinApps), old(store.View()), appId, input, reply, readable, spinUp)
           && D.IngressOn(env.deploy, ingressUp)
        then old(deployer.services)[old(store.applications)[appId].name := D.Service(env.deploy, old(store.applications)[appId])]
        else old(deployer.services)
    {
      var found := LoadApplication(appId, fails);
      if found.Err? { return found.error; }
      assert found.value.id == appId;
      var row, refusal := Merge(env, found.value, input);
      if row.None? { return refusal; }
      var app := row.value;
      var failed := store.UpdateApplicationConfig(TENANT, app.id, app.description, app.replicas, app.variables, app.resources, now, fails.write);
      if failed.Some? { return Internal; }
      if Protocol.TouchesCluster(app, input) {
        Reapply(app, readable, spinUp, ingressUp);
      }
      return Okay;
    }
  }

  function InputOf(f: Function, s: Source): K.BuildInput {
    K.BuildInput(f.name, f.route, s.files)
  }

  /** The application has functions and each has a source. */
  ghost predicate Buildable(db: Db, appId: string) {
    FunctionsOf(db, appId) != {} && forall k :: k in FunctionsOf(db, appId) ==> k in db.sources
  }

  /** No file of the application has a NUL in its cleaned name, which no archive can hold. */
  ghost predicate NulFree(db: Db, appId: string) {
    forall k, rel :: k in FunctionsOf(db, appId) && k in db.sources && rel in db.sources[k].files ==> '\0' !in EntryName(rel)
  }

  ghost predicate Readable(db: Db, appId: string, unreadable: set<string>) {
    forall k :: k in FunctionsOf(db, appId) ==> k !in unreadable
  }

  /** When a build gets as far as its archive. */
  ghost predicate Builds(db: Db, appId: string, fails: Fails, unreadable: set<string>) {
    && LoadRefusal(db, appId, fails).None? && !fails.list
    && Buildable(db, appId) && Readable(db, appId, unreadable)
    && HasBuilder(db.applications[appId].language) && NulFree(db, appId)
  }

  /** The list holds the application's own functions, and all of them. */
  lemma ListedIsOwn(db: Db, appId: string, fns: seq<Function>)
    requires KeysMatch(db)
    requires forall f :: f in fns <==> f.id in db.functions && db.functions[f.id] == f && f.applicationID == appId
    ensures forall j :: 0 <= j < |fns| ==> fns[j].id in FunctionsOf(db, appId)
    ensures forall k :: k in FunctionsOf(db, appId) ==> exists j :: 0 <= j < |fns| && fns[j].id == k
  {
    forall k | k in FunctionsOf(db, appId)
      ensures exists j :: 0 <= j < |fns| && fns[j].id == k
    {
      assert db.functions[k] in fns;
    }
  }

  /** The inputs are the application's functions with their sources, each once. */
  ghost predicate AreInputs(db: Db, appId: string, inputs: seq<K.BuildInput>) {
    |inputs| == |FunctionsOf(db, appId)| &&
    forall k :: k in FunctionsOf(db, appId) ==> k in db.sources && InputOf(db.functions[k], db.sources[k]) in inputs
  }

  lemma InputsAreGood(db: Db, appId: string, fns: seq<Function>, ins: seq<K.BuildInput>)
    requires ValidDb(db) && CleanRows(db) && SortedBy(FunctionName, fns)
    requires forall f :: f in fns <==> f.id in db.functions && db.functions[f.id] == f && f.applicationID == appId
    requires |ins| == |fns|
    requires forall j :: 0 <= j < |fns| ==> fns[j].id in db.sources && ins[j] == InputOf(fns[j], db.sources[fns[j].id])
    ensures AreInputs(db, appId, ins) && K.GoodInputs(ins) && K.AllContained(ins)
    ensures fns != [] ==> Buildable(db, appId)
  {
    ListCounts(db, appId, fns);
    forall k | k in FunctionsOf(db, appId)
      ensures k in db.sources && InputOf(db.functions[k], db.sources[k]) in ins
    {
      assert db.functions[k] in fns;
      var j :| 0 <= j < |fns| && fns[j] == db.functions[k];
      assert ins[j] == InputOf(fns[j], db.sources[fns[j].id]);
    }
    forall i | 0 <= i < |ins|
      ensures ImageRef.Dns1123(ins[i].name)
    {
      assert fns[i] in fns;
    }
    forall i, j | 0 <= i < j < |ins|
      ensures ins[i].name != ins[j].name
    {
      assert FunctionName(fns[i]) != FunctionName(fns[j]);
    }
    forall i, rel | 0 <= i < |ins| && rel in ins[i].files
      ensures K.Contained(rel)
    {
      assert fns[i].id in db.sources;
    }
  }

  lemma NulFreeInputs(db: Db, appId: string, fns: seq<Function>, ins: seq<K.BuildInput>)
    requires forall f :: f in fns <==> f.id in db.functions && db.functions[f.id] == f && f.applicationID == appId
    requires KeysMatch(db) && |ins| == |fns|
    requires forall j :: 0 <= j < |fns| ==> fns[j].id in db.sources && ins[j] == InputOf(fns[j], db.sources[fns[j].id])
    ensures K.NulFreeFiles(ins) <==> NulFree(db, appId)
  {
    ListedIsOwn(db, appId, fns);
    forall j | 0 <= j < |fns|
      ensures fns[j].id in FunctionsOf(db, appId) && ins[j].files == db.sources[fns[j].id].files
    {
      assert fns[j] in fns;
    }
  }

  lemma {:induction false} DistinctCount(xs: seq<Function>, ids: set<string>)
    requires forall i, j :: 0 <= i < j < |xs| ==> xs[i].id != xs[j].id
    requires forall i :: 0 <= i < |xs| ==> xs[i].id in ids
    requires forall k :: k in ids ==> exists i :: 0 <= i < |xs| && xs[i].id == k
    ensures |ids| == |xs|
  {
    if xs == [] {
      assert ids == {};
    } else {
      var n := |xs| - 1;
      DistinctCount(xs[..n], ids - {xs[n].id});
    }
  }

  lemma ListCounts(db: Db, appId: string, all: seq<Function>)
    requires ValidDb(db) && SortedBy(FunctionName, all)
    requires forall f :: f in all <==> f.id in db.functions && db.functions[f.id] == f && f.applicationID == appId
    ensures |FunctionsOf(db, appId)| == |all|
  {
    forall i, j | 0 <= i < j < |all|
      ensures all[i].id != all[j].id
    {
      assert all[i] in all && all[j] in all && FunctionName(all[i]) != FunctionName(all[j]);
    }
    forall i | 0 <= i < |all|
      ensures all[i].id in FunctionsOf(db, appId)
    {
      assert all[i] in all;
    }
    forall k | k in FunctionsOf(db, appId)
      ensures exists i :: 0 <= i < |all| && all[i].id == k
    {
      assert db.functions[k] in all;
      var i :| 0 <= i < |all| && all[i] == db.functions[k];
      assert all[i].id == k;
    }
    DistinctCount(all, FunctionsOf(db, appId));
  }

  // ---------- what the handlers keep, one at a time ----------

  ghost predicate EveryAppHasFunction(db: Db) {
    forall id :: id in db.applications ==> FunctionsOf(db, id) != {}
  }

  /** Names and sources are those the handlers let in. */
  ghost predicate CleanRows(db: Db) {
    (forall k :: k in db.functions ==> ImageRef.Dns1123(db.functions[k].name)) &&
    (forall k, rel :: k in db.sources && rel in db.sources[k].files ==> K.Contained(rel))
  }

  ghost predicate HandlersInv(db: Db) {
    ValidDb(db) && EveryAppHasFunction(db) && CleanRows(db)
  }

  datatype Call =
    | CreateApplicationCall(n: NewApplication, appId: string, fnId: string, now: nat, f: Faults)
    | CreateFunctionCall(appId: string, fnId: string, name: string, route: string, now: nat, fails: Fails)
    | UpdateFunctionCall(appId: string, fnId: string, route: string, now: nat, fails: Fails)
    | DeleteFunctionCall(appId: string, fnId: string, fails: Fails)
    | DeleteApplicationCall(appId: string, undeployed: bool, fails: Fails)
    | PutSourceCall(appId: string, fnId: string, files: map<string, string>, now: nat, fails: Fails)
    | ImportSourceCall(appId: string, fnId: string, up: Upload, now: nat, fails: Fails)
    | PatchCall(env: Protocol.Env, appId: string, input: Protocol.PatchInput, now: nat, fails: Fails)

  ghost function Handle(db: Db, c: Call): Db {
    match c
    case CreateApplicationCall(n, appId, fnId, now, f) => AfterCreateApplication(db, n, appId, fnId, now, f).0
    case CreateFunctionCall(appId, fnId, name, route, now, fails) => AfterCreateFunction(db, appId, fnId, name, route, now, fails).0
    case UpdateFunctionCall(appId, fnId, route, now, fails) => AfterUpdateFunction(db, appId, fnId, route, now, fails).0
    case DeleteFunctionCall(appId, fnId, fails) => AfterDeleteFunction(db, appId, fnId, fails).0
    case DeleteApplicationCall(appId, undeployed, fails) => AfterDeleteApplication(db, appId, undeployed, fails).0
    case PutSourceCall(appId, fnId, files, now, fails) => AfterPutSource(db, appId, fnId, files, now, fails).0
    case ImportSourceCall(appId, fnId, up, now, fails) => AfterImportSource(db, appId, fnId, up, now, fails).0
    case PatchCall(env, appId, input, now, fails) => AfterPatch(env, db, appId, input, now, fails).0
  }

  /** The application row went in, its first function did not, and the removal failed as well. */
  ghost predicate Stranded(db: Db, c: Call) {
    c.CreateApplicationCall? && GoodInput(c.n) && c.f.third && !c.f.first
    && InsertApplication(db, Fresh(c.n, c.appId), c.now).Ok?
    && Try(InsertFunction(InsertApplication(db, Fresh(c.n, c.appId), c.now).value, DefaultFunction(c.appId, c.fnId), c.now), c.f.second).Err?
  }

  lemma CreateKeeps(db: Db, n: NewApplication, appId: string, fnId: string, now: nat, f: Faults)
    requires HandlersInv(db)
    ensures HandlersInv(AfterCreateApplication(db, n, appId, fnId, now, f).0)
      <==> !Stranded(db, CreateApplicationCall(n, appId, fnId, now, f))
  {
    if GoodInput(n) && !f.first && InsertApplication(db, Fresh(n, appId), now).Ok? {
      var a := Fresh(n, appId);
      var d1 := InsertApplication(db, a, now).value;
      InsertApplicationKeepsSchema(db, a, now);
      DeleteUndoesCreate(db, a, now);
      NewAppHasNoFunction(db, a, now);
      var r2 := Try(InsertFunction(d1, DefaultFunction(appId, fnId), now), f.second);
      if r2.Ok? {
        InsertFunctionKeepsSchema(d1, DefaultFunction(appId, fnId), now);
        FirstFunctionCompletes(db, a, fnId, now);
      } else if f.third {
        assert !EveryAppHasFunction(d1);
      }
    }
  }

  lemma NewAppHasNoFunction(db: Db, a: Application, now: nat)
    requires ValidDb(db) && InsertApplication(db, a, now).Ok?
    ensures FunctionsOf(InsertApplication(db, a, now).value, a.id) == {}
  {
  }

  lemma DefaultIsDns()
    ensures ImageRef.Dns1123("default")
  {
  }

  lemma FirstFunctionCompletes(db: Db, a: Application, fnId: string, now: nat)
    requires HandlersInv(db) && InsertApplication(db, a, now).Ok?
    requires InsertFunction(InsertApplication(db, a, now).value, DefaultFunction(a.id, fnId), now).Ok?
    ensures var d := InsertFunction(InsertApplication(db, a, now).value, DefaultFunction(a.id, fnId), now).value;
      EveryAppHasFunction(d) && CleanRows(d)
  {
    DefaultIsDns();
    var d := InsertFunction(InsertApplication(db, a, now).value, DefaultFunction(a.id, fnId), now).value;
    NewFunctionKeeps(db, d, a.id, fnId);
  }

  /** One more application with a function of its own. */
  lemma NewFunctionKeeps(db: Db, d: Db, appId: string, fnId: string)
    requires EveryAppHasFunction(db) && forall id :: id in d.applications ==> id == appId || id in db.applications
    requires fnId in d.functions && d.functions[fnId].applicationID == appId
    requires forall k :: k in db.functions ==> k in d.functions && d.functions[k] == db.functions[k]
    ensures EveryAppHasFunction(d)
  {
    forall id | id in d.applications
      ensures FunctionsOf(d, id) != {}
    {
      if id == appId {
        assert fnId in FunctionsOf(d, id);
      } else {
        assert FunctionsOf(db, id) <= FunctionsOf(d, id);
      }
    }
  }

  /** Statements that remove no function keep every application with one. */
  lemma MoreFunctionsKeep(db: Db, d: Db)
    requires EveryAppHasFunction(db) && d.applications.Keys <= db.applications.Keys
    requires forall k :: k in db.functions && db.functions[k].applicationID in d.applications ==>
      k in d.functions && d.functions[k].applicationID == db.functions[k].applicationID
    ensures EveryAppHasFunction(d)
  {
    forall id | id in d.applications
      ensures FunctionsOf(d, id) != {}
    {
      var k :| k in FunctionsOf(db, id);
      assert k in FunctionsOf(d, id);
    }
  }

  /** Function names and source files that are old, or checked, are clean. */
  lemma CleanRowsKeep(db: Db, d: Db)
    requires CleanRows(db)
    requires forall k :: k in d.functions ==> ImageRef.Dns1123(d.functions[k].name) || (k in db.functions && d.functions[k].name == db.functions[k].name)
    requires forall k :: k in d.sources ==> k in db.sources && d.sources[k] == db.sources[k]
    ensures CleanRows(d)
  {
  }

  lemma DeleteFunctionKeeps(db: Db, appId: string, fnId: string, fails: Fails)
    requires HandlersInv(db)
    ensures HandlersInv(AfterDeleteFunction(db, appId, fnId, fails).0)
  {
    if AfterDeleteFunction(db, appId, fnId, fails).1 == NoContent {
      FunctionDeletionKeepsSchema(db, appId, fnId);
      CleanRowsKeep(db, Store.DeleteFunction(db, appId, fnId).value);
      OneOfManyGoes(db, appId, fnId);
    }
  }

  lemma FunctionDeletionKeepsSchema(db: Db, appId: string, fnId: string)
    requires ValidDb(db) && Store.DeleteFunction(db, appId, fnId).Ok?
    ensures ValidDb(Store.DeleteFunction(db, appId, fnId).value)
  {
    ExecuteKeepsSchema(db, DeleteFunctionStmt(appId, fnId));
  }

  lemma OneOfManyGoes(db: Db, appId: string, fnId: string)
    requires EveryAppHasFunction(db) && Store.DeleteFunction(db, appId, fnId).Ok? && |FunctionsOf(db, appId)| > 1
    ensures EveryAppHasFunction(Store.DeleteFunction(db, appId, fnId).value)
  {
    var d := Store.DeleteFunction(db, appId, fnId).value;
    forall id | id in d.applications
      ensures FunctionsOf(d, id) != {}
    {
      assert FunctionsOf(d, id) == FunctionsOf(db, id) - {fnId};
      if id == appId {
        assert |FunctionsOf(db, id) - {fnId}| == |FunctionsOf(db, id)| - 1;
      } else {
        assert FunctionsOf(d, id) == FunctionsOf(db, id);
      }
    }
  }

  lemma SourceKeeps(db: Db, fnId: string, files: map<string, string>, now: nat)
    requires HandlersInv(db) && Store.PutSource(db, fnId, files, now).Ok? && forall rel :: rel in files ==> K.Contained(rel)
    ensures HandlersInv(Store.PutSource(db, fnId, files, now).value)
  {
    SourceKeepsSchema(db, fnId, files, now);
    SourceRowsKeep(db, fnId, files, now);
  }

  lemma SourceKeepsSchema(db: Db, fnId: string, files: map<string, string>, now: nat)
    requires ValidDb(db) && Store.PutSource(db, fnId, files, now).Ok?
    ensures ValidDb(Store.PutSource(db, fnId, files, now).value)
  {
    ExecuteKeepsSchema(db, PutSourceStmt(fnId, files, now));
  }

  lemma SourceRowsKeep(db: Db, fnId: string, files: map<string, string>, now: nat)
    requires EveryAppHasFunction(db) && CleanRows(db) && fnId in db.functions && forall rel :: rel in files ==> K.Contained(rel)
    ensures var d := Store.PutSource(db, fnId, files, now).value; EveryAppHasFunction(d) && CleanRows(d)
  {
    var d := Store.PutSource(db, fnId, files, now).value;
    MoreFunctionsKeep(db, d);
    Json.StoredKeepsContained(files);
    forall k, rel | k in d.sources && rel in d.sources[k].files
      ensures K.Contained(rel)
    {
      if k != fnId { assert k in db.sources && d.sources[k] == db.sources[k]; }
    }
  }

  lemma CreateFunctionKeeps(db: Db, f: Function, now: nat)
    requires HandlersInv(db) && InsertFunction(db, f, now).Ok? && ImageRef.Dns1123(f.name)
    ensures HandlersInv(InsertFunction(db, f, now).value)
  {
    var d := InsertFunction(db, f, now).value;
    assert ValidDb(d) by { InsertFunctionKeepsSchema(db, f, now); }
    assert EveryAppHasFunction(d) by { MoreFunctionsKeep(db, d); }
    CleanRowsKeep(db, d);
  }

  lemma UpdateRouteKeeps(db: Db, appId: string, fnId: string, route: string, now: nat)
    requires HandlersInv(db) && UpdateRoute(db, appId, fnId, route, now).Ok?
    ensures HandlersInv(UpdateRoute(db, appId, fnId, route, now).value)
  {
    var d := UpdateRoute(db, appId, fnId, route, now).value;
    RouteKeepsSchema(db, appId, fnId, route, now);
    RouteRowsKeep(db, appId, fnId, route, now);
  }

  lemma RouteKeepsSchema(db: Db, appId: string, fnId: string, route: string, now: nat)
    requires ValidDb(db) && UpdateRoute(db, appId, fnId, route, now).Ok?
    ensures ValidDb(UpdateRoute(db, appId, fnId, route, now).value)
  {
    ExecuteKeepsSchema(db, UpdateRouteStmt(appId, fnId, route, now));
  }

  lemma RouteRowsKeep(db: Db, appId: string, fnId: string, route: string, now: nat)
    requires EveryAppHasFunction(db) && CleanRows(db) && UpdateRoute(db, appId, fnId, route, now).Ok?
    ensures var d := UpdateRoute(db, appId, fnId, route, now).value; EveryAppHasFunction(d) && CleanRows(d)
  {
    var d := UpdateRoute(db, appId, fnId, route, now).value;
    MoreFunctionsKeep(db, d);
    CleanRowsKeep(db, d);
  }

  lemma CreateFunctionCallKeeps(db: Db, appId: string, fnId: string, name: string, route: string, now: nat, fails: Fails)
    requires HandlersInv(db)
    ensures HandlersInv(AfterCreateFunction(db, appId, fnId, name, route, now, fails).0)
  {
    if AfterCreateFunction(db, appId, fnId, name, route, now, fails).1 == Created {
      var f := Function(fnId, appId, name, if route == "" then "/" + name + "/..." else route, 0, 0);
      CreateFunctionKeeps(db, f, now);
    }
  }

  lemma UpdateFunctionCallKeeps(db: Db, appId: string, fnId: string, route: string, now: nat, fails: Fails)
    requires HandlersInv(db)
    ensures HandlersInv(AfterUpdateFunction(db, appId, fnId, route, now, fails).0)
  {
    if AfterUpdateFunction(db, appId, fnId, route, now, fails).1 == Okay {
      assert AfterUpdateFunction(db, appId, fnId, route, now, fails).0 == UpdateRoute(db, appId, fnId, route, now).value;
      UpdateRouteKeeps(db, appId, fnId, route, now);
    } else {
      assert AfterUpdateFunction(db, appId, fnId, route, now, fails).0 == db;
    }
  }

  lemma PutSourceKeeps(db: Db, appId: string, fnId: string, files: map<string, string>, now: nat, fails: Fails)
    requires HandlersInv(db)
    ensures HandlersInv(AfterPutSource(db, appId, fnId, files, now, fails).0)
  {
    if AfterPutSource(db, appId, fnId, files, now, fails).1 == Okay {
      forall rel | rel in files
        ensures K.Contained(rel)
      {
        K.AdmittedIsContained(rel);
      }
      SourceKeeps(db, fnId, files, now);
    }
  }

  lemma ImportSourceKeeps(db: Db, appId: string, fnId: string, up: Upload, now: nat, fails: Fails)
    requires HandlersInv(db)
    ensures HandlersInv(AfterImportSource(db, appId, fnId, up, now, fails).0)
  {
    if AfterImportSource(db, appId, fnId, up, now, fails).1 == Okay {
      var files := A.Untar(up.es).value;
      forall rel | rel in files
        ensures K.Contained(rel)
      {
        K.ImportedIsContained(up.es, rel);
      }
      SourceKeeps(db, fnId, files, now);
    }
  }

  lemma DeleteApplicationKeeps(db: Db, appId: string)
    requires HandlersInv(db) && DeleteApplication(db, TENANT, appId).Ok?
    ensures HandlersInv(DeleteApplication(db, TENANT, appId).value)
  {
    var d := DeleteApplication(db, TENANT, appId).value;
    DeletionKeepsSchema(db, appId);
    DeletionRowsKeep(db, appId);
  }

  lemma DeletionKeepsSchema(db: Db, appId: string)
    requires ValidDb(db) && DeleteApplication(db, TENANT, appId).Ok?
    ensures ValidDb(DeleteApplication(db, TENANT, appId).value)
  {
    ExecuteKeepsSchema(db, DeleteApplicationStmt(TENANT, appId));
  }

  lemma DeletionRowsKeep(db: Db, appId: string)
    requires EveryAppHasFunction(db) && CleanRows(db) && DeleteApplication(db, TENANT, appId).Ok?
    ensures var d := DeleteApplication(db, TENANT, appId).value; EveryAppHasFunction(d) && CleanRows(d)
  {
    var d := DeleteApplication(db, TENANT, appId).value;
    MoreFunctionsKeep(db, d);
    CleanRowsKeep(db, d);
  }

  lemma ConfigKeepsSchema(db: Db, appId: string, row: Application, now: nat)
    requires ValidDb(db)
    requires UpdateConfig(db, TENANT, appId, row.description, row.replicas, row.variables, row.resources, now).Ok?
    ensures ValidDb(UpdateConfig(db, TENANT, appId, row.description, row.replicas, row.variables, row.resources, now).value)
  {
    ExecuteKeepsSchema(db, UpdateConfigStmt(TENANT, appId, row.description, row.replicas, row.variables, row.resources, now));
  }

  lemma UpdateConfigKeeps(db: Db, appId: string, row: Application, now: nat)
    requires HandlersInv(db)
    requires UpdateConfig(db, TENANT, appId, row.description, row.replicas, row.variables, row.resources, now).Ok?
    ensures HandlersInv(UpdateConfig(db, TENANT, appId, row.description, row.replicas, row.variables, row.resources, now).value)
  {
    var d := UpdateConfig(db, TENANT, appId, row.description, row.replicas, row.variables, row.resources, now).value;
    ConfigKeepsSchema(db, appId, row, now);
    assert EveryAppHasFunction(d) by { MoreFunctionsKeep(db, d); }
    CleanRowsKeep(db, d);
  }

  lemma DeleteApplicationCallKeeps(db: Db, appId: string, undeployed: bool, fails: Fails)
    requires HandlersInv(db)
    ensures HandlersInv(AfterDeleteApplication(db, appId, undeployed, fails).0)
  {
    if AfterDeleteApplication(db, appId, undeployed, fails).1 == NoContent {
      DeleteApplicationKeeps(db, appId);
    }
  }

  lemma PatchKeeps(env: Protocol.Env, db: Db, appId: string, input: Protocol.PatchInput, now: nat, fails: Fails)
    requires HandlersInv(db)
    ensures HandlersInv(AfterPatch(env, db, appId, input, now, fails).0)
  {
    if AfterPatch(env, db, appId, input, now, fails).1 == Okay {
      UpdateConfigKeeps(db, appId, Protocol.Patched(env, db.applications[appId], input).value, now);
    }
  }

  /** One call keeps the schema, a function for every application and clean rows, exactly unless it strands an application. */
  lemma EachCallKeepsIff(db: Db, c: Call)
    requires HandlersInv(db)
    ensures HandlersInv(Handle(db, c)) <==> !Stranded(db, c)
  {
    match c
    case CreateApplicationCall(n, appId, fnId, now, f) => CreateKeeps(db, n, appId, fnId, now, f);
    case CreateFunctionCall(appId, fnId, name, route, now, fails) => CreateFunctionCallKeeps(db, appId, fnId, name, route, now, fails);
    case UpdateFunctionCall(appId, fnId, route, now, fails) => UpdateFunctionCallKeeps(db, appId, fnId, route, now, fails);
    case DeleteFunctionCall(appId, fnId, fails) => DeleteFunctionKeeps(db, appId, fnId, fails);
    case DeleteApplicationCall(appId, undeployed, fails) => DeleteApplicationCallKeeps(db, appId, undeployed, fails);
    case PutSourceCall(appId, fnId, files, now, fails) => PutSourceKeeps(db, appId, fnId, files, now, fails);
    case ImportSourceCall(appId, fnId, up, now, fails) => ImportSourceKeeps(db, appId, fnId, up, now, fails);
    case PatchCall(env, appId, input, now, fails) => PatchKeeps(env, db, appId, input, now, fails);
  }

  ghost function HandleAll(db: Db, cs: seq<Call>): Db
    decreases |cs|
  {
    if cs == [] then db else HandleAll(Handle(db, cs[0]), cs[1..])
  }

  ghost predicate NeverStranded(db: Db, cs: seq<Call>)
    decreases |cs|
  {
    cs != [] ==> !Stranded(db, cs[0]) && NeverStranded(Handle(db, cs[0]), cs[1..])
  }

  /** Over any series of calls run one at a time in which the compensation never fails. */
  lemma {:induction false} CallsKeep(db: Db, cs: seq<Call>)
    requires HandlersInv(db) && NeverStranded(db, cs)
    ensures HandlersInv(HandleAll(db, cs))
    decreases |cs|
  {
    if cs != [] {
      EachCallKeepsIff(db, cs[0]);
      CallsKeep(Handle(db, cs[0]), cs[1..]);
    }
  }

  /** What a successful PATCH stores is a fixed point of the policy: a fresh Apply would not change it. */
  lemma PatchStoresFixedPoint(env: Protocol.Env, db: Db, appId: string, input: Protocol.PatchInput, now: nat, fails: Fails)
    requires AfterPatch(env, db, appId, input, now, fails).1 == Okay
    ensures var row := AfterPatch(env, db, appId, input, now, fails).0.applications[appId];
      && Policy.Apply(env.deploy.policy, row.resources) == Ok(row.resources)
      && Within(env.deploy.policy, row.resources)
      && row.replicas >= 1
  {
  }
}
