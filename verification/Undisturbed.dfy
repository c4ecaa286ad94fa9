/**
  The two pictures of the HTTP handlers agree: the steps a handler takes in the system of `Protocol`, with nothing
  in between, do what the handler of `Handlers` does in one go.
*/
module Undisturbed {
  import opened Wrappers
  import opened Store
  import opened Protocol
  import Handlers
  import D = Deploy
  import ImageRef

  /** The steps of one handler, as far as it gets, with nothing in between. */
  ghost predicate RunsThrough(env: Env, ss: seq<State>, acts: seq<Action>, r: string, steps: seq<Action>) {
    Segment(env, ss, acts) && |acts| <= |steps| && (forall i :: 0 <= i < |acts| ==> acts[i] == steps[i])
    && r in ss[|acts|].requests && ss[|acts|].requests[r].Done?
  }

  /** What one step of a handler changes. */
  ghost predicate Handles(env: Env, s: State, a: Action, t: State) {
    && RequestEnabled(s, a) && t.db == RequestDb(env, s, a) && t.cluster == RequestCluster(env, s, a) && t.clock == s.clock
    && t.requests == s.requests[a.r := RequestNext(env, s, a)]
  }

  predicate OfHandler(a: Action) {
    a.CreateApp? || a.AddDefaultFunction? || a.BeginPatch? || a.PatchStore? || a.PatchGet? || a.PatchApply?
    || a.BeginDelete? || a.DeleteUndeploy? || a.DeleteRow? || a.BeginCreateFunction? || a.CreateFunctionRow?
    || a.BeginDeleteFunction? || a.GetFunctionRow? || a.CheckFunctions? || a.DeleteFunctionRow?
  }

  lemma StepHandles(env: Env, s: State, a: Action)
    requires Enabled(env, s, a) && OfHandler(a)
    ensures Handles(env, s, a, Next(env, s, a))
  {
  }

  lemma StepAt(env: Env, ss: seq<State>, acts: seq<Action>, i: nat)
    requires Segment(env, ss, acts) && i < |acts| && OfHandler(acts[i])
    ensures Handles(env, ss[i], acts[i], ss[i + 1])
  {
    assert StepsAt(env, ss, acts, i);
    StepHandles(env, ss[i], acts[i]);
  }

  // ---------- the deletion of a function ----------

  lemma DeletionNamed(env: Env, s: State, t: State, r: string, appId: string, fnId: string)
    requires Handles(env, s, BeginDeleteFunction(r, appId, fnId), t)
    ensures t.requests[r] == DeleteFunctionNamed(appId, fnId) && t.db == s.db && t.cluster == s.cluster && HasApplication(s.db, appId)
  {
  }

  lemma DeletionLoaded(env: Env, s: State, t: State, r: string, fault: bool)
    requires Handles(env, s, GetFunctionRow(r, fault), t)
    ensures t.db == s.db && t.cluster == s.cluster && s.requests[r].DeleteFunctionNamed?
    ensures var q := s.requests[r];
      t.requests[r] == if !fault && HasFunction(s.db, q.appId, q.fnId) then DeleteFunctionLoaded(q.appId, q.fnId) else Done(false)
  {
  }

  lemma DeletionChecked(env: Env, s: State, t: State, r: string, fault: bool)
    requires Handles(env, s, CheckFunctions(r, fault), t)
    ensures t.db == s.db && t.cluster == s.cluster && s.requests[r].DeleteFunctionLoaded?
    ensures var q := s.requests[r];
      t.requests[r] == if !fault && |FunctionsOf(s.db, q.appId)| > 1 then DeleteFunctionChecked(q.appId, q.fnId) else Done(false)
  {
  }

  lemma DeletionDone(env: Env, s: State, t: State, r: string, fault: bool)
    requires Handles(env, s, DeleteFunctionRow(r, fault), t)
    ensures t.cluster == s.cluster && s.requests[r].DeleteFunctionChecked? && t.requests[r] == Done(false)
    ensures var q := s.requests[r]; t.db == if fault then s.db else OrSame(DeleteFunction(s.db, q.appId, q.fnId), s.db)
  {
  }

  ghost function DeletedDb(db: Db, appId: string, fnId: string, f: Handlers.Fails): Db {
    if f.fn || !HasFunction(db, appId, fnId) || f.list || |FunctionsOf(db, appId)| <= 1 || f.write then db
    else OrSame(DeleteFunction(db, appId, fnId), db)
  }

  lemma DeletedAlike(db: Db, appId: string, fnId: string, f: Handlers.Fails)
    requires !f.app && HasApplication(db, appId)
    ensures DeletedDb(db, appId, fnId, f) == Handlers.AfterDeleteFunction(db, appId, fnId, f).0
  {
  }

  lemma DeletionBegins(env: Env, ss: seq<State>, acts: seq<Action>, r: string, appId: string, fnId: string, fault: bool)
    requires Segment(env, ss, acts) && |acts| >= 1 && acts[0] == BeginDeleteFunction(r, appId, fnId)
    ensures HasApplication(ss[0].db, appId) && ss[1].db == ss[0].db && ss[1].cluster == ss[0].cluster
    ensures r in ss[1].requests && ss[1].requests[r] == DeleteFunctionNamed(appId, fnId)
    ensures |acts| >= 2 && acts[1] == GetFunctionRow(r, fault) ==>
      && ss[2].db == ss[0].db && ss[2].cluster == ss[0].cluster && r in ss[2].requests
      && ss[2].requests[r] == if !fault && HasFunction(ss[0].db, appId, fnId) then DeleteFunctionLoaded(appId, fnId) else Done(false)
  {
    StepAt(env, ss, acts, 0);
    DeletionNamed(env, ss[0], ss[1], r, appId, fnId);
    if |acts| >= 2 && acts[1] == GetFunctionRow(r, fault) {
      StepAt(env, ss, acts, 1);
      DeletionLoaded(env, ss[1], ss[2], r, fault);
    }
  }

  lemma DeletionEnds(env: Env, ss: seq<State>, acts: seq<Action>, r: string, appId: string, fnId: string, list: bool, write: bool)
    requires Segment(env, ss, acts) && |acts| >= 3 && acts[2] == CheckFunctions(r, list)
    requires r in ss[2].requests && ss[2].requests[r] == DeleteFunctionLoaded(appId, fnId)
    ensures ss[3].db == ss[2].db && ss[3].cluster == ss[2].cluster && r in ss[3].requests
    ensures ss[3].requests[r] == if !list && |FunctionsOf(ss[2].db, appId)| > 1 then DeleteFunctionChecked(appId, fnId) else Done(false)
    ensures |acts| >= 4 && acts[3] == DeleteFunctionRow(r, write) ==>
      && ss[4].cluster == ss[2].cluster && |FunctionsOf(ss[2].db, appId)| > 1 && !list
      && ss[4].db == if write then ss[2].db else OrSame(DeleteFunction(ss[2].db, appId, fnId), ss[2].db)
  {
    StepAt(env, ss, acts, 2);
    DeletionChecked(env, ss[2], ss[3], r, list);
    if |acts| >= 4 && acts[3] == DeleteFunctionRow(r, write) {
      StepAt(env, ss, acts, 3);
      DeletionDone(env, ss[3], ss[4], r, write);
    }
  }

  lemma DeletionLoads(env: Env, ss: seq<State>, acts: seq<Action>, r: string, fault: bool)
    requires Segment(env, ss, acts) && |acts| >= 3 && acts[2] == CheckFunctions(r, fault)
    ensures r in ss[2].requests && ss[2].requests[r].DeleteFunctionLoaded?
  {
    StepAt(env, ss, acts, 2);
    DeletionChecked(env, ss[2], ss[3], r, fault);
  }

  lemma DeletionStops(env: Env, ss: seq<State>, acts: seq<Action>, r: string, appId: string, fnId: string, f: Handlers.Fails)
    requires Segment(env, ss, acts) && 1 <= |acts| <= 2 && acts[0] == BeginDeleteFunction(r, appId, fnId)
    requires |acts| == 2 ==> acts[1] == GetFunctionRow(r, f.fn)
    requires r in ss[|acts|].requests && ss[|acts|].requests[r].Done?
    ensures HasApplication(ss[0].db, appId) && ss[|acts|].cluster == ss[0].cluster
    ensures ss[|acts|].db == DeletedDb(ss[0].db, appId, fnId, f)
  {
    DeletionBegins(env, ss, acts, r, appId, fnId, f.fn);
  }

  lemma DeletionGoesOn(env: Env, ss: seq<State>, acts: seq<Action>, r: string, appId: string, fnId: string, f: Handlers.Fails)
    requires Segment(env, ss, acts) && 3 <= |acts| <= 4 && acts[0] == BeginDeleteFunction(r, appId, fnId)
    requires acts[1] == GetFunctionRow(r, f.fn) && acts[2] == CheckFunctions(r, f.list)
    requires |acts| == 4 ==> acts[3] == DeleteFunctionRow(r, f.write)
    requires r in ss[|acts|].requests && ss[|acts|].requests[r].Done?
    ensures HasApplication(ss[0].db, appId) && ss[|acts|].cluster == ss[0].cluster
    ensures ss[|acts|].db == DeletedDb(ss[0].db, appId, fnId, f)
  {
    DeletionBegins(env, ss, acts, r, appId, fnId, f.fn);
    DeletionLoads(env, ss, acts, r, f.list);
    DeletionEnds(env, ss, acts, r, appId, fnId, f.list, f.write);
  }

  /** The deletion of a function. */
  lemma DeletionUndisturbed(env: Env, ss: seq<State>, acts: seq<Action>, r: string, appId: string, fnId: string, f: Handlers.Fails)
    requires RunsThrough(env, ss, acts, r, [BeginDeleteFunction(r, appId, fnId), GetFunctionRow(r, f.fn),
                                            CheckFunctions(r, f.list), DeleteFunctionRow(r, f.write)])
    requires !f.app && r !in ss[0].requests
    ensures ss[|acts|].db == Handlers.AfterDeleteFunction(ss[0].db, appId, fnId, f).0 && ss[|acts|].cluster == ss[0].cluster
  {
    assert |acts| > 0;
    if |acts| <= 2 {
      DeletionStops(env, ss, acts, r, appId, fnId, f);
    } else {
      DeletionGoesOn(env, ss, acts, r, appId, fnId, f);
    }
    DeletedAlike(ss[0].db, appId, fnId, f);
  }

  // ---------- the creation of a function ----------

  lemma CreationBegins(env: Env, s: State, t: State, r: string, fn: Function)
    requires Handles(env, s, BeginCreateFunction(r, fn), t)
    ensures t.requests[r] == CreateFunctionLoaded(fn) && t.db == s.db && t.cluster == s.cluster && t.clock == s.clock
    ensures HasApplication(s.db, fn.applicationID) && ImageRef.Dns1123(fn.name)
  {
  }

  lemma CreationEnds(env: Env, s: State, t: State, r: string, fault: bool)
    requires Handles(env, s, CreateFunctionRow(r, fault), t)
    ensures t.requests[r] == Done(false) && t.cluster == s.cluster && s.requests[r].CreateFunctionLoaded?
    ensures t.db == if fault then s.db else OrSame(InsertFunction(s.db, s.requests[r].fn, s.clock), s.db)
  {
  }

  lemma CreationSteps(env: Env, ss: seq<State>, acts: seq<Action>, r: string, fn: Function, write: bool)
    requires RunsThrough(env, ss, acts, r, [BeginCreateFunction(r, fn), CreateFunctionRow(r, write)]) && r !in ss[0].requests
    ensures HasApplication(ss[0].db, fn.applicationID) && ImageRef.Dns1123(fn.name) && ss[|acts|].cluster == ss[0].cluster
    ensures ss[|acts|].db == if write then ss[0].db else OrSame(InsertFunction(ss[0].db, fn, ss[0].clock), ss[0].db)
  {
    assert |acts| >= 1;
    StepAt(env, ss, acts, 0);
    CreationBegins(env, ss[0], ss[1], r, fn);
    if |acts| >= 2 {
      StepAt(env, ss, acts, 1);
      CreationEnds(env, ss[1], ss[2], r, write);
    }
  }

  lemma CreationAlike(db: Db, fn: Function, route: string, now: nat, f: Handlers.Fails)
    requires !f.app && HasApplication(db, fn.applicationID) && ImageRef.Dns1123(fn.name)
    requires fn.createdAt == 0 && fn.updatedAt == 0 && fn.route == if route == "" then "/" + fn.name + "/..." else route
    ensures Handlers.AfterCreateFunction(db, fn.applicationID, fn.id, fn.name, route, now, f).0 ==
      if f.write then db else OrSame(InsertFunction(db, fn, now), db)
  {
    assert fn == Function(fn.id, fn.applicationID, fn.name, if route == "" then "/" + fn.name + "/..." else route, 0, 0);
  }

  /** The creation of a function; the handler puts in the route, given or not. */
  lemma CreationUndisturbed(env: Env, ss: seq<State>, acts: seq<Action>, r: string, fn: Function, route: string, f: Handlers.Fails)
    requires RunsThrough(env, ss, acts, r, [BeginCreateFunction(r, fn), CreateFunctionRow(r, f.write)])
    requires !f.app && r !in ss[0].requests && fn.createdAt == 0 && fn.updatedAt == 0
    requires fn.route == if route == "" then "/" + fn.name + "/..." else route
    ensures ss[|acts|].db == Handlers.AfterCreateFunction(ss[0].db, fn.applicationID, fn.id, fn.name, route, ss[0].clock, f).0
    ensures ss[|acts|].cluster == ss[0].cluster
  {
    CreationSteps(env, ss, acts, r, fn, f.write);
    CreationAlike(ss[0].db, fn, route, ss[0].clock, f);
  }

  // ---------- the creation of an application ----------

  lemma ApplicationBegins(env: Env, s: State, t: State, r: string, app: Application)
    requires Handles(env, s, CreateApp(r, app), t)
    ensures t.requests[r] == CreateDefaultFunction(app) && t.cluster == s.cluster && t.clock == s.clock
    ensures InsertApplication(s.db, app, s.clock) == Ok(t.db)
  {
  }

  lemma ApplicationGetsFunction(env: Env, s: State, t: State, r: string, id: string, fault: bool)
    requires Handles(env, s, AddDefaultFunction(r, id, fault), t)
    ensures s.requests[r].CreateDefaultFunction? && t.cluster == s.cluster
    ensures var stored := StoreDefaultFunction(s, s.requests[r], id, fault);
      && t.db == OrSame(stored, s.db)
      && t.requests[r] == if stored.Ok? then Done(false) else DeleteUndeployed(s.requests[r].app)
  {
  }

  lemma RowGoes(env: Env, s: State, t: State, r: string, fault: bool)
    requires Handles(env, s, DeleteRow(r, fault), t)
    ensures s.requests[r].DeleteUndeployed? && t.cluster == s.cluster && t.requests[r] == Done(false)
    ensures t.db == if fault then s.db else OrSame(DeleteApplication(s.db, TENANT, s.requests[r].app.id), s.db)
  {
  }

  /** What the second step makes of the store: the function, or the error that calls for the compensation. */
  ghost function WithFunction(db: Db, appId: string, fnId: string, now: nat, fault: bool): Result<Db, StoreError> {
    if fault then Err(Constraint) else InsertFunction(db, Function(fnId, appId, "default", "/...", 0, 0), now)
  }

  /** What becomes of a store with the new application. */
  ghost function Completed(db: Db, appId: string, fnId: string, now: nat, f: Handlers.Faults): Db {
    var stored := WithFunction(db, appId, fnId, now, f.second);
    if stored.Ok? then stored.value else if f.third then db else OrSame(DeleteApplication(db, TENANT, appId), db)
  }

  lemma ApplicationStarts(env: Env, ss: seq<State>, acts: seq<Action>, r: string, app: Application, fnId: string, fault: bool)
    requires Segment(env, ss, acts) && |acts| >= 1 && acts[0] == CreateApp(r, app)
    ensures InsertApplication(ss[0].db, app, ss[0].clock) == Ok(ss[1].db) && ss[1].cluster == ss[0].cluster
    ensures r in ss[1].requests && ss[1].requests[r] == CreateDefaultFunction(app)
    ensures |acts| >= 2 && acts[1] == AddDefaultFunction(r, fnId, fault) ==>
      var stored := WithFunction(ss[1].db, app.id, fnId, ss[0].clock, fault);
      && ss[2].db == OrSame(stored, ss[1].db) && ss[2].cluster == ss[0].cluster && r in ss[2].requests
      && ss[2].requests[r] == if stored.Ok? then Done(false) else DeleteUndeployed(app)
  {
    StepAt(env, ss, acts, 0);
    ApplicationBegins(env, ss[0], ss[1], r, app);
    if |acts| >= 2 && acts[1] == AddDefaultFunction(r, fnId, fault) {
      StepAt(env, ss, acts, 1);
      ApplicationGetsFunction(env, ss[1], ss[2], r, fnId, fault);
    }
  }

  lemma ApplicationRemoved(env: Env, ss: seq<State>, acts: seq<Action>, i: nat, r: string, fault: bool)
    requires Segment(env, ss, acts) && i < |acts| && acts[i] == DeleteRow(r, fault)
    ensures r in ss[i].requests && ss[i].requests[r].DeleteUndeployed? && ss[i + 1].cluster == ss[i].cluster
    ensures r in ss[i + 1].requests && ss[i + 1].requests[r] == Done(false)
    ensures ss[i + 1].db == if fault then ss[i].db else OrSame(DeleteApplication(ss[i].db, TENANT, ss[i].requests[r].app.id), ss[i].db)
  {
    StepAt(env, ss, acts, i);
    RowGoes(env, ss[i], ss[i + 1], r, fault);
  }

  lemma ApplicationCompletes(env: Env, ss: seq<State>, acts: seq<Action>, r: string, app: Application, fnId: string, f: Handlers.Faults)
    requires Segment(env, ss, acts) && 1 <= |acts| <= 2 && acts[0] == CreateApp(r, app)
    requires |acts| == 2 ==> acts[1] == AddDefaultFunction(r, fnId, f.second)
    requires r in ss[|acts|].requests && ss[|acts|].requests[r].Done?
    ensures InsertApplication(ss[0].db, app, ss[0].clock) == Ok(ss[1].db) && ss[|acts|].cluster == ss[0].cluster
    ensures ss[|acts|].db == Completed(ss[1].db, app.id, fnId, ss[0].clock, f)
  {
    ApplicationStarts(env, ss, acts, r, app, fnId, f.second);
  }

  lemma ApplicationFallsBack(env: Env, ss: seq<State>, acts: seq<Action>, r: string, app: Application, fnId: string, f: Handlers.Faults)
    requires Segment(env, ss, acts) && |acts| == 3 && acts[0] == CreateApp(r, app)
    requires acts[1] == AddDefaultFunction(r, fnId, f.second) && acts[2] == DeleteRow(r, f.third)
    ensures InsertApplication(ss[0].db, app, ss[0].clock) == Ok(ss[1].db) && ss[3].cluster == ss[0].cluster
    ensures ss[3].db == Completed(ss[1].db, app.id, fnId, ss[0].clock, f)
  {
    ApplicationStarts(env, ss, acts, r, app, fnId, f.second);
    ApplicationRemoved(env, ss, acts, 2, r, f.third);
  }

  lemma ApplicationSteps(env: Env, ss: seq<State>, acts: seq<Action>, r: string, app: Application, fnId: string, f: Handlers.Faults)
    requires RunsThrough(env, ss, acts, r, [CreateApp(r, app), AddDefaultFunction(r, fnId, f.second), DeleteRow(r, f.third)])
    requires r !in ss[0].requests
    ensures |acts| >= 1 && InsertApplication(ss[0].db, app, ss[0].clock) == Ok(ss[1].db)
    ensures ss[|acts|].db == Completed(ss[1].db, app.id, fnId, ss[0].clock, f) && ss[|acts|].cluster == ss[0].cluster
  {
    assert |acts| > 0;
    if |acts| <= 2 {
      ApplicationCompletes(env, ss, acts, r, app, fnId, f);
    } else {
      ApplicationFallsBack(env, ss, acts, r, app, fnId, f);
    }
  }

  lemma CompletedAlike(db: Db, d: Db, n: Handlers.NewApplication, appId: string, fnId: string, now: nat, f: Handlers.Faults)
    requires Handlers.GoodInput(n) && !f.first && InsertApplication(db, Handlers.Fresh(n, appId), now) == Ok(d)
    ensures Completed(d, appId, fnId, now, f) == Handlers.AfterCreateApplication(db, n, appId, fnId, now, f).0
  {
  }

  /** The creation of an application, its compensation included. */
  lemma ApplicationUndisturbed(env: Env, ss: seq<State>, acts: seq<Action>, r: string, n: Handlers.NewApplication, appId: string,
                               fnId: string, f: Handlers.Faults)
    requires Handlers.GoodInput(n) && !f.first
    requires RunsThrough(env, ss, acts, r, [CreateApp(r, Handlers.Fresh(n, appId)), AddDefaultFunction(r, fnId, f.second), DeleteRow(r, f.third)])
    requires r !in ss[0].requests
    ensures ss[|acts|].db == Handlers.AfterCreateApplication(ss[0].db, n, appId, fnId, ss[0].clock, f).0
    ensures ss[|acts|].cluster == ss[0].cluster
  {
    ApplicationSteps(env, ss, acts, r, Handlers.Fresh(n, appId), fnId, f);
    CompletedAlike(ss[0].db, ss[1].db, n, appId, fnId, ss[0].clock, f);
  }

  // ---------- the deletion of an application ----------

  lemma RemovalBegins(env: Env, s: State, t: State, r: string, appId: string)
    requires Handles(env, s, BeginDelete(r, appId), t)
    ensures t.db == s.db && t.cluster == s.cluster && HasApplication(s.db, appId)
    ensures var app := s.db.applications[appId];
      t.requests[r] == if app.runtime == WorkerPool then DeleteUndeployed(app) else DeleteLoaded(app)
  {
  }

  lemma Undeploys(env: Env, s: State, t: State, r: string, ok: bool, removed: bool)
    requires Handles(env, s, DeleteUndeploy(r, ok, removed), t)
    ensures t.db == s.db && s.requests[r].DeleteLoaded?
    ensures t.requests[r] == if ok then DeleteUndeployed(s.requests[r].app) else Done(false)
    ensures t.cluster == if removed then s.cluster - {s.requests[r].app.name} else s.cluster
  {
  }

  lemma RemovalStarts(env: Env, ss: seq<State>, acts: seq<Action>, r: string, appId: string, ok: bool, removed: bool)
    requires Segment(env, ss, acts) && |acts| >= 2 && acts[0] == BeginDelete(r, appId) && acts[1] == DeleteUndeploy(r, ok, removed)
    ensures HasApplication(ss[0].db, appId) && ss[0].db.applications[appId].runtime != WorkerPool && ss[2].db == ss[0].db
    ensures var app := ss[0].db.applications[appId];
      && r in ss[2].requests && ss[2].requests[r] == (if ok then DeleteUndeployed(app) else Done(false))
      && ss[2].cluster == if removed then ss[0].cluster - {app.name} else ss[0].cluster
  {
    StepAt(env, ss, acts, 0);
    RemovalBegins(env, ss[0], ss[1], r, appId);
    StepAt(env, ss, acts, 1);
    Undeploys(env, ss[1], ss[2], r, ok, removed);
  }

  /** The deletion of a spinkube application: undeployed first, and the rows removed when that worked. */
  lemma RemovalUndisturbed(env: Env, ss: seq<State>, acts: seq<Action>, r: string, appId: string, ok: bool, removed: bool, f: Handlers.Fails)
    requires Segment(env, ss, acts) && |acts| == 3 && acts[0] == BeginDelete(r, appId) && acts[1] == DeleteUndeploy(r, ok, removed)
    requires acts[2] == DeleteRow(r, f.write) && !f.app && KeysMatch(ss[0].db)
    ensures HasApplication(ss[0].db, appId) && ok
    ensures ss[3].db == Handlers.AfterDeleteApplication(ss[0].db, appId, true, f).0
    ensures ss[3].cluster == ss[0].cluster - {ss[0].db.applications[appId].name}
  {
    RemovalStarts(env, ss, acts, r, appId, ok, removed);
    ApplicationRemoved(env, ss, acts, 2, r, f.write);
    assert StepsAt(env, ss, acts, 1);
  }

  /** When the SpinApp cannot be removed, nothing else happens. */
  lemma FailedRemovalUndisturbed(env: Env, ss: seq<State>, acts: seq<Action>, r: string, appId: string, removed: bool, f: Handlers.Fails)
    requires Segment(env, ss, acts) && |acts| == 2 && acts[0] == BeginDelete(r, appId) && acts[1] == DeleteUndeploy(r, false, removed) && !f.app
    ensures HasApplication(ss[0].db, appId) && r in ss[2].requests && ss[2].requests[r].Done?
    ensures ss[2].db == Handlers.AfterDeleteApplication(ss[0].db, appId, false, f).0
  {
    RemovalStarts(env, ss, acts, r, appId, false, removed);
  }

  /** A workerpool application has nothing to undeploy. */
  lemma PoolRemovalUndisturbed(env: Env, ss: seq<State>, acts: seq<Action>, r: string, appId: string, undeployed: bool, f: Handlers.Fails)
    requires Segment(env, ss, acts) && |acts| == 2 && acts[0] == BeginDelete(r, appId) && acts[1] == DeleteRow(r, f.write)
    requires !f.app && KeysMatch(ss[0].db)
    ensures HasApplication(ss[0].db, appId)
    ensures ss[2].db == Handlers.AfterDeleteApplication(ss[0].db, appId, undeployed, f).0 && ss[2].cluster == ss[0].cluster
  {
    StepAt(env, ss, acts, 0);
    RemovalBegins(env, ss[0], ss[1], r, appId);
    ApplicationRemoved(env, ss, acts, 1, r, f.write);
  }

  // ---------- PATCH ----------

  lemma PatchBegins(env: Env, s: State, t: State, r: string, appId: string, input: PatchInput)
    requires Handles(env, s, BeginPatch(r, appId, input), t)
    ensures t.db == s.db && t.cluster == s.cluster && t.clock == s.clock && HasApplication(s.db, appId)
    ensures t.requests[r] == PatchLoaded(s.db.applications[appId], input)
  {
  }

  lemma PatchWrites(env: Env, s: State, t: State, r: string, fault: bool)
    requires Handles(env, s, PatchStore(r, fault), t)
    ensures s.requests[r].PatchLoaded? && t.cluster == s.cluster
    ensures var q := s.requests[r];
      var stored := StorePatch(env, s, q, fault);
      && t.db == OrSame(stored, s.db)
      && t.requests[r] == if stored.Ok? && TouchesCluster(q.app, q.input) then PatchStored(Patched(env, q.app, q.input).value) else Done(false)
  {
  }

  lemma PatchReads(env: Env, s: State, t: State, r: string, fault: bool)
    requires Handles(env, s, PatchGet(r, fault), t)
    ensures s.requests[r].PatchStored? && t.cluster == s.cluster && t.db == s.db
    ensures var app := s.requests[r].app;
      t.requests[r] ==
        if !fault && app.name in s.cluster && s.cluster[app.name].image != "" then PatchRead(app, s.cluster[app.name].image) else Done(false)
  {
  }

  lemma PatchApplies(env: Env, s: State, t: State, r: string, applied: bool)
    requires Handles(env, s, PatchApply(r, applied), t)
    ensures s.requests[r].PatchRead? && t.db == s.db
    ensures var q := s.requests[r];
      t.cluster == if applied then s.cluster[q.app.name := D.Desired(env.deploy, q.app, q.image, 0)] else s.cluster
  {
  }

  /** What the first two steps leave: the row stored or refused, and the row to apply if there is one. */
  ghost predicate PatchStands(env: Env, s: State, t: State, r: string, appId: string, input: PatchInput, fault: bool) {
    HasApplication(s.db, appId) && r in t.requests && t.cluster == s.cluster &&
    var app := s.db.applications[appId];
    var p := Patched(env, app, input);
    var stored := if p.None? || fault then Err(Constraint)
      else UpdateConfig(s.db, TENANT, app.id, p.value.description, p.value.replicas, p.value.variables, p.value.resources, s.clock);
    && t.db == OrSame(stored, s.db)
    && t.requests[r] == if stored.Ok? && TouchesCluster(app, input) then PatchStored(p.value) else Done(false)
  }

  lemma PatchStarts(env: Env, ss: seq<State>, acts: seq<Action>, r: string, appId: string, input: PatchInput, fault: bool)
    requires Segment(env, ss, acts) && |acts| >= 2 && acts[0] == BeginPatch(r, appId, input) && acts[1] == PatchStore(r, fault)
    ensures PatchStands(env, ss[0], ss[2], r, appId, input, fault)
  {
    StepAt(env, ss, acts, 0);
    PatchBegins(env, ss[0], ss[1], r, appId, input);
    StepAt(env, ss, acts, 1);
    PatchWrites(env, ss[1], ss[2], r, fault);
  }

  /** What the last two steps make of the cluster. */
  ghost function Again(env: Env, cluster: map<string, D.SpinApp>, app: Application, fault: bool, applied: bool): map<string, D.SpinApp> {
    if !fault && applied && app.name in cluster && cluster[app.name].image != ""
    then cluster[app.name := D.Desired(env.deploy, app, cluster[app.name].image, 0)] else cluster
  }

  lemma PatchEnds(env: Env, ss: seq<State>, acts: seq<Action>, r: string, fault: bool, applied: bool)
    requires Segment(env, ss, acts) && 3 <= |acts| <= 4 && acts[2] == PatchGet(r, fault)
    requires |acts| == 4 ==> acts[3] == PatchApply(r, applied)
    requires r in ss[|acts|].requests && ss[|acts|].requests[r].Done?
    ensures r in ss[2].requests && ss[2].requests[r].PatchStored? && ss[|acts|].db == ss[2].db
    ensures ss[|acts|].cluster == Again(env, ss[2].cluster, ss[2].requests[r].app, fault, applied)
  {
    StepAt(env, ss, acts, 2);
    PatchReads(env, ss[2], ss[3], r, fault);
    if |acts| == 4 {
      StepAt(env, ss, acts, 3);
      PatchApplies(env, ss[3], ss[4], r, applied);
    }
  }

  lemma PatchStandsAlike(env: Env, s: State, t: State, r: string, appId: string, input: PatchInput, f: Handlers.Fails)
    requires PatchStands(env, s, t, r, appId, input, f.write) && !f.app && KeysMatch(s.db)
    ensures t.db == Handlers.AfterPatch(env, s.db, appId, input, s.clock, f).0
  {
  }

  lemma ReappliedAlike(env: Env, s: State, t: State, r: string, appId: string, input: PatchInput, f: Handlers.Fails, fault: bool, applied: bool)
    requires PatchStands(env, s, t, r, appId, input, f.write) && !f.app && KeysMatch(s.db)
    ensures var reply := Handlers.AfterPatch(env, s.db, appId, input, s.clock, f).1;
      Handlers.Reapplied(env, s.cluster, s.db, appId, input, reply, !fault, applied) ==
        if t.requests[r].PatchStored? then Again(env, s.cluster, t.requests[r].app, fault, applied) else s.cluster
  {
  }

  lemma PatchSteps(env: Env, ss: seq<State>, acts: seq<Action>, r: string, appId: string, input: PatchInput, write: bool,
                   fault: bool, applied: bool)
    requires Segment(env, ss, acts) && 2 <= |acts| <= 4 && acts[0] == BeginPatch(r, appId, input) && acts[1] == PatchStore(r, write)
    requires (|acts| >= 3 ==> acts[2] == PatchGet(r, fault)) && (|acts| == 4 ==> acts[3] == PatchApply(r, applied))
    requires r in ss[|acts|].requests && ss[|acts|].requests[r].Done?
    ensures PatchStands(env, ss[0], ss[2], r, appId, input, write) && ss[|acts|].db == ss[2].db
    ensures ss[|acts|].cluster ==
      if ss[2].requests[r].PatchStored? then Again(env, ss[0].cluster, ss[2].requests[r].app, fault, applied) else ss[0].cluster
  {
    PatchStarts(env, ss, acts, r, appId, input, write);
    if |acts| > 2 { PatchEnds(env, ss, acts, r, fault, applied); }
  }

  /** The config PATCH, with its re-apply. */
  lemma PatchUndisturbed(env: Env, ss: seq<State>, acts: seq<Action>, r: string, appId: string, input: PatchInput, f: Handlers.Fails,
                         fault: bool, applied: bool)
    requires RunsThrough(env, ss, acts, r, [BeginPatch(r, appId, input), PatchStore(r, f.write), PatchGet(r, fault), PatchApply(r, applied)])
    requires !f.app && r !in ss[0].requests && KeysMatch(ss[0].db)
    ensures ss[|acts|].db == Handlers.AfterPatch(env, ss[0].db, appId, input, ss[0].clock, f).0
    ensures var reply := Handlers.AfterPatch(env, ss[0].db, appId, input, ss[0].clock, f).1;
      ss[|acts|].cluster == Handlers.Reapplied(env, ss[0].cluster, ss[0].db, appId, input, reply, !fault, applied)
  {
    PatchNotAtOnce(env, ss, acts, r, appId, input);
    PatchSteps(env, ss, acts, r, appId, input, f.write, fault, applied);
    PatchStandsAlike(env, ss[0], ss[2], r, appId, input, f);
    ReappliedAlike(env, ss[0], ss[2], r, appId, input, f, fault, applied);
  }

  lemma PatchNotAtOnce(env: Env, ss: seq<State>, acts: seq<Action>, r: string, appId: string, input: PatchInput)
    requires Segment(env, ss, acts) && r !in ss[0].requests && r in ss[|acts|].requests && ss[|acts|].requests[r].Done?
    requires |acts| > 0 ==> acts[0] == BeginPatch(r, appId, input)
    ensures |acts| >= 2
  {
    if |acts| == 1 {
      StepAt(env, ss, acts, 0);
      PatchBegins(env, ss[0], ss[1], r, appId, input);
    }
  }
}
