/**
  The check that keeps an application's last function, when handlers are interleaved: `deleteFunction` of
  internal/httpapi/functions.go lists the functions in one store call and deletes in a later one.
*/
module LastFunction {
  import opened Wrappers
  import opened Store
  import opened Protocol
  import opened Builds
  import opened Theorems
  import opened Runs

  // ---------- deletions that have passed the check ----------

  /** The deletions take effect one after the other. */
  function DeleteAll(db: Db, appId: string, ids: seq<string>): Db
    decreases |ids|
  {
    if ids == [] then db
    else
      var r := DeleteFunction(db, appId, ids[0]);
      DeleteAll(if r.Ok? then r.value else db, appId, ids[1..])
  }

  lemma {:induction false} DeleteAllLeaves(db: Db, appId: string, ids: seq<string>)
    ensures FunctionsOf(DeleteAll(db, appId, ids), appId) == set f | f in FunctionsOf(db, appId) && f !in ids
    decreases |ids|
  {
    if ids != [] {
      var r := DeleteFunction(db, appId, ids[0]);
      var d := if r.Ok? then r.value else db;
      assert FunctionsOf(d, appId) == FunctionsOf(db, appId) - {ids[0]};
      DeleteAllLeaves(d, appId, ids[1..]);
      assert forall f :: f in ids <==> f == ids[0] || f in ids[1..];
    }
  }

  /** After any series of deletions that passed the check, a function is left exactly when one is named by none of them. */
  lemma KeepsFunctionIff(db: Db, appId: string, ids: seq<string>)
    ensures FunctionsOf(DeleteAll(db, appId, ids), appId) != {} <==> exists f :: f in FunctionsOf(db, appId) && f !in ids
  {
    DeleteAllLeaves(db, appId, ids);
    var left := FunctionsOf(DeleteAll(db, appId, ids), appId);
    if f :| f in FunctionsOf(db, appId) && f !in ids {
      assert f in left;
    }
  }

  // ---------- what one step does to the functions of an application ----------

  /** The deletion of this function, which passed the check before, goes through. */
  ghost predicate Deletes(s: State, a: Action, appId: string, fnId: string) {
    a.DeleteFunctionRow? && !a.fault && a.r in s.requests && s.requests[a.r] == DeleteFunctionChecked(appId, fnId)
  }

  lemma StepLeavesFunctions(env: Env, s: State, a: Action)
    requires a.Step? && a.b in s.threads
    ensures DbAfter(env, s, a).functions == s.db.functions
  {
    StepTouchesOneRow(env, s.clock, s.db, a.b, s.threads[a.b], a.m);
  }

  lemma RequestLosesFunction(env: Env, s: State, a: Action, appId: string, fnId: string)
    requires RequestEnabled(s, a) && fnId in FunctionsOf(s.db, appId)
    requires appId in RequestDb(env, s, a).applications && fnId !in FunctionsOf(RequestDb(env, s, a), appId)
    ensures Deletes(s, a, appId, fnId)
  {
    if a.DeleteFunctionRow? {
    } else if a.DeleteRow? {
    }
  }

  /** While the application is there, only such a deletion takes a function from it. */
  lemma LosesFunction(env: Env, s: State, a: Action, appId: string, fnId: string)
    requires Enabled(env, s, a) && fnId in FunctionsOf(s.db, appId)
    requires appId in DbAfter(env, s, a).applications && fnId !in FunctionsOf(DbAfter(env, s, a), appId)
    ensures Deletes(s, a, appId, fnId)
  {
    if a.Step? {
      StepLeavesFunctions(env, s, a);
    } else if RequestEnabled(s, a) {
      RequestLosesFunction(env, s, a, appId, fnId);
    }
  }

  lemma LosesFunctionAt(env: Env, ss: seq<State>, acts: seq<Action>, m: nat, appId: string, fnId: string)
    requires Execution(env, ss, acts) && m < |acts| && fnId in FunctionsOf(ss[m].db, appId)
    requires appId in ss[m + 1].db.applications && fnId !in FunctionsOf(ss[m + 1].db, appId)
    ensures Deletes(ss[m], acts[m], appId, fnId)
  {
    assert StepsAt(env, ss, acts, m);
    LosesFunction(env, ss[m], acts[m], appId, fnId);
  }

  // ---------- an application that is gone stays gone ----------

  ghost predicate Gone(s: State, appId: string) {
    appId in s.usedApps && appId !in s.db.applications
  }

  lemma GoneAfter(env: Env, s: State, a: Action, appId: string)
    requires Enabled(env, s, a) && Gone(s, appId)
    ensures appId in UsedAfter(s, a) && appId !in DbAfter(env, s, a).applications
  {
    if a.Step? {
      StepTouchesOneRow(env, s.clock, s.db, a.b, s.threads[a.b], a.m);
    } else if RequestEnabled(s, a) && !a.CreateApp? {
      RequestSubset(env, s, a);
    }
  }

  lemma GoneAt(env: Env, ss: seq<State>, acts: seq<Action>, m: nat, appId: string)
    requires Execution(env, ss, acts) && m < |acts| && Gone(ss[m], appId)
    ensures Gone(ss[m + 1], appId)
  {
    assert StepsAt(env, ss, acts, m);
    GoneAfter(env, ss[m], acts[m], appId);
  }

  lemma {:induction false} GoneForGood(env: Env, ss: seq<State>, acts: seq<Action>, m: nat, i: nat, appId: string)
    requires Execution(env, ss, acts) && m <= i < |ss| && Gone(ss[m], appId)
    ensures Gone(ss[i], appId)
  {
    if m < i {
      GoneForGood(env, ss, acts, m, i - 1, appId);
      GoneAt(env, ss, acts, i - 1, appId);
    }
  }

  lemma LiveIsUsed(env: Env, ss: seq<State>, acts: seq<Action>, i: nat, appId: string)
    requires Execution(env, ss, acts) && i < |ss| && appId in ss[i].db.applications
    ensures appId in ss[i].usedApps
  {
    InvHolds(env, ss, acts, i);
  }

  lemma UsedAt(env: Env, ss: seq<State>, acts: seq<Action>, m: nat, appId: string)
    requires Execution(env, ss, acts) && m < |acts| && appId in ss[m].usedApps
    ensures appId in ss[m + 1].usedApps
  {
    assert StepsAt(env, ss, acts, m);
  }

  lemma {:induction false} UsedOn(env: Env, ss: seq<State>, acts: seq<Action>, k: nat, m: nat, appId: string)
    requires Execution(env, ss, acts) && k <= m < |ss| && appId in ss[k].usedApps
    ensures appId in ss[m].usedApps
  {
    if k < m {
      UsedOn(env, ss, acts, k, m - 1, appId);
      UsedAt(env, ss, acts, m - 1, appId);
    }
  }

  /** An application that is there at two points of a run is there in between. */
  lemma LiveBetween(env: Env, ss: seq<State>, acts: seq<Action>, k: nat, m: nat, i: nat, appId: string)
    requires Execution(env, ss, acts) && k <= m <= i < |ss|
    requires appId in ss[k].db.applications && appId in ss[i].db.applications
    ensures appId in ss[m].db.applications
  {
    LiveIsUsed(env, ss, acts, k, appId);
    UsedOn(env, ss, acts, k, m, appId);
    if appId !in ss[m].db.applications { GoneForGood(env, ss, acts, m, i, appId); }
  }

  // ---------- when the check was made ----------

  /** At step `k` the deletion finds more than one function. */
  ghost predicate Checks(ss: seq<State>, acts: seq<Action>, k: nat, r: string, appId: string, fnId: string) {
    k < |acts| && k < |ss| && acts[k] == CheckFunctions(r, false) && r in ss[k].requests
    && ss[k].requests[r] == DeleteFunctionLoaded(appId, fnId) && |FunctionsOf(ss[k].db, appId)| > 1
  }

  ghost predicate IsChecked(s: State, r: string, appId: string, fnId: string) {
    r in s.requests && s.requests[r] == DeleteFunctionChecked(appId, fnId)
  }

  lemma CheckedBy(env: Env, s: State, a: Action, r: string, appId: string, fnId: string)
    requires Enabled(env, s, a) && r in RequestsAfter(env, s, a) && RequestsAfter(env, s, a)[r] == DeleteFunctionChecked(appId, fnId)
    ensures IsChecked(s, r, appId, fnId) || (a == CheckFunctions(r, false) && r in s.requests
      && s.requests[r] == DeleteFunctionLoaded(appId, fnId) && |FunctionsOf(s.db, appId)| > 1)
  {
  }

  lemma CheckedAt(env: Env, ss: seq<State>, acts: seq<Action>, i: nat, r: string, appId: string, fnId: string)
    requires Execution(env, ss, acts) && i < |acts| && IsChecked(ss[i + 1], r, appId, fnId)
    ensures IsChecked(ss[i], r, appId, fnId) || Checks(ss, acts, i, r, appId, fnId)
  {
    assert StepsAt(env, ss, acts, i);
    CheckedBy(env, ss[i], acts[i], r, appId, fnId);
  }

  lemma StartsUnchecked(env: Env, ss: seq<State>, acts: seq<Action>)
    requires Execution(env, ss, acts)
    ensures ss[0].requests == map[]
  {
  }

  lemma WasChecked(env: Env, ss: seq<State>, acts: seq<Action>, i: nat, r: string, appId: string, fnId: string) returns (k: nat)
    requires Execution(env, ss, acts) && i < |ss| && IsChecked(ss[i], r, appId, fnId)
    ensures k < i && Checks(ss, acts, k, r, appId, fnId)
    ensures forall j :: k < j <= i ==> IsChecked(ss[j], r, appId, fnId)
  {
    StartsUnchecked(env, ss, acts);
    k := HoldsSince(ss, s => IsChecked(s, r, appId, fnId), i);
    CheckedAt(env, ss, acts, k, r, appId, fnId);
  }

  // ---------- the last function goes only when a check was overtaken ----------

  /** Between the check at step `k` of the deletion by `r` and its taking effect at step `i`, another one took effect. */
  ghost predicate Overtaken(ss: seq<State>, acts: seq<Action>, k: nat, m: nat, i: nat, r: string, appId: string, f: string, g: string) {
    && k < m < i < |acts| && i < |ss| && g != f
    && Checks(ss, acts, k, r, appId, f) && Deletes(ss[m], acts[m], appId, g) && acts[m].r != r
  }

  lemma OnlyFunctionGoes(env: Env, ss: seq<State>, acts: seq<Action>, i: nat, appId: string) returns (f: string)
    requires Execution(env, ss, acts) && i < |acts| && appId in ss[i + 1].db.applications
    requires FunctionsOf(ss[i].db, appId) != {} && FunctionsOf(ss[i + 1].db, appId) == {}
    ensures Deletes(ss[i], acts[i], appId, f) && FunctionsOf(ss[i].db, appId) == {f}
  {
    f :| f in FunctionsOf(ss[i].db, appId);
    LosesFunctionAt(env, ss, acts, i, appId, f);
    forall h | h in FunctionsOf(ss[i].db, appId)
      ensures h == f
    {
      LosesFunctionAt(env, ss, acts, i, appId, h);
    }
  }

  lemma AnotherFunction(fns: set<string>, f: string) returns (g: string)
    requires |fns| > 1
    ensures g in fns && g != f
  {
    assert |fns - {f}| >= |fns| - 1;
    g :| g in fns - {f};
  }

  lemma FunctionsHaveApp(env: Env, ss: seq<State>, acts: seq<Action>, k: nat, appId: string, g: string)
    requires Execution(env, ss, acts) && k < |ss| && g in FunctionsOf(ss[k].db, appId)
    ensures appId in ss[k].db.applications
  {
    InvHolds(env, ss, acts, k);
  }

  /** A function that was there at the check and is not any more has been deleted in between by another handler. */
  lemma WasOvertaken(env: Env, ss: seq<State>, acts: seq<Action>, k: nat, i: nat, r: string, appId: string, f: string, g: string)
    returns (m: nat)
    requires Execution(env, ss, acts) && k < i < |acts| && appId in ss[i].db.applications && g != f
    requires Checks(ss, acts, k, r, appId, f) && forall j :: k < j <= i ==> IsChecked(ss[j], r, appId, f)
    requires g in FunctionsOf(ss[k].db, appId) && g !in FunctionsOf(ss[i].db, appId)
    ensures Overtaken(ss, acts, k, m, i, r, appId, f, g)
  {
    FunctionsHaveApp(env, ss, acts, k, appId, g);
    m := BeginsBetween(ss, (s: State) => g !in FunctionsOf(s.db, appId), k, i);
    LiveBetween(env, ss, acts, k, m + 1, i, appId);
    LosesFunctionAt(env, ss, acts, m, appId, g);
    AnotherHandler(ss, acts, k, m, i, r, appId, f, g);
  }

  lemma AnotherHandler(ss: seq<State>, acts: seq<Action>, k: nat, m: nat, i: nat, r: string, appId: string, f: string, g: string)
    requires k <= m < i < |acts| && i < |ss| && g != f
    requires Checks(ss, acts, k, r, appId, f) && forall j :: k < j <= i ==> IsChecked(ss[j], r, appId, f)
    requires Deletes(ss[m], acts[m], appId, g)
    ensures Overtaken(ss, acts, k, m, i, r, appId, f, g)
  {
    assert k < m;
    assert IsChecked(ss[m], r, appId, f);
  }

  /**
    Over every run, an application that stays loses its last function only to a deletion that had found more than one,
    and that another deletion of a function of it has overtaken since.
  */
  lemma LastFunctionGoesOvertaken(env: Env, ss: seq<State>, acts: seq<Action>, i: nat, appId: string)
    requires Execution(env, ss, acts) && i < |acts| && appId in ss[i].db.applications && appId in ss[i + 1].db.applications
    requires FunctionsOf(ss[i].db, appId) != {} && FunctionsOf(ss[i + 1].db, appId) == {}
    ensures acts[i].DeleteFunctionRow? && exists k, m, f, g :: Overtaken(ss, acts, k, m, i, acts[i].r, appId, f, g)
  {
    var f := OnlyFunctionGoes(env, ss, acts, i, appId);
    var k := WasChecked(env, ss, acts, i, acts[i].r, appId, f);
    var g := AnotherFunction(FunctionsOf(ss[k].db, appId), f);
    var m := WasOvertaken(env, ss, acts, k, i, acts[i].r, appId, f, g);
  }

  // ---------- and it can happen ----------

  lemma DeletionBegins(env: Env, s: State, r: string, appId: string, fnId: string) returns (t: State)
    requires HasApplication(s.db, appId) && r !in s.requests
    ensures Leads(env, s, t) && t.db == s.db && t.requests == s.requests[r := DeleteFunctionNamed(appId, fnId)]
  {
    LeadsToItself(env, s);
    var a := BeginDeleteFunction(r, appId, fnId);
    t := Next(env, s, a);
    LeadsByStep(env, s, s, a);
  }

  lemma DeletionLoads(env: Env, s: State, r: string, appId: string, fnId: string) returns (t: State)
    requires r in s.requests && s.requests[r] == DeleteFunctionNamed(appId, fnId) && fnId in FunctionsOf(s.db, appId)
    ensures Leads(env, s, t) && t.db == s.db && t.requests == s.requests[r := DeleteFunctionLoaded(appId, fnId)]
  {
    LeadsToItself(env, s);
    var a := GetFunctionRow(r, false);
    t := Next(env, s, a);
    LeadsByStep(env, s, s, a);
  }

  lemma DeletionChecks(env: Env, s: State, r: string, appId: string, fnId: string) returns (t: State)
    requires r in s.requests && s.requests[r] == DeleteFunctionLoaded(appId, fnId) && |FunctionsOf(s.db, appId)| > 1
    ensures Leads(env, s, t) && t.db == s.db && t.requests == s.requests[r := DeleteFunctionChecked(appId, fnId)]
  {
    LeadsToItself(env, s);
    var a := CheckFunctions(r, false);
    t := Next(env, s, a);
    LeadsByStep(env, s, s, a);
  }

  lemma DeletionIsChecked(env: Env, s: State, r: string, appId: string, fnId: string) returns (t: State)
    requires HasApplication(s.db, appId) && fnId in FunctionsOf(s.db, appId) && |FunctionsOf(s.db, appId)| > 1 && r !in s.requests
    ensures Leads(env, s, t) && t.db == s.db && t.requests == s.requests[r := DeleteFunctionChecked(appId, fnId)]
  {
    var s1 := DeletionBegins(env, s, r, appId, fnId);
    var s2 := DeletionLoads(env, s1, r, appId, fnId);
    t := DeletionChecks(env, s2, r, appId, fnId);
    LeadsOn(env, s, s1, s2);
    LeadsOn(env, s, s2, t);
  }

  lemma DeletionGoesThrough(env: Env, s: State, r: string, appId: string, fnId: string) returns (t: State)
    requires IsChecked(s, r, appId, fnId) && fnId in FunctionsOf(s.db, appId)
    ensures Leads(env, s, t) && t.requests == s.requests[r := Done(false)]
    ensures t.db.applications == s.db.applications && FunctionsOf(t.db, appId) == FunctionsOf(s.db, appId) - {fnId}
  {
    LeadsToItself(env, s);
    var a := DeleteFunctionRow(r, false);
    t := Next(env, s, a);
    LeadsByStep(env, s, s, a);
    assert t.db == DeleteFunction(s.db, appId, fnId).value;
  }

  lemma {:induction false} LongerThanAll(ids: set<string>) returns (n: nat)
    ensures forall id :: id in ids ==> |id| < n
    decreases ids
  {
    if ids == {} {
      n := 0;
    } else {
      var id :| id in ids;
      n := LongerThanAll(ids - {id});
      n := if n <= |id| then |id| + 1 else n;
    }
  }

  /** There is always another request. */
  lemma FreshId(ids: set<string>) returns (r: string)
    ensures r !in ids
  {
    var n := LongerThanAll(ids);
    r := seq(n, _ => 'r');
  }

  /** One deletion after the other leaves two functions. */
  lemma {:induction false} GoesDownToTwo(env: Env, s: State, appId: string) returns (t: State)
    requires HasApplication(s.db, appId) && |FunctionsOf(s.db, appId)| >= 2
    ensures Leads(env, s, t) && HasApplication(t.db, appId) && |FunctionsOf(t.db, appId)| == 2
    decreases |FunctionsOf(s.db, appId)|
  {
    if |FunctionsOf(s.db, appId)| == 2 {
      LeadsToItself(env, s);
      t := s;
    } else {
      var f :| f in FunctionsOf(s.db, appId);
      var u := OneGoes(env, s, appId, f);
      t := GoesDownToTwo(env, u, appId);
      LeadsOn(env, s, u, t);
    }
  }

  lemma OneGoes(env: Env, s: State, appId: string, f: string) returns (t: State)
    requires HasApplication(s.db, appId) && f in FunctionsOf(s.db, appId) && |FunctionsOf(s.db, appId)| > 1
    ensures Leads(env, s, t) && HasApplication(t.db, appId) && FunctionsOf(t.db, appId) == FunctionsOf(s.db, appId) - {f}
  {
    var r := FreshId(s.requests.Keys);
    var s1 := DeletionIsChecked(env, s, r, appId, f);
    t := DeletionGoesThrough(env, s1, r, appId, f);
    LeadsOn(env, s, s1, t);
  }

  /** Two deletions that both make their check before either takes effect. */
  lemma LastTwoGo(env: Env, s: State, appId: string) returns (t: State)
    requires HasApplication(s.db, appId) && |FunctionsOf(s.db, appId)| == 2
    ensures Leads(env, s, t) && HasApplication(t.db, appId) && FunctionsOf(t.db, appId) == {}
  {
    var f :| f in FunctionsOf(s.db, appId);
    var g := AnotherFunction(FunctionsOf(s.db, appId), f);
    assert |FunctionsOf(s.db, appId) - {f} - {g}| == 0;
    var r := FreshId(s.requests.Keys);
    var q := FreshId(s.requests.Keys + {r});
    var s1 := DeletionIsChecked(env, s, r, appId, f);
    var s2 := DeletionIsChecked(env, s1, q, appId, g);
    var s3 := DeletionGoesThrough(env, s2, r, appId, f);
    t := DeletionGoesThrough(env, s3, q, appId, g);
    LeadsOn(env, s, s1, s2);
    LeadsOn(env, s, s2, s3);
    LeadsOn(env, s, s3, t);
  }

  /** From every point of a run at which an application has two functions or more, deletions can leave it with none. */
  lemma LastFunctionCanGo(env: Env, ss: seq<State>, acts: seq<Action>, appId: string)
    requires Execution(env, ss, acts) && HasApplication(ss[|acts|].db, appId) && |FunctionsOf(ss[|acts|].db, appId)| >= 2
    ensures exists t :: GoesOnTo(env, ss, acts, t) && HasApplication(t.db, appId) && FunctionsOf(t.db, appId) == {}
  {
    var s := GoesDownToTwo(env, ss[|acts|], appId);
    var t := LastTwoGo(env, s, appId);
    LeadsOn(env, ss[|acts|], s, t);
    RunGoesOn(env, ss, acts, t);
  }
}
