/**
  The store as an object: the tables are fields, each method is one call of the Store interface of
  internal/store/sqlite.go, proved against the statement it executes.  `fault` says the database fails.
*/
module Sqlite {
  import opened Wrappers
  import opened Strings
  import opened Policy
  import opened Store
  import Json

  datatype Failure = Rejected(error: StoreError) | Fault

  /** The outcome of a writing call: the statement took effect, or nothing changed and the call says why. */
  predicate Outcome(before: Db, after: Db, r: Result<Db, StoreError>, fault: bool, failure: Option<Failure>) {
    if fault then failure == Some(Fault) && after == before
    else
      match r
      case Ok(db) => failure.None? && after == db
      case Err(e) => failure == Some(Rejected(e)) && after == before
  }

  function FunctionName(f: Function): string {
    f.name
  }

  class SqliteStore {
    var applications: map<string, Application>
    var functions: map<string, Function>
    var sources: map<string, Source>
    var builds: map<string, Build>

    constructor ()
      ensures View() == Db(map[], map[], map[], map[])
    {
      applications, functions, sources, builds := map[], map[], map[], map[];
    }

    function View(): Db
      reads this
    {
      Db(applications, functions, sources, builds)
    }

    method CreateApplication(a: Application, now: nat, fault: bool) returns (failure: Option<Failure>)
      modifies this
      ensures Outcome(old(View()), View(), InsertApplication(old(View()), a, now), fault, failure)
    {
      if fault { return Some(Fault); }
      var row := a;
      if row.createdAt == 0 { row := row.(createdAt := now); }
      row := row.(updatedAt := now);
      if row.runtime == Unset { row := row.(runtime := SpinKube); }
      if row.replicas <= 0 { row := row.(replicas := 1); }
      if a.id in applications || NameTaken(View(), a.tenantID, a.name) { return Some(Rejected(Constraint)); }
      applications := applications[a.id := row];
      return None;
    }

    method UpdateApplicationConfig(tenantID: string, id: string, desc: string, replicas: int, variables: seq<Variable>,
                                   resources: Resources, now: nat, fault: bool) returns (failure: Option<Failure>)
      modifies this
      ensures Outcome(old(View()), View(), UpdateConfig(old(View()), tenantID, id, desc, replicas, variables, resources, now), fault, failure)
    {
      if fault { return Some(Fault); }
      var n := if replicas <= 0 then 1 else replicas;
      if id !in applications || applications[id].tenantID != tenantID { return Some(Rejected(NotFound)); }
      applications := applications[id := applications[id].(
        description := desc, replicas := n, variables := variables, resources := resources, updatedAt := now)];
      return None;
    }

    /** Deletes the row; the engine removes the rows that refer to it, and the rows that refer to those. */
    method DeleteApplication(tenantID: string, id: string, fault: bool) returns (failure: Option<Failure>)
      requires ValidDb(View())
      modifies this
      ensures Outcome(old(View()), View(), Store.DeleteApplication(old(View()), tenantID, id), fault, failure)
    {
      if fault { return Some(Fault); }
      if id !in applications || applications[id].tenantID != tenantID { return Some(Rejected(NotFound)); }
      CascadeBySets(View(), tenantID, id);
      applications := applications - {id};
      builds := builds - (set k | k in builds && builds[k].applicationID == id);
      var doomed := set k | k in functions && functions[k].applicationID == id;
      functions := functions - doomed;
      sources := sources - doomed;
      return None;
    }

    method CreateFunction(f: Function, now: nat, fault: bool) returns (failure: Option<Failure>)
      modifies this
      ensures Outcome(old(View()), View(), InsertFunction(old(View()), f, now), fault, failure)
    {
      if fault { return Some(Fault); }
      if f.id in functions || f.applicationID !in applications || FunctionNameTaken(View(), f.applicationID, f.name) {
        return Some(Rejected(Constraint));
      }
      functions := functions[f.id := f.(createdAt := if f.createdAt == 0 then now else f.createdAt, updatedAt := now)];
      return None;
    }

    method UpdateFunctionRoute(applicationID: string, id: string, route: string, now: nat, fault: bool)
      returns (failure: Option<Failure>)
      modifies this
      ensures Outcome(old(View()), View(), UpdateRoute(old(View()), applicationID, id, route, now), fault, failure)
    {
      if fault { return Some(Fault); }
      if !HasFunction(View(), applicationID, id) { return Some(Rejected(NotFound)); }
      functions := functions[id := functions[id].(route := route, updatedAt := now)];
      return None;
    }

    method DeleteFunction(applicationID: string, id: string, fault: bool) returns (failure: Option<Failure>)
      modifies this
      ensures Outcome(old(View()), View(), Store.DeleteFunction(old(View()), applicationID, id), fault, failure)
    {
      if fault { return Some(Fault); }
      if !HasFunction(View(), applicationID, id) { return Some(Rejected(NotFound)); }
      functions := functions - {id};
      sources := sources - {id};
      return None;
    }

    method PutSource(functionID: string, files: map<string, string>, now: nat, fault: bool) returns (failure: Option<Failure>)
      modifies this
      ensures Outcome(old(View()), View(), Store.PutSource(old(View()), functionID, files, now), fault, failure)
    {
      if fault { return Some(Fault); }
      if functionID !in functions { return Some(Rejected(Constraint)); }
      var raw := Json.Marshal(files);
      sources := sources[functionID := Source(functionID, raw, now)];
      return None;
    }

    method CreateBuild(b: Build, now: nat, fault: bool) returns (failure: Option<Failure>)
      modifies this
      ensures Outcome(old(View()), View(), InsertBuild(old(View()), b, now), fault, failure)
    {
      if fault { return Some(Fault); }
      if b.id in builds || b.applicationID !in applications { return Some(Rejected(Constraint)); }
      builds := builds[b.id := b.(createdAt := if b.createdAt == 0 then now else b.createdAt, imageSize := None)];
      return None;
    }

    method UpdateBuildStatus(id: string, status: Status, error: string, finished: Option<nat>, fault: bool)
      returns (failure: Option<Failure>)
      modifies this
      ensures Outcome(old(View()), View(), Ok(Store.UpdateBuildStatus(old(View()), id, status, error, finished)), fault, failure)
    {
      if fault { return Some(Fault); }
      if id in builds {
        builds := builds[id := builds[id].(status := status, error := error, finishedAt := finished)];
      }
      return None;
    }

    method UpdateBuildImageSize(id: string, size: int, fault: bool) returns (failure: Option<Failure>)
      modifies this
      ensures Outcome(old(View()), View(), Ok(Store.UpdateBuildImageSize(old(View()), id, size)), fault, failure)
    {
      if fault { return Some(Fault); }
      if id in builds {
        builds := builds[id := builds[id].(imageSize := Some(size))];
      }
      return None;
    }

    // ---------- queries ----------

    method GetApplication(tenantID: string, id: string, fault: bool) returns (r: Result<Application, Failure>)
      ensures r.Ok? <==> !fault && id in applications && applications[id].tenantID == tenantID
      ensures r.Ok? ==> r.value == applications[id]
      ensures r.Err? ==> r.error == if fault then Fault else Rejected(NotFound)
    {
      if fault { return Err(Fault); }
      if id !in applications || applications[id].tenantID != tenantID { return Err(Rejected(NotFound)); }
      return Ok(applications[id]);
    }

    method GetFunction(applicationID: string, id: string, fault: bool) returns (r: Result<Function, Failure>)
      ensures r.Ok? <==> !fault && HasFunction(View(), applicationID, id)
      ensures r.Ok? ==> r.value == functions[id]
      ensures r.Err? ==> r.error == if fault then Fault else Rejected(NotFound)
    {
      if fault { return Err(Fault); }
      if !HasFunction(View(), applicationID, id) { return Err(Rejected(NotFound)); }
      return Ok(functions[id]);
    }

    method GetSource(functionID: string, fault: bool) returns (r: Result<Source, Failure>)
      ensures r.Ok? <==> !fault && functionID in sources
      ensures r.Ok? ==> r.value == sources[functionID]
      ensures r.Err? ==> r.error == if fault then Fault else Rejected(NotFound)
    {
      if fault { return Err(Fault); }
      if functionID !in sources { return Err(Rejected(NotFound)); }
      return Ok(sources[functionID]);
    }

    /** The tenant's applications, ordered by name. */
    method ListApplications(tenantID: string) returns (out: seq<Application>)
      requires ValidDb(View())
      ensures IsApplicationList(View(), tenantID, out)
    {
      out := [];
      var todo := set k | k in applications && applications[k].tenantID == tenantID;
      ghost var all := todo;
      while todo != {}
        invariant todo <= all
        invariant SortedBy(ApplicationName, out)
        invariant forall a :: a in out <==> a.id in all && a.id !in todo && applications[a.id] == a
        decreases todo
      {
        var k :| k in todo;
        forall i | 0 <= i < |out|
          ensures ApplicationName(out[i]) != ApplicationName(applications[k])
        {
          assert out[i] in out;
          assert !SameName(applications[out[i].id], applications[k]);
        }
        out := Insert(ApplicationName, out, applications[k]);
        todo := todo - {k};
      }
      SortedApplicationsAreAList(View(), tenantID, out);
    }

    /** The application's functions, ordered by name. */
    method ListFunctions(applicationID: string, fault: bool) returns (r: Result<seq<Function>, Failure>)
      requires ValidDb(View())
      ensures r.Err? <==> fault
      ensures r.Ok? ==> SortedBy(FunctionName, r.value)
      ensures r.Ok? ==> forall f :: f in r.value <==> f.id in functions && functions[f.id] == f && f.applicationID == applicationID
    {
      if fault { return Err(Fault); }
      var out: seq<Function> := [];
      var todo := set k | k in functions && functions[k].applicationID == applicationID;
      ghost var all := todo;
      while todo != {}
        invariant todo <= all
        invariant SortedBy(FunctionName, out)
        invariant forall f :: f in out <==> f.id in all && f.id !in todo && functions[f.id] == f
        decreases todo
      {
        var k :| k in todo;
        forall i | 0 <= i < |out|
          ensures FunctionName(out[i]) != FunctionName(functions[k])
        {
          assert out[i] in out;
          assert !SameFunctionName(functions[out[i].id], functions[k]);
        }
        out := Insert(FunctionName, out, functions[k]);
        todo := todo - {k};
      }
      return Ok(out);
    }

    /** The newest builds of the application; rows with equal stamps come in any order. */
    method ListBuilds(applicationID: string, limit: int) returns (out: seq<Build>)
      requires ValidDb(View())
      ensures IsBuildList(View(), applicationID, if limit <= 0 then 20 else limit, out)
    {
      var n := if limit <= 0 then 20 else limit;
      out := [];
      var todo := BuildsOf(View(), applicationID);
      while |out| < n && todo != {}
        invariant |out| <= n && todo <= BuildsOf(View(), applicationID) && Listed(View(), applicationID, out, todo)
        decreases todo
      {
        NewestExists(builds, todo);
        var b :| b in todo && forall k :: k in todo ==> builds[k].createdAt <= builds[b].createdAt;
        ListedNext(View(), applicationID, out, todo, b);
        out := out + [builds[b]];
        todo := todo - {b};
      }
    }
  }

  function ApplicationName(a: Application): string {
    a.name
  }

  lemma SortedApplicationsAreAList(db: Db, tenantID: string, out: seq<Application>)
    requires ValidDb(db) && SortedBy(ApplicationName, out)
    requires forall a :: a in out <==> a.id in db.applications && db.applications[a.id] == a && a.tenantID == tenantID
    ensures IsApplicationList(db, tenantID, out)
  {
    forall i | 0 <= i < |out|
      ensures out[i].id in db.applications && db.applications[out[i].id] == out[i] && out[i].tenantID == tenantID
    {
      assert out[i] in out;
    }
    forall i, j | 0 <= i < j < |out|
      ensures out[i].id != out[j].id && LexLe(out[i].name, out[j].name)
    {
      assert ApplicationName(out[i]) != ApplicationName(out[j]);
    }
    forall k | k in db.applications && db.applications[k].tenantID == tenantID
      ensures exists i :: 0 <= i < |out| && out[i].id == k
    {
      assert db.applications[k] in out;
      var i :| 0 <= i < |out| && out[i] == db.applications[k];
      assert out[i].id == k;
    }
  }

  /** The cascade as the removal of key sets. */
  lemma CascadeBySets(db: Db, tenantID: string, id: string)
    requires ValidDb(db) && DeleteApplication(db, tenantID, id).Ok?
    ensures var d := DeleteApplication(db, tenantID, id).value;
      var doomed := set k | k in db.functions && db.functions[k].applicationID == id;
      && d.builds == db.builds - (set k | k in db.builds && db.builds[k].applicationID == id)
      && d.functions == db.functions - doomed
      && d.sources == db.sources - doomed
  {
    CascadeIsExact(db, tenantID, id);
    var d := DeleteApplication(db, tenantID, id).value;
    var doomed := set k | k in db.functions && db.functions[k].applicationID == id;
    SameMap(d.builds, db.builds - (set k | k in db.builds && db.builds[k].applicationID == id));
    SameMap(d.functions, db.functions - doomed);
    SameMap(d.sources, db.sources - doomed);
  }

  lemma SameMap<V>(m: map<string, V>, n: map<string, V>)
    requires forall k :: k in m <==> k in n
    requires forall k :: k in m ==> m[k] == n[k]
    ensures m == n
  {
  }

  /** `out` lists rows of the application newest first, and `todo` holds the others, none of them newer. */
  ghost predicate Listed(db: Db, id: string, out: seq<Build>, todo: set<string>) {
    && todo <= BuildsOf(db, id)
    && (forall i :: 0 <= i < |out| ==> out[i].id in BuildsOf(db, id) && out[i].id !in todo && db.builds[out[i].id] == out[i])
    && (forall i, j :: 0 <= i < j < |out| ==> out[i].id != out[j].id && out[i].createdAt >= out[j].createdAt)
    && (forall k, i :: k in todo && 0 <= i < |out| ==> db.builds[k].createdAt <= out[i].createdAt)
    && (forall k :: k in BuildsOf(db, id) && k !in todo ==> InList(out, k))
  }

  ghost predicate InList(out: seq<Build>, k: string) {
    exists j :: 0 <= j < |out| && out[j].id == k
  }

  lemma ListedNext(db: Db, id: string, out: seq<Build>, todo: set<string>, b: string)
    requires KeysMatch(db) && Listed(db, id, out, todo)
    requires b in todo && forall k :: k in todo ==> db.builds[k].createdAt <= db.builds[b].createdAt
    ensures Listed(db, id, out + [db.builds[b]], todo - {b})
  {
    var longer := out + [db.builds[b]];
    forall k | k in BuildsOf(db, id) && k !in todo - {b}
      ensures InList(longer, k)
    {
      if k == b {
        assert longer[|out|].id == k;
      } else {
        var j :| 0 <= j < |out| && out[j].id == k;
        assert longer[j].id == k;
      }
    }
  }

  lemma {:induction false} NewestExists(builds: map<string, Build>, keys: set<string>)
    requires keys != {} && keys <= builds.Keys
    ensures exists b :: b in keys && forall k :: k in keys ==> builds[k].createdAt <= builds[b].createdAt
  {
    var x :| x in keys;
    var rest := keys - {x};
    if rest == {} {
      assert keys == {x};
    } else {
      NewestExists(builds, rest);
      var b :| b in rest && forall k :: k in rest ==> builds[k].createdAt <= builds[b].createdAt;
      var best := if builds[x].createdAt > builds[b].createdAt then x else b;
      assert forall k :: k in keys ==> k in rest || k == x;
      assert best in keys;
    }
  }
}
