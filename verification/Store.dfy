/**
  The relational store: internal/store/sqlite.go.

  `Db` is the content of the four tables.  The functions on it are the effect of one SQL
  statement each, with the constraints and ON DELETE CASCADE rules of the schema; the class
  `SqliteStore` keeps the tables as fields and is proved against them.
*/
module Store {
  import opened Wrappers
  import opened Strings
  import opened Policy
  import Json

  datatype Runtime = Unset | SpinKube | WorkerPool

  datatype Status = Pending | Running | Succeeded | Failed

  datatype Variable = Variable(name: string, value: string)

  /** Times are instants on one clock; 0 is Go's zero time. */
  datatype Application = Application(
    id: string, tenantID: string, name: string, language: string, runtime: Runtime, description: string,
    replicas: int, variables: seq<Variable>, resources: Resources, createdAt: nat, updatedAt: nat)

  datatype Function = Function(
    id: string, applicationID: string, name: string, route: string, createdAt: nat, updatedAt: nat)

  datatype Source = Source(functionID: string, files: map<string, string>, updatedAt: nat)

  datatype Build = Build(
    id: string, applicationID: string, imageRef: string, imageSize: Option<int>, status: Status, error: string,
    createdAt: nat, finishedAt: Option<nat>)

  datatype Db = Db(
    applications: map<string, Application>,
    functions: map<string, Function>,
    sources: map<string, Source>,
    builds: map<string, Build>)

  datatype StoreError = Constraint | NotFound

  // ---------- schema: keys, uniqueness, references ----------

  ghost predicate KeysMatch(db: Db) {
    (forall k :: k in db.applications ==> db.applications[k].id == k) &&
    (forall k :: k in db.functions ==> db.functions[k].id == k) &&
    (forall k :: k in db.sources ==> db.sources[k].functionID == k) &&
    (forall k :: k in db.builds ==> db.builds[k].id == k)
  }

  predicate SameName(a: Application, b: Application) {
    a.tenantID == b.tenantID && a.name == b.name
  }

  predicate SameFunctionName(f: Function, g: Function) {
    f.applicationID == g.applicationID && f.name == g.name
  }

  ghost predicate UniqueNames(db: Db) {
    (forall k, l :: k in db.applications && l in db.applications && k != l ==>
      !SameName(db.applications[k], db.applications[l])) &&
    (forall k, l :: k in db.functions && l in db.functions && k != l ==>
      !SameFunctionName(db.functions[k], db.functions[l]))
  }

  ghost predicate References(db: Db) {
    (forall k :: k in db.functions ==> db.functions[k].applicationID in db.applications) &&
    (forall k :: k in db.sources ==> k in db.functions) &&
    (forall k :: k in db.builds ==> db.builds[k].applicationID in db.applications)
  }

  ghost predicate ValidDb(db: Db) {
    KeysMatch(db) && UniqueNames(db) && References(db)
  }

  // ---------- statements ----------

  predicate NameTaken(db: Db, tenantID: string, name: string) {
    exists k :: k in db.applications && db.applications[k].tenantID == tenantID && db.applications[k].name == name
  }

  predicate FunctionNameTaken(db: Db, applicationID: string, name: string) {
    exists k :: k in db.functions && db.functions[k].applicationID == applicationID && db.functions[k].name == name
  }

  /** The row CreateApplication writes: stamps, runtime and replicas defaulted. */
  function Defaulted(a: Application, now: nat): Application {
    a.(createdAt := if a.createdAt == 0 then now else a.createdAt,
       updatedAt := now,
       runtime := if a.runtime == Unset then SpinKube else a.runtime,
       replicas := if a.replicas <= 0 then 1 else a.replicas)
  }

  function InsertApplication(db: Db, a: Application, now: nat): Result<Db, StoreError> {
    if a.id in db.applications || NameTaken(db, a.tenantID, a.name) then Err(Constraint)
    else Ok(db.(applications := db.applications[a.id := Defaulted(a, now)]))
  }

  function UpdateConfig(db: Db, tenantID: string, id: string, desc: string, replicas: int,
                        variables: seq<Variable>, resources: Resources, now: nat): Result<Db, StoreError> {
    if id !in db.applications || db.applications[id].tenantID != tenantID then Err(NotFound)
    else
      var row := db.applications[id].(
        description := desc, replicas := if replicas <= 0 then 1 else replicas,
        variables := variables, resources := resources, updatedAt := now);
      Ok(db.(applications := db.applications[id := row]))
  }

  /** Functions that do not belong to `id`. */
  function FunctionsWithout(db: Db, id: string): map<string, Function> {
    map k | k in db.functions && db.functions[k].applicationID != id :: db.functions[k]
  }

  function DeleteApplication(db: Db, tenantID: string, id: string): Result<Db, StoreError> {
    if id !in db.applications || db.applications[id].tenantID != tenantID then Err(NotFound)
    else
      var fns := FunctionsWithout(db, id);
      Ok(Db(db.applications - {id},
            fns,
            map k | k in db.sources && k in fns :: db.sources[k],
            map k | k in db.builds && db.builds[k].applicationID != id :: db.builds[k]))
  }

  function InsertFunction(db: Db, f: Function, now: nat): Result<Db, StoreError> {
    if f.id in db.functions || f.applicationID !in db.applications || FunctionNameTaken(db, f.applicationID, f.name)
    then Err(Constraint)
    else
      var row := f.(createdAt := if f.createdAt == 0 then now else f.createdAt, updatedAt := now);
      Ok(db.(functions := db.functions[f.id := row]))
  }

  predicate HasFunction(db: Db, applicationID: string, id: string) {
    id in db.functions && db.functions[id].applicationID == applicationID
  }

  function UpdateRoute(db: Db, applicationID: string, id: string, route: string, now: nat): Result<Db, StoreError> {
    if !HasFunction(db, applicationID, id) then Err(NotFound)
    else Ok(db.(functions := db.functions[id := db.functions[id].(route := route, updatedAt := now)]))
  }

  function DeleteFunction(db: Db, applicationID: string, id: string): Result<Db, StoreError> {
    if !HasFunction(db, applicationID, id) then Err(NotFound)
    else Ok(db.(functions := db.functions - {id}, sources := db.sources - {id}))
  }

  /** The files go through a JSON column. */
  ghost function PutSource(db: Db, functionID: string, files: map<string, string>, now: nat): Result<Db, StoreError> {
    if functionID !in db.functions then Err(Constraint)
    else Ok(db.(sources := db.sources[functionID := Source(functionID, Json.Stored(files), now)]))
  }

  function InsertBuild(db: Db, b: Build, now: nat): Result<Db, StoreError> {
    if b.id in db.builds || b.applicationID !in db.applications then Err(Constraint)
    else
      // image_size_bytes is not among the inserted columns
      var row := b.(createdAt := if b.createdAt == 0 then now else b.createdAt, imageSize := None);
      Ok(db.(builds := db.builds[b.id := row]))
  }

  /** UPDATE … WHERE id = ?: overwrites unconditionally, and a missing row is not an error. */
  function UpdateBuildStatus(db: Db, id: string, status: Status, error: string, finished: Option<nat>): Db {
    if id !in db.builds then db
    else db.(builds := db.builds[id := db.builds[id].(status := status, error := error, finishedAt := finished)])
  }

  function UpdateBuildImageSize(db: Db, id: string, size: int): Db {
    if id !in db.builds then db
    else db.(builds := db.builds[id := db.builds[id].(imageSize := Some(size))])
  }

  // ---------- every statement keeps the schema ----------

  datatype Statement =
    | CreateApplicationStmt(a: Application, now: nat)
    | UpdateConfigStmt(tenantID: string, id: string, desc: string, replicas: int, variables: seq<Variable>,
                       resources: Resources, now: nat)
    | DeleteApplicationStmt(tenantID: string, id: string)
    | CreateFunctionStmt(f: Function, now: nat)
    | UpdateRouteStmt(applicationID: string, id: string, route: string, now: nat)
    | DeleteFunctionStmt(applicationID: string, id: string)
    | PutSourceStmt(functionID: string, files: map<string, string>, now: nat)
    | CreateBuildStmt(b: Build, now: nat)
    | UpdateBuildStatusStmt(id: string, status: Status, error: string, finished: Option<nat>)
    | UpdateBuildImageSizeStmt(id: string, size: int)

  ghost function Execute(db: Db, s: Statement): Result<Db, StoreError> {
    match s
    case CreateApplicationStmt(a, now) => InsertApplication(db, a, now)
    case UpdateConfigStmt(t, id, d, n, v, r, now) => UpdateConfig(db, t, id, d, n, v, r, now)
    case DeleteApplicationStmt(t, id) => DeleteApplication(db, t, id)
    case CreateFunctionStmt(f, now) => InsertFunction(db, f, now)
    case UpdateRouteStmt(a, id, route, now) => UpdateRoute(db, a, id, route, now)
    case DeleteFunctionStmt(a, id) => DeleteFunction(db, a, id)
    case PutSourceStmt(f, files, now) => PutSource(db, f, files, now)
    case CreateBuildStmt(b, now) => InsertBuild(db, b, now)
    case UpdateBuildStatusStmt(id, st, e, fin) => Ok(UpdateBuildStatus(db, id, st, e, fin))
    case UpdateBuildImageSizeStmt(id, size) => Ok(UpdateBuildImageSize(db, id, size))
  }

  lemma ExecuteKeepsSchema(db: Db, s: Statement)
    requires ValidDb(db)
    ensures Execute(db, s).Ok? ==> ValidDb(Execute(db, s).value)
  {
    if Execute(db, s).Ok? {
      var d := Execute(db, s).value;
      match s
      case CreateApplicationStmt(a, now) => InsertApplicationKeepsSchema(db, a, now);
      case DeleteApplicationStmt(t, id) => CascadeIsExact(db, t, id);
      case CreateFunctionStmt(f, now) => InsertFunctionKeepsSchema(db, f, now);
      case UpdateConfigStmt(_, _, _, _, _, _, _) => UpdatesKeepSchema(db, s);
      case UpdateRouteStmt(_, _, _, _) => UpdatesKeepSchema(db, s);
      case DeleteFunctionStmt(_, _) => SourceStatementsKeepSchema(db, s);
      case PutSourceStmt(_, _, _) => SourceStatementsKeepSchema(db, s);
      case _ => BuildStatementsKeepSchema(db, s);
    }
  }

  lemma InsertApplicationKeepsSchema(db: Db, a: Application, now: nat)
    requires ValidDb(db)
    ensures InsertApplication(db, a, now).Ok? ==> ValidDb(InsertApplication(db, a, now).value)
  {
  }

  lemma InsertFunctionKeepsSchema(db: Db, f: Function, now: nat)
    requires ValidDb(db)
    ensures InsertFunction(db, f, now).Ok? ==> ValidDb(InsertFunction(db, f, now).value)
  {
  }

  /** Statements that leave ids, names and owners of rows alone keep names unique. */
  lemma SameNamesKeepUnique(db: Db, d: Db)
    requires UniqueNames(db)
    requires forall k :: k in d.applications ==> k in db.applications && SameName(db.applications[k], d.applications[k])
    requires forall k :: k in d.functions ==> k in db.functions && SameFunctionName(db.functions[k], d.functions[k])
    ensures UniqueNames(d)
  {
    forall k, l | k in d.applications && l in d.applications && k != l
      ensures !SameName(d.applications[k], d.applications[l])
    {
      assert !SameName(db.applications[k], db.applications[l]);
    }
    forall k, l | k in d.functions && l in d.functions && k != l
      ensures !SameFunctionName(d.functions[k], d.functions[l])
    {
      assert !SameFunctionName(db.functions[k], db.functions[l]);
    }
  }

  lemma UpdatesKeepSchema(db: Db, s: Statement)
    requires ValidDb(db) && (s.UpdateConfigStmt? || s.UpdateRouteStmt?)
    ensures Execute(db, s).Ok? ==> ValidDb(Execute(db, s).value)
  {
    if Execute(db, s).Ok? {
      SameNamesKeepUnique(db, Execute(db, s).value);
    }
  }

  lemma SourceStatementsKeepSchema(db: Db, s: Statement)
    requires ValidDb(db) && (s.DeleteFunctionStmt? || s.PutSourceStmt?)
    ensures Execute(db, s).Ok? ==> ValidDb(Execute(db, s).value)
  {
    if Execute(db, s).Ok? {
      SameNamesKeepUnique(db, Execute(db, s).value);
    }
  }

  lemma BuildStatementsKeepSchema(db: Db, s: Statement)
    requires ValidDb(db)
    requires s.CreateBuildStmt? || s.UpdateBuildStatusStmt? || s.UpdateBuildImageSizeStmt?
    ensures Execute(db, s).Ok? ==> ValidDb(Execute(db, s).value)
  {
    if Execute(db, s).Ok? {
      SameNamesKeepUnique(db, Execute(db, s).value);
      BuildStatementsKeepRows(db, s);
    }
  }

  lemma BuildStatementsKeepRows(db: Db, s: Statement)
    requires KeysMatch(db) && References(db) && Execute(db, s).Ok?
    requires s.CreateBuildStmt? || s.UpdateBuildStatusStmt? || s.UpdateBuildImageSizeStmt?
    ensures KeysMatch(Execute(db, s).value) && References(Execute(db, s).value)
  {
  }

  /** Content after a series of statements; one that fails leaves the content alone. */
  ghost function ExecuteAll(db: Db, ss: seq<Statement>): Db
    decreases |ss|
  {
    if ss == [] then db
    else
      var r := Execute(db, ss[0]);
      ExecuteAll(if r.Ok? then r.value else db, ss[1..])
  }

  /** Uniqueness and referential integrity survive any series of statements, in any order. */
  lemma {:induction false} SchemaHoldsForever(db: Db, ss: seq<Statement>)
    requires ValidDb(db)
    ensures ValidDb(ExecuteAll(db, ss))
    decreases |ss|
  {
    if ss != [] {
      ExecuteKeepsSchema(db, ss[0]);
      var r := Execute(db, ss[0]);
      SchemaHoldsForever(if r.Ok? then r.value else db, ss[1..]);
    }
  }

  /** An application removed with its rows leaves exactly the rows of the other applications. */
  lemma CascadeIsExact(db: Db, tenantID: string, id: string)
    requires ValidDb(db) && DeleteApplication(db, tenantID, id).Ok?
    ensures var d := DeleteApplication(db, tenantID, id).value;
      && (forall k :: k in d.applications <==> k in db.applications && k != id)
      && (forall k :: k in d.functions <==> k in db.functions && db.functions[k].applicationID != id)
      && (forall k :: k in d.sources <==> k in db.sources && db.functions[k].applicationID != id)
      && (forall k :: k in d.builds <==> k in db.builds && db.builds[k].applicationID != id)
      && (forall k :: k in d.applications ==> d.applications[k] == db.applications[k])
      && (forall k :: k in d.functions ==> d.functions[k] == db.functions[k])
      && (forall k :: k in d.sources ==> d.sources[k] == db.sources[k])
      && (forall k :: k in d.builds ==> d.builds[k] == db.builds[k])
  {
  }

  /** Deleting an application that was just created restores every table. */
  lemma DeleteUndoesCreate(db: Db, a: Application, now: nat)
    requires ValidDb(db) && InsertApplication(db, a, now).Ok?
    ensures DeleteApplication(InsertApplication(db, a, now).value, a.tenantID, a.id) == Ok(db)
  {
    var db1 := InsertApplication(db, a, now).value;
    var db2 := DeleteApplication(db1, a.tenantID, a.id).value;
    assert db2.applications == db.applications;
    assert db2.functions == db.functions;
    assert db2.sources == db.sources;
    assert db2.builds == db.builds;
  }

  // ---------- queries ----------

  function FunctionsOf(db: Db, appId: string): set<string> {
    set k | k in db.functions && db.functions[k].applicationID == appId
  }

  /** What ListApplications may return: the tenant's rows, each once, ordered by name. */
  ghost predicate IsApplicationList(db: Db, tenantID: string, out: seq<Application>) {
    (forall i :: 0 <= i < |out| ==>
      out[i].id in db.applications && db.applications[out[i].id] == out[i] && out[i].tenantID == tenantID) &&
    (forall i, j :: 0 <= i < j < |out| ==> out[i].id != out[j].id && LexLe(out[i].name, out[j].name)) &&
    (forall k :: k in db.applications && db.applications[k].tenantID == tenantID ==>
      exists i :: 0 <= i < |out| && out[i].id == k)
  }

  /** Rows of one application. */
  function BuildsOf(db: Db, applicationID: string): set<string> {
    set k | k in db.builds && db.builds[k].applicationID == applicationID
  }

  /**
    What `ORDER BY created_at DESC LIMIT n` may return: distinct rows of the application, newest
    first, and no row left out is newer than one returned.  Rows with equal stamps come in any order.
  */
  ghost predicate IsBuildList(db: Db, applicationID: string, limit: nat, out: seq<Build>) {
    (forall i :: 0 <= i < |out| ==> out[i].id in BuildsOf(db, applicationID) && db.builds[out[i].id] == out[i]) &&
    (forall i, j :: 0 <= i < j < |out| ==> out[i].id != out[j].id && out[i].createdAt >= out[j].createdAt) &&
    (forall k, i :: k in BuildsOf(db, applicationID) && 0 <= i < |out| && (forall j :: 0 <= j < |out| ==> out[j].id != k)
      ==> db.builds[k].createdAt <= out[i].createdAt) &&
    |out| <= limit &&
    (|out| < limit ==> forall k :: k in BuildsOf(db, applicationID) ==> exists j :: 0 <= j < |out| && out[j].id == k)
  }
}
