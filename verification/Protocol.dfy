/**
  Build, publish, poll, serve: the whole control plane and its worker as one transition system.

  Any number of builds, HTTP handlers and deletions run concurrently with one polling worker.  A
  step is one store call, one cluster call, one lock acquisition or one metric update, so every
  interleaving of those is an execution.  Sources: internal/builder/builder.go (`Start`, `watch`),
  internal/httpapi (`startBuild`, `createApplication`, `updateApplication`, `deployApplication`,
  `deleteApplication`, `getWorkerConfig`), services/worker/src/router.rs (`sync`) and config.rs.

  Some fields only record history and steer nothing: `usedApps`, `posted`, `served`, `faulted`,
  `quiet`, `clean`, the flags of a thread, and the source build of a feed entry.

  A run starts on the database, the Jobs and the SpinApps that earlier processes left.  Each build row
  found there is given a thread that stays `LeftBehind`: nobody watches these builds any more.
*/
module Protocol {
  import opened Wrappers
  import opened Store
  import opened Loader
  import opened Router
  import P = Policy
  import D = Deploy
  import ImageRef

  const TENANT := "default"

  const FEED_WINDOW := 30

  datatype Env = Env(deploy: D.Config, registry: string)

  /** A Job's counters, and the first non-empty message of its Failed conditions ("" if none). */
  datatype JobStatus = JobStatus(succeeded: nat, failed: nat, message: string)

  /** Where a build is: `Start` up to CountStart, then `watch`; or left by an earlier process with this status. */
  datatype Pc =
    | LeftBehind(status: Status)
    | Prepare
    | InsertRow
    | ShipSource
    | CreateJob
    | FailStart(msg: string)
    | CountStart
    | MarkRunning
    | AwaitJob
    | SaveSize
    | Ship
    | WriteFailed(msg: string)
    | WriteSucceeded
    | CountDeploy
    | CountFinish(ok: bool)
    | Rejected
    | Aborted
    | Finished(ok: bool)

  /**
    One build: the application as loaded by the handler, the stamps taken so far, and what it has
    seen and done: `jobOk` its Job succeeded without a failure, `shipped` its own Deploy returned
    without error, `wroteOk` it wrote "succeeded", `landed` that write reached an existing row.
  */
  datatype Thread = Thread(
    app: Application, createdAt: nat, finishedAt: nat, pc: Pc,
    jobOk: bool, shipped: bool, wroteOk: bool, landed: bool)

  datatype PatchInput = PatchInput(
    description: Option<string>, replicas: Option<int>, variables: Option<seq<Variable>>, resources: Option<P.Resources>)

  /** What never changes about an application once it is created. */
  datatype Identity = Identity(name: string, runtime: Runtime, createdAt: nat)

  /** Where an HTTP handler is. */
  datatype Request =
    | CreateDefaultFunction(app: Application)
    | PatchLoaded(app: Application, input: PatchInput)
    | PatchStored(app: Application)
    | PatchRead(app: Application, image: string)
    | DeployLoaded(app: Application, image: string, replicas: int)
    | DeleteLoaded(app: Application)
    | DeleteUndeployed(app: Application)
    | CountHandlerDeploy
    | CreateFunctionLoaded(fn: Function)
    | DeleteFunctionNamed(appId: string, fnId: string)
    | DeleteFunctionLoaded(appId: string, fnId: string)
    | DeleteFunctionChecked(appId: string, fnId: string)
    | Done(deployed: bool)

  /** One entry of the worker-config response, and the build it was read from. */
  datatype Feed = Feed(name: string, imageRef: string, build: string)

  /** The worker: idle, waiting for the response while the handler fills it, or inside `sync`. */
  datatype Poll =
    | Idle
    | Listing(apps: seq<Application>, k: nat, feed: seq<Feed>)
    | Adding(feed: seq<Feed>, start: Table, os: seq<Outside>)
    | Pulling(feed: seq<Feed>, start: Table, os: seq<Outside>)
    | Inserting(feed: seq<Feed>, start: Table, os: seq<Outside>, o: Outside)
    | Removing(feed: seq<Feed>, start: Table, os: seq<Outside>, names: set<string>)

  datatype Counters = Counters(started: nat, finishedOk: nat, finishedFailed: nat, deploysApplied: nat)

  datatype State = State(
    clock: nat,
    db: Db,
    usedApps: map<string, Identity>,
    jobs: map<string, JobStatus>,
    threads: map<string, Thread>,
    cluster: map<string, D.SpinApp>,
    requests: map<string, Request>,
    posted: set<(string, string)>,
    counters: Counters,
    poll: Poll,
    table: Table,
    served: map<string, string>,
    faulted: bool,
    quiet: bool,
    clean: bool)

  /** What a step meets: a store fault, an error of the cluster call, whether that call took effect all the same, a size read from the log. */
  datatype Move = Move(fault: bool, err: Option<string>, made: bool, size: Option<int>)

  datatype Action =
    | Tick(to: nat)
    | CreateApp(r: string, app: Application)
    | AddDefaultFunction(r: string, id: string, fault: bool)
    | BeginBuild(b: string, appId: string)
    | Step(b: string, m: Move)
    | JobMoves(b: string, job: JobStatus)
    | JobGone(b: string)
    | BeginPatch(r: string, appId: string, input: PatchInput)
    | PatchStore(r: string, fault: bool)
    | PatchGet(r: string, fault: bool)
    | PatchApply(r: string, applied: bool)
    | BeginDeploy(r: string, appId: string, image: string, replicas: int)
    | DeployApply(r: string, ok: bool, applied: bool)
    | CountDeployed(r: string)
    | BeginDelete(r: string, appId: string)
    | DeleteUndeploy(r: string, ok: bool, removed: bool)
    | DeleteRow(r: string, fault: bool)
    | BeginCreateFunction(r: string, fn: Function)
    | CreateFunctionRow(r: string, fault: bool)
    | BeginDeleteFunction(r: string, appId: string, fnId: string)
    | GetFunctionRow(r: string, fault: bool)
    | CheckFunctions(r: string, fault: bool)
    | DeleteFunctionRow(r: string, fault: bool)
    | PollList(apps: seq<Application>)
    | PollBuilds(out: Option<seq<Build>>)
    | PollDeliver
    | PollAbort
    | SyncLook
    | SyncPull(o: Outside)
    | SyncInsert
    | SyncScan
    | SyncRemove

  // ---------- small definitions ----------

  function Image(env: Env, app: Application, b: string): string {
    ImageRef.Print(env.registry, app.name, b)
  }

  function IdentityOf(app: Application): Identity {
    Identity(app.name, app.runtime, app.createdAt)
  }

  function Wants(feed: seq<Feed>): seq<Want> {
    seq(|feed|, i requires 0 <= i < |feed| => Want(feed[i].name, feed[i].imageRef))
  }

  /** The row a PATCH would store, or None when the handler refuses the input. */
  function Patched(env: Env, app: Application, input: PatchInput): Option<Application> {
    var replicas := if input.replicas.Some? then input.replicas.value else app.replicas;
    if replicas < 0 then None
    else if input.variables.Some? && !forall i :: 0 <= i < |input.variables.value| ==> VariableName(input.variables.value[i].name)
    then None
    else
      var r := P.Apply(env.deploy.policy, if input.resources.Some? then input.resources.value else app.resources);
      if r.Err? then None
      else Some(app.(
        description := if input.description.Some? then input.description.value else app.description,
        replicas := replicas,
        variables := if input.variables.Some? then input.variables.value else app.variables,
        resources := r.value))
  }

  /** What a PATCH makes of a field: what is given, or else what it held. */
  ghost predicate Follows<T>(given: Option<T>, before: T, after: T) {
    (given.Some? ==> after == given.value) && (given.None? ==> after == before)
  }

  predicate Letter(c: char) {
    'A' <= c <= 'Z' || 'a' <= c <= 'z' || c == '_'
  }

  /** ^[A-Za-z_][A-Za-z0-9_]*$ */
  predicate VariableName(s: string) {
    s != "" && Letter(s[0]) && forall i :: 0 <= i < |s| ==> Letter(s[i]) || '0' <= s[i] <= '9'
  }

  /** Whether a PATCH changes anything the cluster sees. */
  predicate TouchesCluster(app: Application, input: PatchInput) {
    app.runtime != WorkerPool && (input.replicas.Some? || input.variables.Some? || input.resources.Some?)
  }

  ghost predicate IsFirstSucceeded(builds: seq<Build>, i: nat) {
    i < |builds| && builds[i].status == Succeeded && forall j :: 0 <= j < i ==> builds[j].status != Succeeded
  }

  /** latestSuccessfulImage: the first succeeded build of the list. */
  function FirstSucceeded(builds: seq<Build>): (r: Option<Build>)
    ensures r.Some? ==> exists i :: 0 <= i < |builds| && builds[i] == r.value && IsFirstSucceeded(builds, i)
    ensures r.None? ==> forall i :: 0 <= i < |builds| ==> builds[i].status != Succeeded
  {
    if builds == [] then None
    else if builds[0].status == Succeeded then
      assert IsFirstSucceeded(builds, 0);
      Some(builds[0])
    else
      var r := FirstSucceeded(builds[1..]);
      assert r.Some? ==> forall i: nat :: IsFirstSucceeded(builds[1..], i) ==> IsFirstSucceeded(builds, i + 1) && builds[i + 1] == builds[1..][i];
      r
  }

  // ---------- the builder ----------

  predicate StepEnabled(s: State, b: string, m: Move) {
    b in s.threads
    && !s.threads[b].pc.LeftBehind? && !s.threads[b].pc.Rejected? && !s.threads[b].pc.Aborted? && !s.threads[b].pc.Finished?
    && (m.err.Some? ==> m.err.value != "")
    // without an error the Get has answered with an existing Job
    && (s.threads[b].pc.AwaitJob? && m.err.None? ==> b in s.jobs)
  }

  function WriteStatus(db: Db, b: string, status: Status, error: string, finished: Option<nat>, fault: bool): Db {
    if fault then db else UpdateBuildStatus(db, b, status, error, finished)
  }

  function NewRow(env: Env, t: Thread, b: string): Build {
    Build(b, t.app.id, Image(env, t.app, b), None, Pending, "", t.createdAt, None)
  }

  /** The thread after its step; `inserted` says whether the row could be created, `present` whether it exists. */
  function NextThread(clock: nat, inserted: bool, present: bool, job: JobStatus, t: Thread, m: Move): Thread {
    match t.pc
    case Prepare => t.(createdAt := clock, pc := InsertRow)
    case InsertRow => t.(pc := if m.fault || !inserted then Rejected else ShipSource)
    case ShipSource => t.(pc := if m.err.Some? then FailStart("create source secret: " + m.err.value) else CreateJob)
    case CreateJob => t.(pc := if m.err.Some? then FailStart("create job: " + m.err.value) else CountStart)
    case FailStart(_) => t.(pc := Aborted)
    case CountStart => t.(pc := MarkRunning)
    case MarkRunning => t.(pc := AwaitJob)
    case AwaitJob =>
      if m.err.Some? then t.(finishedAt := clock, pc := WriteFailed(m.err.value))
      else if job.succeeded == 0 && job.failed == 0 then t
      else if job.failed > 0 then
        t.(finishedAt := clock, pc := WriteFailed(if job.message != "" then job.message else "job failed"))
      else t.(finishedAt := clock, jobOk := true, pc := SaveSize)
    case SaveSize => t.(pc := if t.app.runtime == WorkerPool then WriteSucceeded else Ship)
    case Ship =>
      if m.err.Some? then t.(pc := WriteFailed("deploy: " + m.err.value)) else t.(shipped := true, pc := WriteSucceeded)
    case WriteFailed(_) => t.(pc := CountFinish(false))
    case WriteSucceeded => t.(wroteOk := true, landed := !m.fault && present, pc := CountDeploy)
    case CountDeploy => t.(pc := CountFinish(true))
    case CountFinish(ok) => t.(pc := Finished(ok))
    case _ => t
  }

  /** The store call of the step, if it makes one. */
  function NextDb(env: Env, clock: nat, db: Db, b: string, t: Thread, m: Move): Db {
    match t.pc
    case InsertRow =>
      var r := InsertBuild(db, NewRow(env, t, b), clock);
      if m.fault || r.Err? then db else r.value
    case FailStart(msg) => WriteStatus(db, b, Failed, msg, Some(clock), m.fault)
    case MarkRunning => WriteStatus(db, b, Running, "", None, m.fault)
    case SaveSize => if m.size.Some? && !m.fault then UpdateBuildImageSize(db, b, m.size.value) else db
    case WriteFailed(msg) => WriteStatus(db, b, Failed, msg, Some(t.finishedAt), m.fault)
    case WriteSucceeded => WriteStatus(db, b, Succeeded, "", Some(t.finishedAt), m.fault)
    case _ => db
  }

  /** The cluster's Jobs after the step. */
  function NextJobs(jobs: map<string, JobStatus>, b: string, t: Thread, m: Move): map<string, JobStatus> {
    if t.pc.CreateJob? && (m.err.None? || m.made) then jobs[b := JobStatus(0, 0, "")] else jobs
  }

  /** The cluster's SpinApps after the step. */
  function NextCluster(env: Env, cluster: map<string, D.SpinApp>, b: string, t: Thread, m: Move): map<string, D.SpinApp> {
    if t.pc.Ship? && (m.err.None? || m.made)
    then cluster[t.app.name := D.Desired(env.deploy, t.app, Image(env, t.app, b), 1)] else cluster
  }

  function NextCounters(c: Counters, pc: Pc): Counters {
    match pc
    case CountStart => c.(started := c.started + 1)
    case CountDeploy => c.(deploysApplied := c.deploysApplied + 1)
    case CountFinish(ok) =>
      if ok then c.(finishedOk := c.finishedOk + 1) else c.(finishedFailed := c.finishedFailed + 1)
    case _ => c
  }

  /** Whether the row of a build could be created now. */
  function Inserts(env: Env, s: State, b: string): bool
    requires b in s.threads
  {
    InsertBuild(s.db, NewRow(env, s.threads[b], b), s.clock).Ok?
  }

  function JobOf(s: State, b: string): JobStatus {
    if b in s.jobs then s.jobs[b] else JobStatus(0, 0, "")
  }

  /** The thread of a build after its step, in the terms of the state. */
  function Stepped(env: Env, s: State, b: string, m: Move): Thread
    requires b in s.threads
  {
    NextThread(s.clock, Inserts(env, s, b), b in s.db.builds, JobOf(s, b), s.threads[b], m)
  }

  // ---------- HTTP handlers ----------

  /** loadApplication finds it. */
  predicate HasApplication(db: Db, appId: string) {
    appId in db.applications && db.applications[appId].tenantID == TENANT
  }

  predicate RequestEnabled(s: State, a: Action) {
    match a
    case CreateApp(r, app) =>
      r !in s.requests && app.id !in s.usedApps && app.tenantID == TENANT && app.createdAt == 0
      && app.runtime != Unset && ImageRef.Dns1123(app.name) && InsertApplication(s.db, app, s.clock).Ok?
    case AddDefaultFunction(r, _, _) => r in s.requests && s.requests[r].CreateDefaultFunction?
    case BeginPatch(r, appId, _) => r !in s.requests && HasApplication(s.db, appId)
    case PatchStore(r, _) => r in s.requests && s.requests[r].PatchLoaded?
    case PatchGet(r, _) => r in s.requests && s.requests[r].PatchStored?
    case PatchApply(r, _) => r in s.requests && s.requests[r].PatchRead?
    case BeginDeploy(r, appId, image, _) => r !in s.requests && HasApplication(s.db, appId) && image != ""
    case DeployApply(r, ok, applied) => r in s.requests && s.requests[r].DeployLoaded? && (ok ==> applied)
    case CountDeployed(r) => r in s.requests && s.requests[r].CountHandlerDeploy?
    case BeginDelete(r, appId) => r !in s.requests && HasApplication(s.db, appId)
    case DeleteUndeploy(r, ok, removed) => r in s.requests && s.requests[r].DeleteLoaded? && (ok ==> removed)
    case DeleteRow(r, _) => r in s.requests && s.requests[r].DeleteUndeployed?
    case BeginCreateFunction(r, fn) =>
      r !in s.requests && HasApplication(s.db, fn.applicationID) && ImageRef.Dns1123(fn.name)
    case CreateFunctionRow(r, _) => r in s.requests && s.requests[r].CreateFunctionLoaded?
    case BeginDeleteFunction(r, appId, _) => r !in s.requests && HasApplication(s.db, appId)
    case GetFunctionRow(r, _) => r in s.requests && s.requests[r].DeleteFunctionNamed?
    case CheckFunctions(r, _) => r in s.requests && s.requests[r].DeleteFunctionLoaded?
    case DeleteFunctionRow(r, _) => r in s.requests && s.requests[r].DeleteFunctionChecked?
    case _ => false
  }

  /** UpdateApplicationConfig as the PATCH handler calls it. */
  function StorePatch(env: Env, s: State, q: Request, fault: bool): Result<Db, StoreError>
    requires q.PatchLoaded?
  {
    var p := Patched(env, q.app, q.input);
    if p.None? || fault then Err(Constraint)
    else UpdateConfig(s.db, TENANT, q.app.id, p.value.description, p.value.replicas, p.value.variables,
                      p.value.resources, s.clock)
  }

  /** Creation of the function every new application starts with. */
  function StoreDefaultFunction(s: State, q: Request, id: string, fault: bool): Result<Db, StoreError>
    requires q.CreateDefaultFunction?
  {
    if fault then Err(Constraint) else InsertFunction(s.db, Function(id, q.app.id, "default", "/...", 0, 0), s.clock)
  }

  function OrSame(r: Result<Db, StoreError>, db: Db): Db {
    if r.Ok? then r.value else db
  }

  function RequestDb(env: Env, s: State, a: Action): Db
    requires RequestEnabled(s, a)
  {
    match a
    case CreateApp(_, app) => InsertApplication(s.db, app, s.clock).value
    case AddDefaultFunction(r, id, fault) => OrSame(StoreDefaultFunction(s, s.requests[r], id, fault), s.db)
    case PatchStore(r, fault) => OrSame(StorePatch(env, s, s.requests[r], fault), s.db)
    case DeleteRow(r, fault) =>
      if fault then s.db else OrSame(DeleteApplication(s.db, TENANT, s.requests[r].app.id), s.db)
    case CreateFunctionRow(r, fault) =>
      if fault then s.db else OrSame(InsertFunction(s.db, s.requests[r].fn, s.clock), s.db)
    case DeleteFunctionRow(r, fault) =>
      if fault then s.db else OrSame(DeleteFunction(s.db, s.requests[r].appId, s.requests[r].fnId), s.db)
    case _ => s.db
  }

  function RequestCluster(env: Env, s: State, a: Action): map<string, D.SpinApp>
    requires RequestEnabled(s, a)
  {
    match a
    case PatchApply(r, applied) =>
      var q := s.requests[r];
      if applied then s.cluster[q.app.name := D.Desired(env.deploy, q.app, q.image, 0)] else s.cluster
    case DeployApply(r, _, applied) =>
      var q := s.requests[r];
      if applied then s.cluster[q.app.name := D.Desired(env.deploy, q.app, q.image, q.replicas)] else s.cluster
    case DeleteUndeploy(r, _, removed) =>
      if removed then s.cluster - {s.requests[r].app.name} else s.cluster
    case _ => s.cluster
  }

  /** Where the handler is after the step. */
  function RequestNext(env: Env, s: State, a: Action): Request
    requires RequestEnabled(s, a)
  {
    match a
    case CreateApp(_, app) => CreateDefaultFunction(app)
    case AddDefaultFunction(r, id, fault) =>
      if StoreDefaultFunction(s, s.requests[r], id, fault).Ok? then Done(false) else DeleteUndeployed(s.requests[r].app)
    case BeginPatch(_, appId, input) => PatchLoaded(s.db.applications[appId], input)
    case PatchStore(r, fault) =>
      var q := s.requests[r];
      if StorePatch(env, s, q, fault).Ok? && TouchesCluster(q.app, q.input)
      then PatchStored(Patched(env, q.app, q.input).value) else Done(false)
    case PatchGet(r, fault) =>
      var app := s.requests[r].app;
      if !fault && app.name in s.cluster && s.cluster[app.name].image != ""
      then PatchRead(app, s.cluster[app.name].image) else Done(false)
    case PatchApply(_, _) => Done(false)
    case BeginDeploy(_, appId, image, replicas) =>
      DeployLoaded(s.db.applications[appId], image, if replicas < 1 then 1 else replicas)
    case DeployApply(_, ok, _) => if ok then CountHandlerDeploy else Done(false)
    case CountDeployed(_) => Done(true)
    case BeginDelete(_, appId) =>
      var app := s.db.applications[appId];
      if app.runtime == WorkerPool then DeleteUndeployed(app) else DeleteLoaded(app)
    case DeleteUndeploy(r, ok, _) => if ok then DeleteUndeployed(s.requests[r].app) else Done(false)
    case DeleteRow(_, _) => Done(false)
    case BeginCreateFunction(_, fn) => CreateFunctionLoaded(fn)
    case CreateFunctionRow(_, _) => Done(false)
    case BeginDeleteFunction(_, appId, fnId) => DeleteFunctionNamed(appId, fnId)
    case GetFunctionRow(r, fault) =>
      var q := s.requests[r];
      if !fault && HasFunction(s.db, q.appId, q.fnId) then DeleteFunctionLoaded(q.appId, q.fnId) else Done(false)
    case CheckFunctions(r, fault) =>
      var q := s.requests[r];
      if !fault && |FunctionsOf(s.db, q.appId)| > 1 then DeleteFunctionChecked(q.appId, q.fnId) else Done(false)
    case DeleteFunctionRow(_, _) => Done(false)
  }

  // ---------- the feed and the worker ----------

  predicate PollEnabled(s: State, a: Action) {
    match a
    case PollList(_) => s.poll.Idle?
    case PollBuilds(_) => s.poll.Listing? && s.poll.k < |s.poll.apps|
    case PollDeliver => s.poll.Listing? && s.poll.k == |s.poll.apps|
    case PollAbort => s.poll.Listing?
    case SyncLook => s.poll.Adding? && |s.poll.os| < |s.poll.feed|
    case SyncPull(_) => s.poll.Pulling? && |s.poll.os| < |s.poll.feed|
    case SyncInsert =>
      s.poll.Inserting? && |s.poll.os| < |s.poll.feed|
      && LoadCurrent(s.poll, s.poll.o).Ok?
    case SyncScan => s.poll.Adding? && |s.poll.os| == |s.poll.feed|
    case SyncRemove => s.poll.Removing?
    case _ => false
  }

  /** The store answers a list query with a list the schema allows. */
  ghost predicate AnswersFit(s: State, a: Action) {
    (a.PollList? ==> s.poll.Idle? && IsApplicationList(s.db, TENANT, a.apps)) &&
    (a.PollBuilds? && a.out.Some? && s.poll.Listing? && s.poll.k < |s.poll.apps| ==>
      IsBuildList(s.db, s.poll.apps[s.poll.k].id, FEED_WINDOW, a.out.value))
  }

  /** Stands for the pull that an unchanged entry does not start. */
  const NO_PULL := Outside(None, {}, {})

  /** The entry the handler appends for the application it is at, if any. */
  function FeedEntry(app: Application, out: Option<seq<Build>>): Option<Feed> {
    if app.runtime != WorkerPool || out.None? then None
    else
      var x := FirstSucceeded(out.value);
      if x.None? then None else Some(Feed(app.name, x.value.imageRef, x.value.id))
  }

  /** The wanted entry the worker is at. */
  function Current(p: Poll): Feed
    requires (p.Adding? || p.Pulling? || p.Inserting?) && |p.os| < |p.feed|
  {
    p.feed[|p.os|]
  }

  function LoadCurrent(p: Poll, o: Outside): Result<AppEntry, LoadError>
    requires (p.Adding? || p.Pulling? || p.Inserting?) && |p.os| < |p.feed|
  {
    Load(Current(p).name, Current(p).imageRef, o)
  }

  predicate CurrentUnchanged(table: Table, p: Poll)
    requires p.Adding? && |p.os| < |p.feed|
  {
    Unchanged(table, Want(Current(p).name, Current(p).imageRef))
  }

  function Unwanted(table: Table, feed: seq<Feed>): set<string> {
    set n | n in table && !Wanted(Wants(feed), n)
  }

  function PollNext(table: Table, p: Poll, a: Action): Poll {
    match a
    case PollList(apps) => Listing(apps, 0, [])
    case PollBuilds(out) =>
      if p.Listing? && p.k < |p.apps| then
        var e := FeedEntry(p.apps[p.k], out);
        Listing(p.apps, p.k + 1, if e.Some? then p.feed + [e.value] else p.feed)
      else p
    case PollDeliver => if p.Listing? then Adding(p.feed, table, []) else p
    case PollAbort => Idle
    case SyncLook =>
      if p.Adding? && |p.os| < |p.feed| then
        if CurrentUnchanged(table, p) then Adding(p.feed, p.start, p.os + [NO_PULL]) else Pulling(p.feed, p.start, p.os)
      else p
    case SyncPull(o) =>
      if p.Pulling? && |p.os| < |p.feed| then
        if LoadCurrent(p, o).Ok? then Inserting(p.feed, p.start, p.os, o) else Adding(p.feed, p.start, p.os + [o])
      else p
    case SyncInsert => if p.Inserting? then Adding(p.feed, p.start, p.os + [p.o]) else p
    case SyncScan =>
      if p.Adding? then
        var names := Unwanted(table, p.feed);
        if names == {} then Idle else Removing(p.feed, p.start, p.os, names)
      else p
    case SyncRemove => Idle
    case _ => p
  }

  function PollTable(table: Table, p: Poll, a: Action): Table {
    if a.SyncInsert? && p.Inserting? && |p.os| < |p.feed| && LoadCurrent(p, p.o).Ok?
    then table[Current(p).name := LoadCurrent(p, p.o).value]
    else if a.SyncRemove? && p.Removing? then table - p.names
    else table
  }

  function PollServed(table: Table, served: map<string, string>, p: Poll, a: Action): map<string, string> {
    if (a.SyncInsert? && p.Inserting? && |p.os| < |p.feed|)
       || (a.SyncLook? && p.Adding? && |p.os| < |p.feed| && CurrentUnchanged(table, p))
    then served[Current(p).name := Current(p).build] else served
  }

  /** No list query and no pull has failed since the poll began. */
  function PollClean(clean: bool, p: Poll, a: Action): bool {
    match a
    case PollList(_) => true
    case PollBuilds(out) => clean && !(p.Listing? && p.k < |p.apps| && p.apps[p.k].runtime == WorkerPool && out.None?)
    case SyncPull(o) => clean && p.Pulling? && |p.os| < |p.feed| && LoadCurrent(p, o).Ok?
    case _ => clean
  }

  // ---------- the system ----------

  /** A build that an earlier process has left in the table. */
  function Leftover(db: Db, b: string): Thread
    requires b in db.builds && db.builds[b].applicationID in db.applications
  {
    var row := db.builds[b];
    Thread(db.applications[row.applicationID], row.createdAt, 0, LeftBehind(row.status), false, false, false, row.status == Succeeded)
  }

  predicate IsTerminal(status: Status) {
    status == Succeeded || status == Failed
  }

  /** A row as a process with the same registry leaves it. */
  predicate CanBeLeft(env: Env, db: Db, b: string, clock: nat)
    requires b in db.builds && db.builds[b].applicationID in db.applications
  {
    var row, app := db.builds[b], db.applications[db.builds[b].applicationID];
    && ImageRef.BuildId(b) && row.imageRef == Image(env, app, b) && app.createdAt <= row.createdAt <= clock && 0 < row.createdAt
    && (row.finishedAt.Some? <==> IsTerminal(row.status)) && (row.finishedAt.Some? ==> row.createdAt <= row.finishedAt.value)
    && (row.error != "" <==> row.status == Failed)
  }

  ghost predicate Init(env: Env, s: State) {
    && ValidDb(s.db)
    && (forall k :: k in s.db.applications ==>
         s.db.applications[k].tenantID == TENANT && s.db.applications[k].createdAt <= s.clock
         && s.db.applications[k].runtime != Unset && ImageRef.Dns1123(s.db.applications[k].name))
    && (forall b :: b in s.db.builds ==> CanBeLeft(env, s.db, b, s.clock))
    && s.usedApps == (map k | k in s.db.applications :: IdentityOf(s.db.applications[k]))
    && s.clock > 0
    && s.threads == (map b | b in s.db.builds :: Leftover(s.db, b))
    && (forall n :: n in s.cluster ==> s.cluster[n].name == n)
    && s.requests == map[] && s.posted == (set n | n in s.cluster :: (n, s.cluster[n].image))
    && s.counters == Counters(0, 0, 0, 0)
    && s.poll == Idle && s.table == map[] && s.served == map[]
    && !s.faulted
  }

  ghost predicate Enabled(env: Env, s: State, a: Action) {
    AnswersFit(s, a) &&
    match a
    case Tick(to) => s.clock <= to
    case BeginBuild(b, appId) => b !in s.threads && ImageRef.BuildId(b) && HasApplication(s.db, appId)
    case Step(b, m) => StepEnabled(s, b, m)
    case JobMoves(b, _) => b in s.jobs
    case JobGone(b) => b in s.jobs
    case _ => RequestEnabled(s, a) || PollEnabled(s, a)
  }

  /** A build whose handler has just loaded the application. */
  function Begun(s: State, appId: string): Thread
    requires HasApplication(s.db, appId)
  {
    Thread(s.db.applications[appId], 0, 0, Prepare, false, false, false, false)
  }

  // The parts of the state after a step.

  function DbAfter(env: Env, s: State, a: Action): Db {
    if a.Step? && a.b in s.threads then NextDb(env, s.clock, s.db, a.b, s.threads[a.b], a.m)
    else if RequestEnabled(s, a) then RequestDb(env, s, a)
    else s.db
  }

  function UsedAfter(s: State, a: Action): map<string, Identity> {
    if a.CreateApp? then s.usedApps[a.app.id := IdentityOf(Defaulted(a.app, s.clock))] else s.usedApps
  }

  function JobsAfter(s: State, a: Action): map<string, JobStatus> {
    match a
    case Step(b, m) => if b in s.threads then NextJobs(s.jobs, b, s.threads[b], m) else s.jobs
    case JobMoves(b, job) => s.jobs[b := job]
    case JobGone(b) => s.jobs - {b}
    case _ => s.jobs
  }

  function ThreadsAfter(env: Env, s: State, a: Action): map<string, Thread> {
    if a.Step? && a.b in s.threads then s.threads[a.b := Stepped(env, s, a.b, a.m)]
    else if a.BeginBuild? && HasApplication(s.db, a.appId) then s.threads[a.b := Begun(s, a.appId)]
    else s.threads
  }

  function ClusterAfter(env: Env, s: State, a: Action): map<string, D.SpinApp> {
    if a.Step? && a.b in s.threads then NextCluster(env, s.cluster, a.b, s.threads[a.b], a.m)
    else if RequestEnabled(s, a) then RequestCluster(env, s, a)
    else s.cluster
  }

  function RequestsAfter(env: Env, s: State, a: Action): map<string, Request> {
    if RequestEnabled(s, a) then s.requests[a.r := RequestNext(env, s, a)] else s.requests
  }

  function PostedAfter(s: State, a: Action): set<(string, string)> {
    if a.BeginDeploy? && a.appId in s.db.applications then s.posted + {(s.db.applications[a.appId].name, a.image)}
    else s.posted
  }

  function CountersAfter(s: State, a: Action): Counters {
    if a.Step? && a.b in s.threads then NextCounters(s.counters, s.threads[a.b].pc)
    else if a.CountDeployed? then s.counters.(deploysApplied := s.counters.deploysApplied + 1)
    else s.counters
  }

  /** `quiet` says the store has not changed since the last PollList. */
  ghost function Next(env: Env, s: State, a: Action): State
    requires Enabled(env, s, a)
  {
    State(if a.Tick? then a.to else s.clock,
          DbAfter(env, s, a),
          UsedAfter(s, a),
          JobsAfter(s, a),
          ThreadsAfter(env, s, a),
          ClusterAfter(env, s, a),
          RequestsAfter(env, s, a),
          PostedAfter(s, a),
          CountersAfter(s, a),
          PollNext(s.table, s.poll, a),
          PollTable(s.table, s.poll, a),
          PollServed(s.table, s.served, s.poll, a),
          s.faulted || (a.Step? && a.m.fault),
          a.PollList? || (s.quiet && DbAfter(env, s, a) == s.db),
          PollClean(s.clean, s.poll, a))
  }

  ghost predicate StepsAt(env: Env, ss: seq<State>, acts: seq<Action>, i: nat)
    requires i < |acts| && i + 1 < |ss|
  {
    Enabled(env, ss[i], acts[i]) && ss[i + 1] == Next(env, ss[i], acts[i])
  }

  /** States with the actions between them. */
  ghost predicate Segment(env: Env, ss: seq<State>, acts: seq<Action>) {
    |ss| == |acts| + 1 && forall i :: 0 <= i < |acts| ==> StepsAt(env, ss, acts, i)
  }

  /** A run. */
  ghost predicate Execution(env: Env, ss: seq<State>, acts: seq<Action>) {
    Segment(env, ss, acts) && Init(env, ss[0])
  }
}
