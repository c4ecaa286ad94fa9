/** What the three ways to deploy put on the cluster, over every run of the system of `Protocol`. */
module Publishing {
  import opened Wrappers
  import opened Store
  import opened Protocol
  import opened Builds
  import opened Theorems
  import opened Outcomes
  import P = Policy
  import D = Deploy

  // ---------- events ----------

  /** Step `j` loads this row for build `b`. */
  ghost predicate LoadsForBuild(ss: seq<State>, acts: seq<Action>, j: nat, b: string, app: Application) {
    j < |acts| && j < |ss| && acts[j].BeginBuild? && acts[j].b == b
    && acts[j].appId in ss[j].db.applications && app == ss[j].db.applications[acts[j].appId]
  }

  /** Step `j` loads this row for the /deploy request `r` of this image and so many replicas. */
  ghost predicate LoadsForDeploy(ss: seq<State>, acts: seq<Action>, j: nat, r: string, app: Application, image: string, given: int) {
    j < |acts| && j < |ss| && acts[j] == BeginDeploy(r, app.id, image, given)
    && app.id in ss[j].db.applications && app == ss[j].db.applications[app.id]
  }

  /** Step `j` loads this row for the PATCH request `r` with this input. */
  ghost predicate LoadsForPatch(ss: seq<State>, acts: seq<Action>, j: nat, r: string, app: Application, input: PatchInput) {
    j < |acts| && j < |ss| && acts[j] == BeginPatch(r, app.id, input)
    && app.id in ss[j].db.applications && app == ss[j].db.applications[app.id]
  }

  /** Step `l` is the store call of PATCH request `r`, and leaves this row. */
  ghost predicate StoresPatch(ss: seq<State>, acts: seq<Action>, l: nat, r: string, row: Application) {
    l < |acts| && l + 1 < |ss| && acts[l] == PatchStore(r, false)
    && row.id in ss[l + 1].db.applications && row == ss[l + 1].db.applications[row.id]
  }

  /** At step `m` PATCH request `r` reads that this image runs. */
  ghost predicate ReadsImage(ss: seq<State>, acts: seq<Action>, m: nat, r: string, name: string, image: string) {
    m < |acts| && m < |ss| && acts[m] == PatchGet(r, false) && name in ss[m].cluster && ss[m].cluster[name].image == image
  }

  /** Step `k` puts this row's SpinApp on the cluster, and touches no other. */
  ghost predicate Applied(env: Env, ss: seq<State>, k: nat, app: Application, image: string, requested: int) {
    k + 1 < |ss| && ss[k + 1].cluster - {app.name} == ss[k].cluster - {app.name}
    && app.name in ss[k + 1].cluster && D.Publishes(env.deploy, app, image, requested, ss[k + 1].cluster[app.name])
  }

  // ---------- a build's own deploy ----------

  ghost predicate BuildLoaded(ss: seq<State>, acts: seq<Action>, i: nat, b: string, t: Thread) {
    t.pc.LeftBehind? || exists j :: 0 <= j < i && LoadsForBuild(ss, acts, j, b, t.app)
  }

  lemma BuildLoadedNext(env: Env, ss: seq<State>, acts: seq<Action>, i: nat, b: string)
    requires Execution(env, ss, acts) && i < |acts| && b in ss[i + 1].threads
    requires b in ss[i].threads ==> BuildLoaded(ss, acts, i, b, ss[i].threads[b])
    ensures BuildLoaded(ss, acts, i + 1, b, ss[i + 1].threads[b])
  {
    var s, a := ss[i], acts[i];
    assert StepsAt(env, ss, acts, i);
    assert ss[i + 1].threads == ThreadsAfter(env, s, a);
    if a.Step? && a.b == b {
      StepKeepsApp(s.clock, Inserts(env, s, b), b in s.db.builds, JobOf(s, b), s.threads[b], a.m);
    } else if a.BeginBuild? && a.b == b {
      assert LoadsForBuild(ss, acts, i, b, ss[i + 1].threads[b].app);
    }
  }

  lemma {:induction false} BuildWasLoaded(env: Env, ss: seq<State>, acts: seq<Action>, i: nat, b: string)
    requires Execution(env, ss, acts) && i < |ss| && b in ss[i].threads
    ensures BuildLoaded(ss, acts, i, b, ss[i].threads[b])
  {
    if i > 0 {
      if b in ss[i - 1].threads { BuildWasLoaded(env, ss, acts, i - 1, b); }
      BuildLoadedNext(env, ss, acts, i - 1, b);
    }
  }

  /** Step `k` is the deploy of build `b`, and takes effect. */
  ghost predicate ShipsAt(ss: seq<State>, acts: seq<Action>, k: nat, b: string) {
    Takes(ss, acts, k, b) && ss[k].threads[b].pc.Ship? && (acts[k].m.err.None? || acts[k].m.made)
  }

  /** The row as loaded when the build began, with the build's image and one replica. */
  ghost predicate FromBuild(env: Env, ss: seq<State>, acts: seq<Action>, k: nat, b: string, app: Application) {
    (exists j :: 0 <= j < k && LoadsForBuild(ss, acts, j, b, app)) && Applied(env, ss, k, app, Image(env, app, b), 1)
  }

  lemma DesiredApplies(env: Env, ss: seq<State>, k: nat, app: Application, image: string, requested: int)
    requires k + 1 < |ss| && ss[k + 1].cluster == ss[k].cluster[app.name := D.Desired(env.deploy, app, image, requested)]
    ensures Applied(env, ss, k, app, image, requested)
  {
    D.DesiredPublishesIff(env.deploy, app, image, requested, D.Desired(env.deploy, app, image, requested));
  }

  /** A build's own deploy. */
  lemma ShipPublishes(env: Env, ss: seq<State>, acts: seq<Action>, k: nat, b: string)
    requires Execution(env, ss, acts) && k < |acts| && ShipsAt(ss, acts, k, b)
    ensures exists app :: FromBuild(env, ss, acts, k, b, app)
  {
    var t := ss[k].threads[b];
    assert StepsAt(env, ss, acts, k);
    assert ss[k + 1].cluster == NextCluster(env, ss[k].cluster, b, t, acts[k].m);
    DesiredApplies(env, ss, k, t.app, Image(env, t.app, b), 1);
    BuildWasLoaded(env, ss, acts, k, b);
    assert FromBuild(env, ss, acts, k, b, t.app);
  }

  // ---------- what the row of a build starts with ----------

  /** Step `k` takes the stamp of build `b`, for the application loaded at step `j`. */
  ghost predicate StampedAt(ss: seq<State>, acts: seq<Action>, j: nat, k: nat, b: string, app: Application) {
    j < k && LoadsForBuild(ss, acts, j, b, app) && Takes(ss, acts, k, b) && ss[k].threads[b].pc.Prepare?
  }

  ghost predicate Stamped(ss: seq<State>, acts: seq<Action>, i: nat, b: string, t: Thread) {
    t.pc.LeftBehind? || t.pc.Prepare? || exists j, k :: 0 <= j < k < i && StampedAt(ss, acts, j, k, b, t.app) && t.createdAt == ss[k].clock
  }

  lemma EarlyStampStays(clock: nat, inserted: bool, present: bool, job: JobStatus, t: Thread, m: Move)
    requires Starts(t.pc)
    ensures var u := NextThread(clock, inserted, present, job, t, m);
      u.createdAt == (if t.pc.Prepare? then clock else t.createdAt) && !u.pc.LeftBehind?
  {
  }

  lemma LateStampStays(clock: nat, inserted: bool, present: bool, job: JobStatus, t: Thread, m: Move)
    requires !Starts(t.pc)
    ensures var u := NextThread(clock, inserted, present, job, t, m);
      u.createdAt == t.createdAt && (u.pc.LeftBehind? ==> t.pc.LeftBehind?) && (t.pc.LeftBehind? ==> u.pc.LeftBehind?) && !u.pc.Prepare?
  {
  }

  lemma StampStays(clock: nat, inserted: bool, present: bool, job: JobStatus, t: Thread, m: Move)
    ensures var u := NextThread(clock, inserted, present, job, t, m);
      && u.app == t.app && u.createdAt == (if t.pc.Prepare? then clock else t.createdAt)
      && (u.pc.LeftBehind? ==> t.pc.LeftBehind?) && (t.pc.LeftBehind? ==> u.pc.LeftBehind?)
  {
    StepKeepsApp(clock, inserted, present, job, t, m);
    if Starts(t.pc) { EarlyStampStays(clock, inserted, present, job, t, m); } else { LateStampStays(clock, inserted, present, job, t, m); }
  }

  lemma StampedNext(env: Env, ss: seq<State>, acts: seq<Action>, i: nat, b: string)
    requires Execution(env, ss, acts) && i < |acts| && b in ss[i + 1].threads
    requires b in ss[i].threads ==> Stamped(ss, acts, i, b, ss[i].threads[b])
    ensures Stamped(ss, acts, i + 1, b, ss[i + 1].threads[b])
  {
    var s, a := ss[i], acts[i];
    assert StepsAt(env, ss, acts, i);
    assert ss[i + 1].threads == ThreadsAfter(env, s, a);
    if a.Step? && a.b == b {
      StampStays(s.clock, Inserts(env, s, b), b in s.db.builds, JobOf(s, b), s.threads[b], a.m);
      if s.threads[b].pc.Prepare? {
        BuildWasLoaded(env, ss, acts, i, b);
        var j :| 0 <= j < i && LoadsForBuild(ss, acts, j, b, s.threads[b].app);
        assert StampedAt(ss, acts, j, i, b, s.threads[b].app);
      }
    }
  }

  lemma {:induction false} StampedAlong(env: Env, ss: seq<State>, acts: seq<Action>, i: nat, b: string)
    requires Execution(env, ss, acts) && i < |ss| && b in ss[i].threads
    ensures Stamped(ss, acts, i, b, ss[i].threads[b])
  {
    if i > 0 {
      if b in ss[i - 1].threads { StampedAlong(env, ss, acts, i - 1, b); }
      StampedNext(env, ss, acts, i - 1, b);
    }
  }

  /** The row belongs to the application loaded, names its image in the registry, and has the time at which the stamp was taken. */
  ghost predicate RowBegins(env: Env, ss: seq<State>, acts: seq<Action>, i: nat, b: string, row: Build) {
    exists j, k, app :: 0 <= j < k < i && StampedAt(ss, acts, j, k, b, app) && row.createdAt == ss[k].clock
      && row.id == b && row.applicationID == app.id && row.imageRef == env.registry + "/" + app.name + ":" + b
  }

  /** In every state the row of a build of this process tells how the build began. */
  lemma RowTellsItsStart(env: Env, ss: seq<State>, acts: seq<Action>, i: nat, b: string)
    requires Execution(env, ss, acts) && i < |ss| && b in ss[i].db.builds && b !in ss[0].db.builds
    ensures RowBegins(env, ss, acts, i, b, ss[i].db.builds[b])
  {
    InvHolds(env, ss, acts, i);
    var t := ss[i].threads[b];
    assert RowFits(Image(env, t.app, b), ss[i].db.builds[b], t, ss[i].faulted);
    StampedAlong(env, ss, acts, i, b);
    if t.pc.LeftBehind? {
      LeftBehindSinceStart(env, ss, acts, i, b);
    } else {
      var j, k :| 0 <= j < k < i && StampedAt(ss, acts, j, k, b, t.app) && t.createdAt == ss[k].clock;
      assert RowBegins(env, ss, acts, i, b, ss[i].db.builds[b]);
    }
  }

  // ---------- /deploy and PATCH ----------

  /** The row the store is left with is the one given, with no fewer than one replica. */
  ghost predicate RowStored(before: map<string, Application>, after: map<string, Application>, app: Application, now: nat) {
    app.id in before && app.id in after &&
    after[app.id] == before[app.id].(description := app.description, replicas := if app.replicas <= 0 then 1 else app.replicas,
                                     variables := app.variables, resources := app.resources, updatedAt := now)
  }

  /** Steps `j` and `l` load the row and store what the PATCH makes of it. */
  ghost predicate PatchedAt(env: Env, ss: seq<State>, acts: seq<Action>, j: nat, l: nat, r: string, before: Application, app: Application) {
    && j < |acts| && acts[j].BeginPatch? && LoadsForPatch(ss, acts, j, r, before, acts[j].input)
    && Patched(env, before, acts[j].input) == Some(app)
    && l < |acts| && l + 1 < |ss| && acts[l] == PatchStore(r, false)
    && RowStored(ss[l].db.applications, ss[l + 1].db.applications, app, ss[l].clock)
  }

  ghost predicate PatchStoredBefore(env: Env, ss: seq<State>, acts: seq<Action>, i: nat, r: string, app: Application) {
    exists j, l, before :: 0 <= j < l < i && PatchedAt(env, ss, acts, j, l, r, before, app)
  }

  ghost predicate ImageReadBefore(env: Env, ss: seq<State>, acts: seq<Action>, i: nat, r: string, app: Application, image: string) {
    exists m :: 0 <= m < i && ReadsImage(ss, acts, m, r, app.name, image) && PatchStoredBefore(env, ss, acts, m, r, app)
  }

  ghost predicate DeployLoadedBefore(ss: seq<State>, acts: seq<Action>, i: nat, r: string, q: Request)
    requires q.DeployLoaded?
  {
    exists j, given :: 0 <= j < i && LoadsForDeploy(ss, acts, j, r, q.app, q.image, given) && q.replicas == if given < 1 then 1 else given
  }

  ghost predicate PatchLoadedBefore(ss: seq<State>, acts: seq<Action>, i: nat, r: string, app: Application, input: PatchInput) {
    exists j :: 0 <= j < i && LoadsForPatch(ss, acts, j, r, app, input)
  }

  /** Where a handler is tells what it has done. */
  ghost predicate HandlerKnows(env: Env, ss: seq<State>, acts: seq<Action>, i: nat, r: string, q: Request) {
    match q
    case DeployLoaded(_, _, _) => DeployLoadedBefore(ss, acts, i, r, q)
    case PatchLoaded(app, input) => PatchLoadedBefore(ss, acts, i, r, app, input)
    case PatchStored(app) => PatchStoredBefore(env, ss, acts, i, r, app)
    case PatchRead(app, image) => ImageReadBefore(env, ss, acts, i, r, app, image)
    case _ => true
  }

  lemma HandlerKnowsLater(env: Env, ss: seq<State>, acts: seq<Action>, i: nat, j: nat, r: string, q: Request)
    requires HandlerKnows(env, ss, acts, i, r, q) && i <= j
    ensures HandlerKnows(env, ss, acts, j, r, q)
  {
  }

  lemma PatchIsStored(env: Env, s: State, a: Action, r: string)
    requires Enabled(env, s, a) && RequestEnabled(s, a) && a.r == r && RequestNext(env, s, a).PatchStored?
    ensures a == PatchStore(r, false) && s.requests[r].PatchLoaded?
    ensures Patched(env, s.requests[r].app, s.requests[r].input) == Some(RequestNext(env, s, a).app)
    ensures RowStored(s.db.applications, DbAfter(env, s, a).applications, RequestNext(env, s, a).app, s.clock)
  {
    var q := s.requests[r];
    assert StorePatch(env, s, q, a.fault).Ok?;
  }

  lemma DeployIsLoaded(env: Env, s: State, a: Action)
    requires AppsOk(s.clock, s.usedApps, s.db.applications) && RequestEnabled(s, a) && RequestNext(env, s, a).DeployLoaded?
    ensures var q := RequestNext(env, s, a);
      && a.BeginDeploy? && a.appId == q.app.id && q.image == a.image && q.replicas == (if a.replicas < 1 then 1 else a.replicas)
      && q.app.id in s.db.applications && q.app == s.db.applications[q.app.id]
  {
  }

  lemma PatchIsLoaded(env: Env, s: State, a: Action)
    requires AppsOk(s.clock, s.usedApps, s.db.applications) && RequestEnabled(s, a) && RequestNext(env, s, a).PatchLoaded?
    ensures var q := RequestNext(env, s, a);
      && a.BeginPatch? && a.appId == q.app.id && q.input == a.input
      && q.app.id in s.db.applications && q.app == s.db.applications[q.app.id]
  {
  }

  lemma ImageIsRead(env: Env, s: State, a: Action)
    requires RequestEnabled(s, a) && RequestNext(env, s, a).PatchRead?
    ensures var q := RequestNext(env, s, a);
      a == PatchGet(a.r, false) && s.requests[a.r] == PatchStored(q.app) && q.app.name in s.cluster && s.cluster[q.app.name].image == q.image
  {
  }

  lemma HandlerLearns(env: Env, ss: seq<State>, acts: seq<Action>, i: nat)
    requires i < |acts| && i + 1 < |ss| && StepsAt(env, ss, acts, i) && AppsOk(ss[i].clock, ss[i].usedApps, ss[i].db.applications)
    requires RequestEnabled(ss[i], acts[i])
    requires acts[i].r in ss[i].requests ==> HandlerKnows(env, ss, acts, i, acts[i].r, ss[i].requests[acts[i].r])
    ensures HandlerKnows(env, ss, acts, i + 1, acts[i].r, RequestNext(env, ss[i], acts[i]))
  {
    var s, a := ss[i], acts[i];
    var r, q := a.r, RequestNext(env, s, a);
    if q.DeployLoaded? {
      DeployIsLoaded(env, s, a);
      assert LoadsForDeploy(ss, acts, i, r, q.app, q.image, a.replicas);
    } else if q.PatchLoaded? {
      PatchIsLoaded(env, s, a);
      assert LoadsForPatch(ss, acts, i, r, q.app, q.input);
    } else if q.PatchStored? {
      PatchIsStored(env, s, a, r);
      var p := s.requests[r];
      var j :| 0 <= j < i && LoadsForPatch(ss, acts, j, r, p.app, p.input);
      assert PatchedAt(env, ss, acts, j, i, r, p.app, q.app);
    } else if q.PatchRead? {
      ImageIsRead(env, s, a);
      assert ReadsImage(ss, acts, i, r, q.app.name, q.image);
    }
  }

  lemma HandlerKnowsNext(env: Env, ss: seq<State>, acts: seq<Action>, i: nat, r: string)
    requires Execution(env, ss, acts) && i < |acts| && r in ss[i + 1].requests
    requires r in ss[i].requests ==> HandlerKnows(env, ss, acts, i, r, ss[i].requests[r])
    ensures HandlerKnows(env, ss, acts, i + 1, r, ss[i + 1].requests[r])
  {
    InvHolds(env, ss, acts, i);
    assert StepsAt(env, ss, acts, i);
    assert ss[i + 1].requests == RequestsAfter(env, ss[i], acts[i]);
    if RequestEnabled(ss[i], acts[i]) && acts[i].r == r {
      HandlerLearns(env, ss, acts, i);
    } else {
      HandlerKnowsLater(env, ss, acts, i, i + 1, r, ss[i].requests[r]);
    }
  }

  lemma {:induction false} HandlerKnowsAlong(env: Env, ss: seq<State>, acts: seq<Action>, i: nat, r: string)
    requires Execution(env, ss, acts) && i < |ss| && r in ss[i].requests
    ensures HandlerKnows(env, ss, acts, i, r, ss[i].requests[r])
  {
    if i > 0 {
      if r in ss[i - 1].requests { HandlerKnowsAlong(env, ss, acts, i - 1, r); }
      HandlerKnowsNext(env, ss, acts, i - 1, r);
    }
  }

  /** The row as loaded when the request came, with the image and the replicas it asks for, at least one. */
  ghost predicate FromDeploy(env: Env, ss: seq<State>, acts: seq<Action>, k: nat, r: string, app: Application, image: string, given: int) {
    (exists j :: 0 <= j < k && LoadsForDeploy(ss, acts, j, r, app, image, given))
    && Applied(env, ss, k, app, image, if given < 1 then 1 else given)
  }

  lemma DeployedBy(env: Env, s: State, r: string, ok: bool)
    requires RequestEnabled(s, DeployApply(r, ok, true))
    ensures var q := s.requests[r];
      ClusterAfter(env, s, DeployApply(r, ok, true)) == s.cluster[q.app.name := D.Desired(env.deploy, q.app, q.image, q.replicas)]
  {
  }

  /** A request to /deploy. */
  lemma DeployPublishes(env: Env, ss: seq<State>, acts: seq<Action>, k: nat, r: string)
    requires Execution(env, ss, acts) && k < |acts| && acts[k].DeployApply? && acts[k].r == r && acts[k].applied
    ensures exists app, image, given :: FromDeploy(env, ss, acts, k, r, app, image, given)
  {
    assert StepsAt(env, ss, acts, k);
    DeployedBy(env, ss[k], r, acts[k].ok);
    HandlerKnowsAlong(env, ss, acts, k, r);
    var q := ss[k].requests[r];
    var j, given :| 0 <= j < k && LoadsForDeploy(ss, acts, j, r, q.app, q.image, given) && q.replicas == if given < 1 then 1 else given;
    DesiredApplies(env, ss, k, q.app, q.image, q.replicas);
    assert FromDeploy(env, ss, acts, k, r, q.app, q.image, given);
  }

  /** The stored row follows from the row loaded and what the PATCH gives. */
  ghost predicate Merges(p: P.ResourcePolicy, input: PatchInput, before: Application, row: Application) {
    && row.id == before.id && row.name == before.name && row.tenantID == before.tenantID
    && Follows(input.description, before.description, row.description) && Follows(input.variables, before.variables, row.variables)
    && (p.mode != "forced" ==> Follows(input.resources, before.resources, row.resources))
    && (input.replicas.Some? && input.replicas.value > 0 ==> row.replicas == input.replicas.value)
    && (input.replicas == Some(0) ==> row.replicas == 1)
    && (input.replicas.None? && before.replicas > 0 ==> row.replicas == before.replicas)
  }

  lemma PatchedMerges(env: Env, before: Application, input: PatchInput, app: Application, row: Application)
    requires Patched(env, before, input) == Some(app)
    requires row.id == app.id && row.name == app.name && row.tenantID == app.tenantID && row.description == app.description
    requires row.variables == app.variables && row.resources == app.resources
    requires row.replicas == if app.replicas <= 0 then 1 else app.replicas
    ensures Merges(env.deploy.policy, input, before, row)
    ensures P.Clamp(env.deploy.policy, row.resources) == row.resources
    ensures app.id == before.id && app.name == before.name && app.tenantID == before.tenantID
  {
  }

  lemma {:induction false} IdentityStays(env: Env, ss: seq<State>, acts: seq<Action>, i: nat, j: nat, id: string)
    requires Execution(env, ss, acts) && i <= j < |ss| && id in ss[i].usedApps
    ensures id in ss[j].usedApps && ss[j].usedApps[id] == ss[i].usedApps[id]
  {
    if i < j {
      IdentityStays(env, ss, acts, i, j - 1, id);
      assert StepsAt(env, ss, acts, j - 1);
      UsedStays(env, ss[j - 1], acts[j - 1], id);
    }
  }

  lemma UsedStays(env: Env, s: State, a: Action, id: string)
    requires Enabled(env, s, a) && id in s.usedApps
    ensures id in UsedAfter(s, a) && UsedAfter(s, a)[id] == s.usedApps[id]
  {
    assert a.CreateApp? ==> a.app.id !in s.usedApps;
  }

  /** A row keeps its name as long as its application lives. */
  lemma SameIdentity(env: Env, ss: seq<State>, acts: seq<Action>, i: nat, j: nat, id: string)
    requires Execution(env, ss, acts) && i <= j < |ss| && id in ss[i].db.applications && id in ss[j].db.applications
    ensures var x, y := ss[i].db.applications[id], ss[j].db.applications[id];
      x.id == y.id == id && x.name == y.name && x.tenantID == y.tenantID
  {
    InvHolds(env, ss, acts, i);
    InvHolds(env, ss, acts, j);
    IdentityStays(env, ss, acts, i, j, id);
  }

  /** The row as the PATCH has stored it, with the image that was read to run after that and the row's own replicas and resources. */
  ghost predicate FromPatch(env: Env, ss: seq<State>, acts: seq<Action>, k: nat, r: string, row: Application, image: string) {
    && (exists m :: 0 <= m < k && ReadsImage(ss, acts, m, r, row.name, image) && RowPatched(env, ss, acts, m, r, row))
    && Applied(env, ss, k, row, image, 0)
    && ss[k + 1].cluster[row.name].replicas == row.replicas && ss[k + 1].cluster[row.name].resources == row.resources
  }

  /** Before state `m` the row was loaded, and stored with what the PATCH gives put in. */
  ghost predicate RowPatched(env: Env, ss: seq<State>, acts: seq<Action>, m: nat, r: string, row: Application) {
    exists j, l, before, input :: 0 <= j < l < m &&
      LoadsForPatch(ss, acts, j, r, before, input) && StoresPatch(ss, acts, l, r, row) && Merges(env.deploy.policy, input, before, row)
  }

  lemma StoredRow(env: Env, ss: seq<State>, acts: seq<Action>, j: nat, l: nat, r: string, before: Application, app: Application)
    returns (row: Application)
    requires Execution(env, ss, acts) && j < l && PatchedAt(env, ss, acts, j, l, r, before, app)
    ensures StoresPatch(ss, acts, l, r, row) && Merges(env.deploy.policy, acts[j].input, before, row)
    ensures row.id == app.id && row.name == app.name && row.tenantID == app.tenantID
    ensures row.variables == app.variables && row.resources == app.resources && P.Clamp(env.deploy.policy, row.resources) == row.resources
    ensures row.replicas == if app.replicas <= 0 then 1 else app.replicas
  {
    row := ss[l + 1].db.applications[app.id];
    SameIdentity(env, ss, acts, j, l, before.id);
    PatchedMerges(env, before, acts[j].input, app, row);
  }

  lemma ReappliedBy(env: Env, s: State, r: string)
    requires RequestEnabled(s, PatchApply(r, true))
    ensures var q := s.requests[r];
      ClusterAfter(env, s, PatchApply(r, true)) == s.cluster[q.app.name := D.Desired(env.deploy, q.app, q.image, 0)]
  {
  }

  lemma SameObject(env: Env, app: Application, row: Application, image: string)
    requires row.id == app.id && row.name == app.name && row.tenantID == app.tenantID && row.variables == app.variables
    requires row.resources == app.resources && row.replicas == if app.replicas <= 0 then 1 else app.replicas
    requires P.Clamp(env.deploy.policy, row.resources) == row.resources
    ensures D.Desired(env.deploy, app, image, 0) == D.Desired(env.deploy, row, image, 0)
    ensures D.Desired(env.deploy, row, image, 0).replicas == row.replicas && D.Desired(env.deploy, row, image, 0).resources == row.resources
  {
  }

  /** The end of a PATCH. */
  lemma PatchPublishes(env: Env, ss: seq<State>, acts: seq<Action>, k: nat, r: string)
    requires Execution(env, ss, acts) && k < |acts| && acts[k] == PatchApply(r, true)
    ensures exists row, image :: FromPatch(env, ss, acts, k, r, row, image)
  {
    assert StepsAt(env, ss, acts, k);
    ReappliedBy(env, ss[k], r);
    HandlerKnowsAlong(env, ss, acts, k, r);
    var q := ss[k].requests[r];
    var m :| 0 <= m < k && ReadsImage(ss, acts, m, r, q.app.name, q.image) && PatchStoredBefore(env, ss, acts, m, r, q.app);
    var j, l, before :| 0 <= j < l < m && PatchedAt(env, ss, acts, j, l, r, before, q.app);
    var row := StoredRow(env, ss, acts, j, l, r, before, q.app);
    SameObject(env, q.app, row, q.image);
    DesiredApplies(env, ss, k, row, q.image, 0);
    assert RowPatched(env, ss, acts, m, r, row);
    assert FromPatch(env, ss, acts, k, r, row, q.image);
  }

  // ---------- nothing else ----------

  /** The SpinApp of this name is there after step `k`, and was not there before or was another. */
  ghost predicate Puts(ss: seq<State>, k: nat, name: string) {
    k + 1 < |ss| && name in ss[k + 1].cluster && (name in ss[k].cluster ==> ss[k].cluster[name] != ss[k + 1].cluster[name])
  }

  lemma PutBy(env: Env, s: State, a: Action, name: string)
    requires Enabled(env, s, a) && name in ClusterAfter(env, s, a)
    requires name in s.cluster ==> s.cluster[name] != ClusterAfter(env, s, a)[name]
    ensures a.Step? || a.DeployApply? || a.PatchApply?
    ensures a.Step? ==> s.threads[a.b].pc.Ship? && (a.m.err.None? || a.m.made)
    ensures a.DeployApply? || a.PatchApply? ==> a.applied
  {
  }

  /**
    Over every run, a step that puts a SpinApp on the cluster or changes one is a build's own deploy, a request to
    /deploy or the end of a PATCH, and what it puts there is published from the row that this one has loaded or stored.
  */
  lemma EveryPutPublishes(env: Env, ss: seq<State>, acts: seq<Action>, k: nat, name: string)
    requires Execution(env, ss, acts) && k < |acts| && Puts(ss, k, name)
    ensures match acts[k]
      case Step(b, _) => exists app :: FromBuild(env, ss, acts, k, b, app)
      case DeployApply(r, _, _) => exists app, image, given :: FromDeploy(env, ss, acts, k, r, app, image, given)
      case PatchApply(r, _) => exists row, image :: FromPatch(env, ss, acts, k, r, row, image)
      case _ => false
  {
    assert StepsAt(env, ss, acts, k);
    PutBy(env, ss[k], acts[k], name);
    match acts[k]
    case Step(b, _) => ShipPublishes(env, ss, acts, k, b);
    case DeployApply(r, _, _) => DeployPublishes(env, ss, acts, k, r);
    case PatchApply(r, _) => PatchPublishes(env, ss, acts, k, r);
    case _ =>
  }

  lemma TakenAwayBy(env: Env, s: State, a: Action, name: string)
    requires Enabled(env, s, a) && name in s.cluster
    ensures name !in ClusterAfter(env, s, a) <==>
      a.DeleteUndeploy? && a.removed && a.r in s.requests && s.requests[a.r].DeleteLoaded? && s.requests[a.r].app.name == name
  {
  }

  /** A SpinApp leaves the cluster exactly when the deletion of the application it is named after removes it. */
  lemma EveryRemovalIff(env: Env, ss: seq<State>, acts: seq<Action>, k: nat, name: string)
    requires Execution(env, ss, acts) && k < |acts| && name in ss[k].cluster
    ensures name !in ss[k + 1].cluster <==>
      && acts[k].DeleteUndeploy? && acts[k].removed && acts[k].r in ss[k].requests
      && ss[k].requests[acts[k].r].DeleteLoaded? && ss[k].requests[acts[k].r].app.name == name
  {
    assert StepsAt(env, ss, acts, k);
    TakenAwayBy(env, ss[k], acts[k], name);
  }
}
