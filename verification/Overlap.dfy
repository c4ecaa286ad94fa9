/** Builds of one application that overlap. */
module Overlap {
  import opened Wrappers
  import opened Store
  import opened Protocol
  import opened Builds
  import opened Theorems
  import opened Runs
  import ImageRef

  // ---------- one build moves on and nothing else does ----------

  /** Nothing goes wrong, and no size is found in the log. */
  const CLEAN := Move(false, None, false, None)

  /** Between the two states only build `b` has moved: its thread, its row, its Job. */
  ghost predicate OnlyBuild(s: State, t: State, b: string) {
    && b in s.threads && b in t.threads && t.threads == s.threads[b := t.threads[b]]
    && t.clock == s.clock && t.requests == s.requests
    && t.db.applications == s.db.applications && t.db.builds - {b} == s.db.builds - {b}
    && t.jobs - {b} == s.jobs - {b} && (b in s.jobs ==> b in t.jobs)
  }

  lemma OnlyBuildTwice(s: State, t: State, u: State, b: string)
    requires OnlyBuild(s, t, b) && OnlyBuild(t, u, b)
    ensures OnlyBuild(s, u, b)
  {
  }

  lemma DbOfStep(env: Env, clock: nat, db: Db, b: string, t: Thread, m: Move)
    ensures var d := NextDb(env, clock, db, b, t, m); d.applications == db.applications && d.builds - {b} == db.builds - {b}
  {
    StepTouchesOneRow(env, clock, db, b, t, m);
    var d := NextDb(env, clock, db, b, t, m);
    assert forall c :: c in d.builds - {b} <==> c in db.builds - {b};
  }

  lemma StepIsOnlyBuild(env: Env, s: State, b: string)
    requires StepEnabled(s, b, CLEAN)
    ensures OnlyBuild(s, Next(env, s, Step(b, CLEAN)), b)
  {
    DbOfStep(env, s.clock, s.db, b, s.threads[b], CLEAN);
  }

  /** A clean step of the build, in the terms of its own thread. */
  lemma Moves1(env: Env, s: State, b: string) returns (t: State)
    requires StepEnabled(s, b, CLEAN)
    ensures Leads(env, s, t) && OnlyBuild(s, t, b)
    ensures t.threads[b] == Stepped(env, s, b, CLEAN)
    ensures t.db == NextDb(env, s.clock, s.db, b, s.threads[b], CLEAN)
    ensures t.jobs == NextJobs(s.jobs, b, s.threads[b], CLEAN)
    ensures t.cluster == NextCluster(env, s.cluster, b, s.threads[b], CLEAN)
  {
    StepIsOnlyBuild(env, s, b);
    LeadsToItself(env, s);
    LeadsByStep(env, s, s, Step(b, CLEAN));
    t := Next(env, s, Step(b, CLEAN));
  }

  // ---------- from the handler to the running Job ----------

  /** The build's Job runs, its row says so, and it is watched. */
  ghost predicate InFlight(s: State, appId: string, b: string) {
    && b in s.threads && s.threads[b].pc.AwaitJob? && s.threads[b].app.id == appId
    && b in s.jobs && b in s.db.builds && s.db.builds[b].applicationID == appId && s.db.builds[b].status == Running
  }

  ghost predicate Preparing(s: State, b: string) {
    b in s.threads && s.threads[b].pc.Prepare? && b !in s.db.builds && s.threads[b].app.id in s.db.applications
  }

  lemma RowGetsIn(env: Env, s: State, b: string) returns (t: State)
    requires Preparing(s, b)
    ensures Leads(env, s, t) && OnlyBuild(s, t, b) && t.cluster == s.cluster
    ensures t.threads[b] == s.threads[b].(createdAt := s.clock, pc := ShipSource)
    ensures b in t.db.builds && t.db.builds[b].applicationID == s.threads[b].app.id
  {
    var s1 := Moves1(env, s, b);
    assert s1.threads[b] == s.threads[b].(createdAt := s.clock, pc := InsertRow);
    assert s1.db == s.db;
    assert InsertBuild(s1.db, NewRow(env, s1.threads[b], b), s1.clock).Ok?;
    t := Moves1(env, s1, b);
    LeadsOn(env, s, s1, t);
    OnlyBuildTwice(s, s1, t, b);
  }

  lemma JobGetsMade(env: Env, s: State, b: string) returns (t: State)
    requires b in s.threads && s.threads[b].pc.ShipSource?
    ensures Leads(env, s, t) && OnlyBuild(s, t, b) && t.cluster == s.cluster && t.db == s.db && b in t.jobs
    ensures t.threads[b] == s.threads[b].(pc := CountStart)
  {
    var s1 := Moves1(env, s, b);
    assert s1.threads[b] == s.threads[b].(pc := CreateJob);
    t := Moves1(env, s1, b);
    LeadsOn(env, s, s1, t);
    OnlyBuildTwice(s, s1, t, b);
  }

  lemma WatchBegins(env: Env, s: State, b: string) returns (t: State)
    requires b in s.threads && s.threads[b].pc.CountStart? && b in s.db.builds
    ensures Leads(env, s, t) && OnlyBuild(s, t, b) && t.cluster == s.cluster
    ensures t.threads[b] == s.threads[b].(pc := AwaitJob)
    ensures b in t.db.builds && t.db.builds[b].applicationID == s.db.builds[b].applicationID && t.db.builds[b].status == Running
  {
    var s1 := Moves1(env, s, b);
    assert s1.threads[b] == s.threads[b].(pc := MarkRunning) && s1.db == s.db;
    t := Moves1(env, s1, b);
    LeadsOn(env, s, s1, t);
    OnlyBuildTwice(s, s1, t, b);
  }

  lemma RunsToItsJob(env: Env, s: State, b: string) returns (t: State)
    requires Preparing(s, b)
    ensures Leads(env, s, t) && OnlyBuild(s, t, b) && t.cluster == s.cluster
    ensures InFlight(t, s.threads[b].app.id, b) && t.threads[b] == s.threads[b].(createdAt := s.clock, pc := AwaitJob)
  {
    var s1 := RowGetsIn(env, s, b);
    var s2 := JobGetsMade(env, s1, b);
    t := WatchBegins(env, s2, b);
    LeadsOn(env, s, s1, s2);
    LeadsOn(env, s, s2, t);
    OnlyBuildTwice(s, s1, s2, b);
    OnlyBuildTwice(s, s2, t, b);
  }

  lemma BuildBegins(env: Env, s: State, appId: string, b: string) returns (t: State)
    requires HasApplication(s.db, appId) && b !in s.threads && b !in s.db.builds && ImageRef.BuildId(b)
    requires s.db.applications[appId].id == appId
    ensures Leads(env, s, t) && Preparing(t, b) && t.threads == s.threads[b := Begun(s, appId)]
    ensures t.db == s.db && t.jobs == s.jobs && t.cluster == s.cluster && t.clock == s.clock && t.requests == s.requests
  {
    LeadsToItself(env, s);
    LeadsByStep(env, s, s, BeginBuild(b, appId));
    t := Next(env, s, BeginBuild(b, appId));
  }

  lemma TimePasses(env: Env, s: State) returns (t: State)
    ensures Leads(env, s, t) && t.clock == s.clock + 1
    ensures t.db == s.db && t.threads == s.threads && t.jobs == s.jobs && t.cluster == s.cluster && t.requests == s.requests
  {
    LeadsToItself(env, s);
    LeadsByStep(env, s, s, Tick(s.clock + 1));
    t := Next(env, s, Tick(s.clock + 1));
  }

  /** A free build of a live application, at some point of a run. */
  ghost predicate CanBuild(s: State, appId: string, b: string) {
    && HasApplication(s.db, appId) && s.db.applications[appId].id == appId
    && b !in s.threads && b !in s.db.builds && ImageRef.BuildId(b)
  }

  /** What another build keeps of one that is in flight. */
  lemma StaysInFlight(s: State, t: State, appId: string, b: string, c: string)
    requires InFlight(s, appId, b) && OnlyBuild(s, t, c) && b != c
    ensures InFlight(t, appId, b) && t.threads[b] == s.threads[b]
  {
    assert b in s.jobs - {c} && b in t.jobs - {c};
    assert b in s.db.builds - {c} && (s.db.builds - {c})[b] == (t.db.builds - {c})[b];
  }

  lemma StaysFree(s: State, t: State, appId: string, b: string, c: string)
    requires CanBuild(s, appId, c) && OnlyBuild(s, t, b) && b != c
    ensures CanBuild(t, appId, c)
  {
    assert c !in t.db.builds - {b};
  }

  /** Both builds get their Jobs; the second is started a tick later. */
  lemma BothGetJobs(env: Env, s: State, appId: string, b: string, c: string) returns (t: State)
    requires CanBuild(s, appId, b) && CanBuild(s, appId, c) && b != c
    ensures Leads(env, s, t) && InFlight(t, appId, b) && InFlight(t, appId, c)
    ensures t.threads[b].app == t.threads[c].app == s.db.applications[appId]
    ensures t.threads[b].createdAt < t.threads[c].createdAt && t.cluster == s.cluster
  {
    var s1 := BuildBegins(env, s, appId, b);
    var s2 := RunsToItsJob(env, s1, b);
    LeadsOn(env, s, s1, s2);
    assert CanBuild(s1, appId, c);
    StaysFree(s1, s2, appId, b, c);
    var s3 := TimePasses(env, s2);
    LeadsOn(env, s, s2, s3);
    t := SecondGetsJob(env, s3, appId, b, c);
    LeadsOn(env, s, s3, t);
  }

  lemma SecondGetsJob(env: Env, s: State, appId: string, b: string, c: string) returns (t: State)
    requires CanBuild(s, appId, c) && InFlight(s, appId, b) && b != c
    ensures Leads(env, s, t) && InFlight(t, appId, b) && InFlight(t, appId, c) && t.cluster == s.cluster
    ensures t.threads[b] == s.threads[b] && t.threads[c].app == s.db.applications[appId] && t.threads[c].createdAt == s.clock
  {
    var s1 := BuildBegins(env, s, appId, c);
    assert InFlight(s1, appId, b);
    t := RunsToItsJob(env, s1, c);
    LeadsOn(env, s, s1, t);
    StaysInFlight(s1, t, appId, b, c);
  }

  lemma FreeInRun(env: Env, ss: seq<State>, acts: seq<Action>, appId: string, b: string)
    requires Execution(env, ss, acts) && HasApplication(ss[|acts|].db, appId) && b !in ss[|acts|].threads && ImageRef.BuildId(b)
    ensures CanBuild(ss[|acts|], appId, b)
  {
    InvHolds(env, ss, acts, |acts|);
  }

  /** From every point of a run, two builds of any live application can be brought to run their Jobs at the same time. */
  lemma BuildsMayOverlap(env: Env, ss: seq<State>, acts: seq<Action>, appId: string, b: string, c: string)
    requires Execution(env, ss, acts) && HasApplication(ss[|acts|].db, appId)
    requires b != c && b !in ss[|acts|].threads && c !in ss[|acts|].threads && ImageRef.BuildId(b) && ImageRef.BuildId(c)
    ensures exists t :: GoesOnTo(env, ss, acts, t) && InFlight(t, appId, b) && InFlight(t, appId, c)
  {
    FreeInRun(env, ss, acts, appId, b);
    FreeInRun(env, ss, acts, appId, c);
    var t := BothGetJobs(env, ss[|acts|], appId, b, c);
    RunGoesOn(env, ss, acts, t);
  }
}
