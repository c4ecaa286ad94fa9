/** Build rows and build threads: what every step of the system keeps of them. */
module Builds {
  import opened Wrappers
  import opened Store
  import opened Protocol
  import ImageRef

  // ---------- phases ----------

  predicate HasRow(pc: Pc) {
    !pc.Prepare? && !pc.InsertRow? && !pc.Rejected?
  }

  /** Past the point where BuildsStarted was incremented. */
  predicate Counted(pc: Pc) {
    pc.MarkRunning? || pc.AwaitJob? || pc.SaveSize? || pc.Ship? || pc.WriteFailed? || pc.WriteSucceeded?
    || pc.CountDeploy? || pc.CountFinish? || pc.Finished?
  }

  predicate Wrote(pc: Pc) {
    pc.CountDeploy? || (pc.CountFinish? && pc.ok) || (pc.Finished? && pc.ok)
  }

  predicate Gave(pc: Pc) {
    (pc.LeftBehind? && pc.status == Failed) || pc.Aborted? || (pc.CountFinish? && !pc.ok) || (pc.Finished? && !pc.ok)
  }

  /** The Job has been seen to succeed without a failure. */
  predicate SawJob(pc: Pc) {
    pc.SaveSize? || pc.Ship? || pc.WriteSucceeded? || Wrote(pc)
  }

  /** What the row says when no status write was lost. */
  function Expected(pc: Pc): Status
    requires HasRow(pc)
  {
    if pc.LeftBehind? then pc.status
    else if Wrote(pc) then Succeeded
    else if Gave(pc) then Failed
    else if pc.ShipSource? || pc.CreateJob? || pc.FailStart? || pc.CountStart? || pc.MarkRunning? then Pending
    else Running
  }

  function Rank(status: Status): nat {
    match status
    case Pending => 0
    case Running => 1
    case _ => 2
  }

  // ---------- threads ----------

  ghost predicate ThreadOk(clock: nat, t: Thread) {
    && (!t.pc.Prepare? ==> t.app.createdAt <= t.createdAt <= clock && 0 < t.createdAt)
    && t.app.createdAt <= clock
    && t.finishedAt <= clock
    && (t.pc.SaveSize? || t.pc.Ship? || t.pc.WriteFailed? || t.pc.WriteSucceeded? ==> t.createdAt <= t.finishedAt)
    && (t.pc.FailStart? || t.pc.WriteFailed? ==> t.pc.msg != "")
    && (SawJob(t.pc) ==> t.jobOk)
    && (t.pc.Ship? ==> t.app.runtime != WorkerPool)
    && (t.pc.WriteSucceeded? || Wrote(t.pc) ==> t.app.runtime == WorkerPool || t.shipped)
    && (t.wroteOk <==> Wrote(t.pc))
    && (t.landed ==> t.wroteOk || t.pc.LeftBehind?)
    && (t.pc.LeftBehind? ==> t.landed == (t.pc.status == Succeeded))
  }

  ghost predicate ThreadsOk(clock: nat, used: map<string, Identity>, threads: map<string, Thread>) {
    forall b :: b in threads ==>
      ThreadOk(clock, threads[b]) && ImageRef.BuildId(b)
      && threads[b].app.id in used && used[threads[b].app.id] == IdentityOf(threads[b].app)
  }

  // ---------- rows ----------

  ghost predicate RowFits(image: string, row: Build, t: Thread, faulted: bool) {
    && HasRow(t.pc)
    && row.applicationID == t.app.id && row.imageRef == image && row.createdAt == t.createdAt
    && (row.status == Succeeded ==> t.landed)
    && (row.status == Failed ==> Gave(t.pc))
    && Rank(row.status) <= Rank(Expected(t.pc))
    && (!faulted ==> row.status == Expected(t.pc))
    && (row.finishedAt.Some? <==> IsTerminal(row.status))
    && (row.finishedAt.Some? ==> row.createdAt <= row.finishedAt.value)
    && (row.error != "" <==> row.status == Failed)
  }

  /** Live applications are known, every row belongs to a build thread, and rows go only with their application. */
  ghost predicate RowsOk(env: Env, live: set<string>, builds: map<string, Build>, used: map<string, Identity>,
                         threads: map<string, Thread>, faulted: bool) {
    live <= used.Keys && RowsFit(env, builds, threads, faulted) && RowsThere(live, builds, threads) && RowsLanded(live, builds, threads)
  }

  ghost predicate RowsFit(env: Env, builds: map<string, Build>, threads: map<string, Thread>, faulted: bool) {
    forall b :: b in builds ==> b in threads && RowFits(Image(env, threads[b].app, b), builds[b], threads[b], faulted)
  }

  ghost predicate RowsThere(live: set<string>, builds: map<string, Build>, threads: map<string, Thread>) {
    forall b :: b in threads && HasRow(threads[b].pc) && threads[b].app.id in live ==> b in builds
  }

  ghost predicate RowsLanded(live: set<string>, builds: map<string, Build>, threads: map<string, Thread>) {
    forall b :: b in threads && threads[b].landed && threads[b].app.id in live ==> b in builds && builds[b].status == Succeeded
  }

  /** Applications keep their identity, and there is only the one tenant. */
  ghost predicate AppsOk(clock: nat, used: map<string, Identity>, apps: map<string, Application>) {
    (forall k :: k in apps ==>
      apps[k].id == k && apps[k].tenantID == TENANT && k in used && used[k] == IdentityOf(apps[k])
      && apps[k].createdAt <= clock) &&
    (forall k :: k in used ==> ImageRef.Dns1123(used[k].name) && used[k].createdAt <= clock)
  }

  // ---------- preservation, by the kind of step ----------

  lemma ThreadStep(clock: nat, inserted: bool, present: bool, job: JobStatus, t: Thread, m: Move)
    requires ThreadOk(clock, t) && clock > 0 && (m.err.Some? ==> m.err.value != "")
    ensures ThreadOk(clock, NextThread(clock, inserted, present, job, t, m))
  {
    if Starts(t.pc) { StartStep(clock, inserted, present, job, t, m); }
    else if t.pc.AwaitJob? { AwaitStep(clock, inserted, present, job, t, m); }
    else { LateStep(clock, inserted, present, job, t, m); }
  }

  /** The part of a build before it answers the handler. */
  predicate Starts(pc: Pc) {
    pc.Prepare? || pc.InsertRow? || pc.ShipSource? || pc.CreateJob? || pc.FailStart? || pc.CountStart? || pc.MarkRunning?
  }

  lemma StartStep(clock: nat, inserted: bool, present: bool, job: JobStatus, t: Thread, m: Move)
    requires ThreadOk(clock, t) && clock > 0 && Starts(t.pc)
    ensures ThreadOk(clock, NextThread(clock, inserted, present, job, t, m))
  {
  }

  lemma AwaitStep(clock: nat, inserted: bool, present: bool, job: JobStatus, t: Thread, m: Move)
    requires ThreadOk(clock, t) && t.pc.AwaitJob? && (m.err.Some? ==> m.err.value != "")
    ensures ThreadOk(clock, NextThread(clock, inserted, present, job, t, m))
  {
  }

  lemma LateStep(clock: nat, inserted: bool, present: bool, job: JobStatus, t: Thread, m: Move)
    requires ThreadOk(clock, t) && !Starts(t.pc) && !t.pc.AwaitJob?
    ensures ThreadOk(clock, NextThread(clock, inserted, present, job, t, m))
  {
  }

  lemma ThreadsUpdate(clock: nat, used: map<string, Identity>, threads: map<string, Thread>, b: string, u: Thread)
    requires ThreadsOk(clock, used, threads) && b in threads && ThreadOk(clock, u) && u.app == threads[b].app
    ensures ThreadsOk(clock, used, threads[b := u])
  {
  }

  lemma StepKeepsApp(clock: nat, inserted: bool, present: bool, job: JobStatus, t: Thread, m: Move)
    ensures NextThread(clock, inserted, present, job, t, m).app == t.app
  {
  }

  /** Of the whole store only the row of one build differs. */
  ghost predicate OnlyRow(db: Db, d: Db, b: string) {
    && d.applications == db.applications && d.functions == db.functions && d.sources == db.sources
    && (forall c :: c in db.builds && c != b ==> c in d.builds && d.builds[c] == db.builds[c])
    && (forall c :: c in d.builds && c != b ==> c in db.builds)
  }

  lemma WriteTouchesOneRow(db: Db, b: string, status: Status, error: string, finished: Option<nat>, fault: bool)
    ensures var d := WriteStatus(db, b, status, error, finished, fault); OnlyRow(db, d, b) && d.builds.Keys == db.builds.Keys
  {
  }

  lemma SizeTouchesOneRow(db: Db, b: string, size: int)
    ensures var d := UpdateBuildImageSize(db, b, size); OnlyRow(db, d, b) && d.builds.Keys == db.builds.Keys
  {
  }

  /** Only the row of the stepping build can change. */
  lemma StepTouchesOneRow(env: Env, clock: nat, db: Db, b: string, t: Thread, m: Move)
    ensures OnlyRow(db, NextDb(env, clock, db, b, t, m), b)
    ensures !t.pc.InsertRow? ==> NextDb(env, clock, db, b, t, m).builds.Keys == db.builds.Keys
  {
    match t.pc
    case FailStart(msg) => WriteTouchesOneRow(db, b, Failed, msg, Some(clock), m.fault);
    case MarkRunning => WriteTouchesOneRow(db, b, Running, "", None, m.fault);
    case SaveSize => if m.size.Some? { SizeTouchesOneRow(db, b, m.size.value); }
    case WriteFailed(msg) => WriteTouchesOneRow(db, b, Failed, msg, Some(t.finishedAt), m.fault);
    case WriteSucceeded => WriteTouchesOneRow(db, b, Succeeded, "", Some(t.finishedAt), m.fault);
    case _ =>
  }

  /** The row of a build after its own step. */
  function NextRow(clock: nat, row: Build, t: Thread, m: Move): Build {
    match t.pc
    case FailStart(msg) => if m.fault then row else row.(status := Failed, error := msg, finishedAt := Some(clock))
    case MarkRunning => if m.fault then row else row.(status := Running, error := "", finishedAt := None)
    case SaveSize => if m.size.Some? && !m.fault then row.(imageSize := m.size) else row
    case WriteFailed(msg) => if m.fault then row else row.(status := Failed, error := msg, finishedAt := Some(t.finishedAt))
    case WriteSucceeded => if m.fault then row else row.(status := Succeeded, error := "", finishedAt := Some(t.finishedAt))
    case _ => row
  }

  lemma NextDbRow(env: Env, clock: nat, db: Db, b: string, t: Thread, m: Move)
    requires b in db.builds && !t.pc.InsertRow?
    ensures b in NextDb(env, clock, db, b, t, m).builds
    ensures NextDb(env, clock, db, b, t, m).builds[b] == NextRow(clock, db.builds[b], t, m)
  {
  }

  /** The steps that set the row's status. */
  predicate SetsStatus(pc: Pc) {
    pc.FailStart? || pc.MarkRunning? || pc.WriteFailed? || pc.WriteSucceeded?
  }

  lemma FaultFitsRow(image: string, clock: nat, row: Build, inserted: bool, job: JobStatus, t: Thread, m: Move, faulted: bool)
    requires ThreadOk(clock, t) && !t.pc.InsertRow? && RowFits(image, row, t, faulted) && SetsStatus(t.pc) && m.fault
    ensures RowFits(image, NextRow(clock, row, t, m), NextThread(clock, inserted, true, job, t, m), true)
  {
  }

  lemma WriteFitsRow(image: string, clock: nat, row: Build, inserted: bool, job: JobStatus, t: Thread, m: Move, faulted: bool)
    requires ThreadOk(clock, t) && !t.pc.InsertRow? && RowFits(image, row, t, faulted) && SetsStatus(t.pc) && !m.fault
    ensures RowFits(image, NextRow(clock, row, t, m), NextThread(clock, inserted, true, job, t, m), faulted)
  {
  }

  lemma OtherFitsRow(image: string, clock: nat, row: Build, inserted: bool, job: JobStatus, t: Thread, m: Move, faulted: bool)
    requires ThreadOk(clock, t) && !t.pc.InsertRow? && RowFits(image, row, t, faulted) && !SetsStatus(t.pc)
    ensures RowFits(image, NextRow(clock, row, t, m), NextThread(clock, inserted, true, job, t, m), faulted)
  {
    if Starts(t.pc) {
    } else if t.pc.AwaitJob? {
    } else {
      LateFitsRow(image, clock, row, inserted, job, t, m, faulted);
    }
  }

  lemma LateFitsRow(image: string, clock: nat, row: Build, inserted: bool, job: JobStatus, t: Thread, m: Move, faulted: bool)
    requires ThreadOk(clock, t) && RowFits(image, row, t, faulted) && !SetsStatus(t.pc) && !Starts(t.pc) && !t.pc.AwaitJob?
    ensures RowFits(image, NextRow(clock, row, t, m), NextThread(clock, inserted, true, job, t, m), faulted)
  {
  }

  /** The stepping build's row keeps fitting its thread. */
  lemma StepFitsRow(image: string, clock: nat, row: Build, inserted: bool, job: JobStatus, t: Thread, m: Move, faulted: bool)
    requires ThreadOk(clock, t) && !t.pc.InsertRow? && RowFits(image, row, t, faulted)
    ensures RowFits(image, NextRow(clock, row, t, m), NextThread(clock, inserted, true, job, t, m), faulted || m.fault)
  {
    if !SetsStatus(t.pc) {
      OtherFitsRow(image, clock, row, inserted, job, t, m, faulted);
    } else if m.fault {
      FaultFitsRow(image, clock, row, inserted, job, t, m, faulted);
    } else {
      WriteFitsRow(image, clock, row, inserted, job, t, m, faulted);
    }
  }

  // ---------- how a row may change ----------

  /** The documented lifecycle; a lost "running" write may make it look as if that state was skipped. */
  predicate Moves(from: Status, to: Status, lossless: bool) {
    from == to || (from == Pending && to == Running) || (from == Pending && to == Failed)
    || (from == Running && IsTerminal(to)) || (!lossless && from == Pending && to == Succeeded)
  }

  ghost predicate RowMoves(before: Build, after: Build, lossless: bool) {
    && Moves(before.status, after.status, lossless)
    && (IsTerminal(before.status) ==> after == before)
    && after.id == before.id && after.applicationID == before.applicationID && after.imageRef == before.imageRef
    && after.createdAt == before.createdAt
  }

  lemma StepMovesRow(image: string, clock: nat, row: Build, t: Thread, m: Move, faulted: bool)
    requires ThreadOk(clock, t) && !t.pc.InsertRow? && RowFits(image, row, t, faulted)
    ensures RowMoves(row, NextRow(clock, row, t, m), !faulted)
  {
  }

  // ---------- the builds part of the system's invariant ----------

  ghost predicate BuildsInv(env: Env, s: State) {
    BuildsOk(env, s.clock, s.db, s.usedApps, s.threads, s.faulted)
  }

  ghost predicate BuildsOk(env: Env, clock: nat, db: Db, used: map<string, Identity>, threads: map<string, Thread>, faulted: bool) {
    && clock > 0
    && ValidDb(db)
    && AppsOk(clock, used, db.applications)
    && ThreadsOk(clock, used, threads)
    && RowsOk(env, db.applications.Keys, db.builds, used, threads, faulted)
  }

  /** The thread given to a row that was left behind fits it. */
  lemma LeftoverFits(env: Env, db: Db, b: string, clock: nat)
    requires b in db.builds && db.builds[b].applicationID in db.applications && CanBeLeft(env, db, b, clock)
    requires db.applications[db.builds[b].applicationID].id == db.builds[b].applicationID
    ensures ThreadOk(clock, Leftover(db, b))
    ensures RowFits(Image(env, Leftover(db, b).app, b), db.builds[b], Leftover(db, b), false)
  {
  }

  lemma InitApps(env: Env, s: State)
    requires Init(env, s)
    ensures AppsOk(s.clock, s.usedApps, s.db.applications)
  {
  }

  lemma InitThreads(env: Env, clock: nat, db: Db, used: map<string, Identity>, threads: map<string, Thread>)
    requires KeysMatch(db) && References(db)
    requires forall b :: b in db.builds ==> CanBeLeft(env, db, b, clock)
    requires forall b :: b in threads ==> b in db.builds && threads[b] == Leftover(db, b)
    requires forall k :: k in db.applications ==> k in used && used[k] == IdentityOf(db.applications[k])
    ensures ThreadsOk(clock, used, threads)
  {
    forall b | b in threads
      ensures ThreadOk(clock, threads[b]) && ImageRef.BuildId(b)
      ensures threads[b].app.id in used && used[threads[b].app.id] == IdentityOf(threads[b].app)
    {
      LeftoverFits(env, db, b, clock);
    }
  }

  lemma LeftoversFit(env: Env, clock: nat, db: Db, threads: map<string, Thread>)
    requires KeysMatch(db) && References(db)
    requires forall b :: b in db.builds ==> CanBeLeft(env, db, b, clock)
    requires forall b :: b in db.builds ==> b in threads && threads[b] == Leftover(db, b)
    ensures RowsFit(env, db.builds, threads, false)
  {
    forall b | b in db.builds
      ensures b in threads && RowFits(Image(env, threads[b].app, b), db.builds[b], threads[b], false)
    {
      LeftoverFits(env, db, b, clock);
    }
  }

  lemma InitRows(env: Env, clock: nat, db: Db, used: map<string, Identity>, threads: map<string, Thread>)
    requires KeysMatch(db) && References(db) && db.applications.Keys <= used.Keys
    requires forall b :: b in db.builds ==> CanBeLeft(env, db, b, clock)
    requires threads == map b | b in db.builds :: Leftover(db, b)
    ensures RowsOk(env, db.applications.Keys, db.builds, used, threads, false)
  {
    LeftoversFit(env, clock, db, threads);
  }

  lemma InitBuilds(env: Env, s: State)
    requires Init(env, s)
    ensures BuildsInv(env, s)
  {
    InitApps(env, s);
    InitThreads(env, s.clock, s.db, s.usedApps, s.threads);
    InitRows(env, s.clock, s.db, s.usedApps, s.threads);
  }

  /** What a build step does to the store is at most one statement. */
  lemma NextDbIsStatement(env: Env, clock: nat, db: Db, b: string, t: Thread, m: Move) returns (s: Statement)
    ensures var d := NextDb(env, clock, db, b, t, m); d == db || Execute(db, s) == Ok(d)
  {
    s := match t.pc
      case InsertRow => CreateBuildStmt(NewRow(env, t, b), clock)
      case FailStart(msg) => UpdateBuildStatusStmt(b, Failed, msg, Some(clock))
      case MarkRunning => UpdateBuildStatusStmt(b, Running, "", None)
      case SaveSize => UpdateBuildImageSizeStmt(b, if m.size.Some? then m.size.value else 0)
      case WriteFailed(msg) => UpdateBuildStatusStmt(b, Failed, msg, Some(t.finishedAt))
      case _ => UpdateBuildStatusStmt(b, Succeeded, "", Some(t.finishedAt));
  }

  lemma NextDbKeepsSchema(env: Env, clock: nat, db: Db, b: string, t: Thread, m: Move)
    requires ValidDb(db)
    ensures ValidDb(NextDb(env, clock, db, b, t, m))
  {
    var s := NextDbIsStatement(env, clock, db, b, t, m);
    ExecuteKeepsSchema(db, s);
  }

  /** One thread moved on and at most its own row changed. */
  lemma RowsFitUpdate(env: Env, builds: map<string, Build>, builds': map<string, Build>, threads: map<string, Thread>,
                      b: string, u: Thread, faulted: bool, faulted': bool)
    requires RowsFit(env, builds, threads, faulted) && (faulted ==> faulted')
    requires forall c :: c in builds' && c != b ==> c in builds && builds'[c] == builds[c]
    requires b in builds' ==> RowFits(Image(env, u.app, b), builds'[b], u, faulted')
    ensures RowsFit(env, builds', threads[b := u], faulted')
  {
    forall c | c in builds'
      ensures c in threads[b := u] && RowFits(Image(env, threads[b := u][c].app, c), builds'[c], threads[b := u][c], faulted')
    {
    }
  }

  lemma RowsUpdate(env: Env, live: set<string>, builds: map<string, Build>, builds': map<string, Build>,
                   used: map<string, Identity>, threads: map<string, Thread>, b: string, u: Thread,
                   faulted: bool, faulted': bool)
    requires RowsOk(env, live, builds, used, threads, faulted) && (faulted ==> faulted')
    requires forall c :: c in builds && c != b ==> c in builds' && builds'[c] == builds[c]
    requires forall c :: c in builds' && c != b ==> c in builds
    requires b in builds' ==> RowFits(Image(env, u.app, b), builds'[b], u, faulted')
    requires HasRow(u.pc) && u.app.id in live ==> b in builds'
    requires u.landed && u.app.id in live ==> b in builds' && builds'[b].status == Succeeded
    ensures RowsOk(env, live, builds', used, threads[b := u], faulted')
  {
    RowsFitUpdate(env, builds, builds', threads, b, u, faulted, faulted');
  }

  lemma InsertRowKeepsRows(env: Env, clock: nat, db: Db, used: map<string, Identity>, threads: map<string, Thread>,
                           b: string, m: Move, faulted: bool)
    requires RowsOk(env, db.applications.Keys, db.builds, used, threads, faulted)
    requires b in threads && ThreadOk(clock, threads[b]) && threads[b].pc.InsertRow?
    ensures var d := NextDb(env, clock, db, b, threads[b], m);
      var u := NextThread(clock, InsertBuild(db, NewRow(env, threads[b], b), clock).Ok?, b in db.builds, JobStatus(0, 0, ""), threads[b], m);
      RowsOk(env, db.applications.Keys, d.builds, used, threads[b := u], faulted || m.fault)
  {
    var t := threads[b];
    assert b !in db.builds;
    if InsertBuild(db, NewRow(env, t, b), clock).Ok? && !m.fault {
      var row := NewRow(env, t, b);
      assert InsertBuild(db, row, clock) == Ok(db.(builds := db.builds[b := row]));
      RowsUpdate(env, db.applications.Keys, db.builds, db.builds[b := row], used, threads, b, t.(pc := ShipSource), faulted, faulted || m.fault);
    } else {
      RowsUpdate(env, db.applications.Keys, db.builds, db.builds, used, threads, b, t.(pc := Rejected), faulted, faulted || m.fault);
    }
  }

  lemma OtherStepKeepsRows(env: Env, clock: nat, db: Db, used: map<string, Identity>, threads: map<string, Thread>,
                           b: string, inserted: bool, job: JobStatus, m: Move, faulted: bool)
    requires RowsOk(env, db.applications.Keys, db.builds, used, threads, faulted)
    requires b in threads && ThreadOk(clock, threads[b]) && !threads[b].pc.InsertRow?
    ensures var d := NextDb(env, clock, db, b, threads[b], m);
      var u := NextThread(clock, inserted, b in db.builds, job, threads[b], m);
      RowsOk(env, db.applications.Keys, d.builds, used, threads[b := u], faulted || m.fault)
  {
    var t := threads[b];
    var u := NextThread(clock, inserted, b in db.builds, job, t, m);
    var builds := NextDb(env, clock, db, b, t, m).builds;
    assert u.app == t.app by { StepKeepsApp(clock, inserted, b in db.builds, job, t, m); }
    assert OnlyRow(db, NextDb(env, clock, db, b, t, m), b) && builds.Keys == db.builds.Keys by {
      StepTouchesOneRow(env, clock, db, b, t, m);
    }
    OwnRowFits(env, clock, db, db.applications.Keys, used, threads, b, inserted, job, m, faulted);
    RowsUpdate(env, db.applications.Keys, db.builds, builds, used, threads, b, u, faulted, faulted || m.fault);
  }

  lemma OwnRowFits(env: Env, clock: nat, db: Db, live: set<string>, used: map<string, Identity>, threads: map<string, Thread>,
                   b: string, inserted: bool, job: JobStatus, m: Move, faulted: bool)
    requires RowsOk(env, live, db.builds, used, threads, faulted)
    requires b in threads && ThreadOk(clock, threads[b]) && !threads[b].pc.InsertRow?
    ensures var builds := NextDb(env, clock, db, b, threads[b], m).builds;
      var u := NextThread(clock, inserted, b in db.builds, job, threads[b], m);
      && (b in db.builds ==> b in builds && RowFits(Image(env, threads[b].app, b), builds[b], u, faulted || m.fault))
      && (HasRow(u.pc) && threads[b].app.id in live ==> b in db.builds)
      && (u.landed && threads[b].app.id in live ==> b in builds && builds[b].status == Succeeded)
  {
    var t := threads[b];
    var image := Image(env, t.app, b);
    StepHasRow(clock, inserted, b in db.builds, job, t, m);
    if b in db.builds {
      NextDbRow(env, clock, db, b, t, m);
      StepFitsRow(image, clock, db.builds[b], inserted, job, t, m, faulted);
      StepMovesRow(image, clock, db.builds[b], t, m, faulted);
    }
  }

  /** Past the insertion a thread keeps having a row, and only the write of "succeeded" to an existing row lands. */
  lemma StepHasRow(clock: nat, inserted: bool, present: bool, job: JobStatus, t: Thread, m: Move)
    requires !t.pc.InsertRow?
    ensures var u := NextThread(clock, inserted, present, job, t, m);
      (HasRow(u.pc) ==> HasRow(t.pc)) && (u.landed && !t.landed ==> present && HasRow(t.pc) && t.pc.WriteSucceeded? && !m.fault)
  {
  }

  lemma StepKeepsBuilds(env: Env, s: State, b: string, m: Move)
    requires BuildsInv(env, s) && StepEnabled(s, b, m)
    ensures BuildsOk(env, s.clock, NextDb(env, s.clock, s.db, b, s.threads[b], m), s.usedApps,
                     s.threads[b := Stepped(env, s, b, m)], s.faulted || m.fault)
  {
    var t := s.threads[b];
    assert ThreadsOk(s.clock, s.usedApps, s.threads[b := Stepped(env, s, b, m)]) by {
      ThreadStep(s.clock, Inserts(env, s, b), b in s.db.builds, JobOf(s, b), t, m);
      StepKeepsApp(s.clock, Inserts(env, s, b), b in s.db.builds, JobOf(s, b), t, m);
      ThreadsUpdate(s.clock, s.usedApps, s.threads, b, Stepped(env, s, b, m));
    }
    StepTouchesOneRow(env, s.clock, s.db, b, t, m);
    NextDbKeepsSchema(env, s.clock, s.db, b, t, m);
    if t.pc.InsertRow? {
      InsertRowKeepsRows(env, s.clock, s.db, s.usedApps, s.threads, b, m, s.faulted);
    } else {
      OtherStepKeepsRows(env, s.clock, s.db, s.usedApps, s.threads, b, Inserts(env, s, b), JobOf(s, b), m, s.faulted);
    }
  }

  // ---------- other steps ----------

  /** Removing an application with its rows. */
  lemma DeletionKeepsRows(env: Env, db: Db, used: map<string, Identity>, threads: map<string, Thread>, faulted: bool, id: string)
    requires RowsOk(env, db.applications.Keys, db.builds, used, threads, faulted)
    requires DeleteApplication(db, TENANT, id).Ok?
    ensures var d := DeleteApplication(db, TENANT, id).value;
      RowsOk(env, d.applications.Keys, d.builds, used, threads, faulted)
  {
  }

  /** The statement that a handler's step has the store run; none when the call fails before. */
  ghost function RequestStatement(env: Env, s: State, a: Action): Option<Statement>
    requires RequestEnabled(s, a)
  {
    match a
    case CreateApp(_, app) => Some(CreateApplicationStmt(app, s.clock))
    case AddDefaultFunction(r, id, fault) =>
      if fault then None
      else Some(CreateFunctionStmt(Function(id, s.requests[r].app.id, "default", "/...", 0, 0), s.clock))
    case PatchStore(r, fault) =>
      var q := s.requests[r];
      var p := Patched(env, q.app, q.input);
      if p.None? || fault then None
      else Some(UpdateConfigStmt(TENANT, q.app.id, p.value.description, p.value.replicas, p.value.variables,
                                 p.value.resources, s.clock))
    case DeleteRow(r, fault) => if fault then None else Some(DeleteApplicationStmt(TENANT, s.requests[r].app.id))
    case CreateFunctionRow(r, fault) => if fault then None else Some(CreateFunctionStmt(s.requests[r].fn, s.clock))
    case DeleteFunctionRow(r, fault) =>
      if fault then None else Some(DeleteFunctionStmt(s.requests[r].appId, s.requests[r].fnId))
    case _ => None
  }

  ghost function Executed(db: Db, stmt: Option<Statement>): Db {
    if stmt.None? then db else OrSame(Execute(db, stmt.value), db)
  }

  lemma RequestRuns(env: Env, s: State, a: Action)
    requires RequestEnabled(s, a)
    ensures RequestDb(env, s, a) == Executed(s.db, RequestStatement(env, s, a))
  {
  }

  lemma RequestKeepsSchema(env: Env, s: State, a: Action)
    requires ValidDb(s.db) && RequestEnabled(s, a)
    ensures ValidDb(RequestDb(env, s, a))
  {
    RequestRuns(env, s, a);
    var stmt := RequestStatement(env, s, a);
    if stmt.Some? { ExecuteKeepsSchema(s.db, stmt.value); }
  }

  lemma CreationKeepsApps(s: State, app: Application)
    requires AppsOk(s.clock, s.usedApps, s.db.applications) && s.clock > 0 && app.id !in s.usedApps
    requires app.tenantID == TENANT && app.createdAt == 0 && ImageRef.Dns1123(app.name)
    ensures AppsOk(s.clock, s.usedApps[app.id := IdentityOf(Defaulted(app, s.clock))],
                   s.db.applications[app.id := Defaulted(app, s.clock)])
  {
  }

  /** Applications that are still there have kept what never changes. */
  ghost predicate KeepsIdentity(apps: map<string, Application>, apps': map<string, Application>) {
    && (forall k :: k in apps' ==> k in apps)
    && (forall k :: k in apps' ==> apps'[k].id == apps[k].id && apps'[k].tenantID == apps[k].tenantID)
    && (forall k :: k in apps' ==> IdentityOf(apps'[k]) == IdentityOf(apps[k]))
  }

  lemma SubsetKeepsApps(clock: nat, used: map<string, Identity>, apps: map<string, Application>, apps': map<string, Application>)
    requires AppsOk(clock, used, apps) && KeepsIdentity(apps, apps')
    ensures AppsOk(clock, used, apps')
  {
  }

  lemma ConfigKeepsIdentity(db: Db, stmt: Statement)
    requires stmt.UpdateConfigStmt?
    ensures KeepsIdentity(db.applications, OrSame(Execute(db, stmt), db).applications)
  {
  }

  /** Only an insertion adds applications, and no statement changes the identity of one. */
  lemma StatementKeepsIdentity(db: Db, stmt: Statement)
    requires !stmt.CreateApplicationStmt?
    ensures KeepsIdentity(db.applications, OrSame(Execute(db, stmt), db).applications)
  {
    if stmt.UpdateConfigStmt? {
      ConfigKeepsIdentity(db, stmt);
    } else if stmt.DeleteApplicationStmt? {
      assert OrSame(Execute(db, stmt), db).applications in [db.applications, db.applications - {stmt.id}];
    } else {
      assert OrSame(Execute(db, stmt), db).applications == db.applications;
    }
  }

  lemma RequestSubset(env: Env, s: State, a: Action)
    requires RequestEnabled(s, a) && !a.CreateApp?
    ensures KeepsIdentity(s.db.applications, RequestDb(env, s, a).applications)
  {
    RequestRuns(env, s, a);
    var stmt := RequestStatement(env, s, a);
    if stmt.Some? { StatementKeepsIdentity(s.db, stmt.value); }
  }

  lemma RequestKeepsApps(env: Env, s: State, a: Action)
    requires AppsOk(s.clock, s.usedApps, s.db.applications) && s.clock > 0 && RequestEnabled(s, a)
    ensures AppsOk(s.clock, UsedAfter(s, a), RequestDb(env, s, a).applications)
  {
    if a.CreateApp? {
      CreationKeepsApps(s, a.app);
    } else {
      RequestSubset(env, s, a);
      SubsetKeepsApps(s.clock, s.usedApps, s.db.applications, RequestDb(env, s, a).applications);
    }
  }

  /** Statements on applications and functions take builds away at most. */
  lemma StatementKeepsBuilds(db: Db, stmt: Statement)
    requires !stmt.CreateBuildStmt? && !stmt.UpdateBuildStatusStmt? && !stmt.UpdateBuildImageSizeStmt?
    ensures var d := OrSame(Execute(db, stmt), db).builds; forall b :: b in d ==> b in db.builds && d[b] == db.builds[b]
  {
  }

  lemma RequestRows(env: Env, s: State, a: Action)
    requires RequestEnabled(s, a)
    ensures var d := RequestDb(env, s, a).builds; forall b :: b in d ==> b in s.db.builds && d[b] == s.db.builds[b]
  {
    RequestRuns(env, s, a);
    var stmt := RequestStatement(env, s, a);
    if stmt.Some? { StatementKeepsBuilds(s.db, stmt.value); }
  }

  lemma StatementLeavesBuilds(db: Db, stmt: Statement)
    requires stmt.UpdateConfigStmt? || stmt.CreateFunctionStmt? || stmt.DeleteFunctionStmt?
    ensures var d := OrSame(Execute(db, stmt), db);
      d.builds == db.builds && d.applications.Keys == db.applications.Keys
  {
  }

  lemma OtherRequestsKeepBuilds(env: Env, s: State, a: Action)
    requires RequestEnabled(s, a) && !a.CreateApp? && !a.DeleteRow?
    ensures var d := RequestDb(env, s, a);
      d.builds == s.db.builds && d.applications.Keys == s.db.applications.Keys
  {
    RequestRuns(env, s, a);
    var stmt := RequestStatement(env, s, a);
    if stmt.Some? { StatementLeavesBuilds(s.db, stmt.value); }
  }

  lemma CreationKeepsRows(env: Env, s: State, app: Application)
    requires RowsOk(env, s.db.applications.Keys, s.db.builds, s.usedApps, s.threads, s.faulted)
    requires forall b :: b in s.threads ==> s.threads[b].app.id in s.usedApps
    requires app.id !in s.usedApps && InsertApplication(s.db, app, s.clock).Ok?
    ensures var d := InsertApplication(s.db, app, s.clock).value;
      RowsOk(env, d.applications.Keys, d.builds, s.usedApps[app.id := IdentityOf(Defaulted(app, s.clock))], s.threads, s.faulted)
  {
  }

  lemma RequestKeepsRows(env: Env, s: State, a: Action)
    requires RowsOk(env, s.db.applications.Keys, s.db.builds, s.usedApps, s.threads, s.faulted) && RequestEnabled(s, a)
    requires forall b :: b in s.threads ==> s.threads[b].app.id in s.usedApps
    ensures var d := RequestDb(env, s, a);
      RowsOk(env, d.applications.Keys, d.builds, UsedAfter(s, a), s.threads, s.faulted)
  {
    if a.CreateApp? {
      CreationKeepsRows(env, s, a.app);
    } else if a.DeleteRow? {
      if !a.fault && DeleteApplication(s.db, TENANT, s.requests[a.r].app.id).Ok? {
        DeletionKeepsRows(env, s.db, s.usedApps, s.threads, s.faulted, s.requests[a.r].app.id);
      }
    } else {
      OtherRequestsKeepBuilds(env, s, a);
    }
  }

  lemma UsedKeepsThreads(clock: nat, s: State, a: Action)
    requires ThreadsOk(clock, s.usedApps, s.threads) && RequestEnabled(s, a)
    ensures ThreadsOk(clock, UsedAfter(s, a), s.threads)
  {
    assert a.CreateApp? ==> a.app.id !in s.usedApps;
  }

  lemma RequestKeepsBuilds(env: Env, s: State, a: Action)
    requires BuildsInv(env, s) && RequestEnabled(s, a)
    ensures BuildsOk(env, s.clock, RequestDb(env, s, a), UsedAfter(s, a), s.threads, s.faulted)
  {
    RequestKeepsSchema(env, s, a);
    RequestKeepsApps(env, s, a);
    RequestKeepsRows(env, s, a);
    UsedKeepsThreads(s.clock, s, a);
  }

  lemma TickKeepsBuilds(env: Env, s: State, to: nat)
    requires BuildsInv(env, s) && s.clock <= to
    ensures BuildsOk(env, to, s.db, s.usedApps, s.threads, s.faulted)
  {
    forall b | b in s.threads
      ensures ThreadOk(to, s.threads[b])
    {
      assert ThreadOk(s.clock, s.threads[b]);
    }
  }

  lemma BegunIsOk(env: Env, s: State, appId: string)
    requires BuildsInv(env, s) && HasApplication(s.db, appId)
    ensures ThreadOk(s.clock, Begun(s, appId)) && Begun(s, appId).app.id == appId
    ensures appId in s.usedApps && s.usedApps[appId] == IdentityOf(Begun(s, appId).app)
  {
  }

  lemma NewThreadKeepsRows(env: Env, live: set<string>, builds: map<string, Build>, used: map<string, Identity>,
                           threads: map<string, Thread>, b: string, t: Thread, faulted: bool)
    requires RowsOk(env, live, builds, used, threads, faulted) && b !in threads && t.pc.Prepare? && !t.landed
    ensures RowsOk(env, live, builds, used, threads[b := t], faulted)
  {
    RowsFitUpdate(env, builds, builds, threads, b, t, faulted, faulted);
  }

  lemma BeginKeepsBuilds(env: Env, s: State, b: string, appId: string)
    requires BuildsInv(env, s) && b !in s.threads && ImageRef.BuildId(b) && HasApplication(s.db, appId)
    ensures BuildsOk(env, s.clock, s.db, s.usedApps, s.threads[b := Begun(s, appId)], s.faulted)
  {
    BegunIsOk(env, s, appId);
    assert ThreadsOk(s.clock, s.usedApps, s.threads[b := Begun(s, appId)]);
    NewThreadKeepsRows(env, s.db.applications.Keys, s.db.builds, s.usedApps, s.threads, b, Begun(s, appId), s.faulted);
  }

  lemma NextKeepsBuildsOk(env: Env, s: State, a: Action)
    requires BuildsInv(env, s) && Enabled(env, s, a)
    ensures BuildsOk(env, if a.Tick? then a.to else s.clock, DbAfter(env, s, a), UsedAfter(s, a), ThreadsAfter(env, s, a),
                     s.faulted || (a.Step? && a.m.fault))
  {
    if a.Step? { StepKeepsBuilds(env, s, a.b, a.m); }
    else if a.Tick? { TickKeepsBuilds(env, s, a.to); }
    else if a.BeginBuild? { BeginKeepsBuilds(env, s, a.b, a.appId); }
    else if RequestEnabled(s, a) { RequestKeepsBuilds(env, s, a); }
  }

  lemma NextKeepsBuilds(env: Env, s: State, a: Action)
    requires BuildsInv(env, s) && Enabled(env, s, a)
    ensures BuildsInv(env, Next(env, s, a))
  {
    NextKeepsBuildsOk(env, s, a);
  }

  // ---------- what grows ----------

  /** Threads never go away, and what one has achieved stays achieved. */
  ghost predicate Grows(threads: map<string, Thread>, threads': map<string, Thread>) {
    forall b :: b in threads ==> b in threads' && ThreadGrows(threads[b], threads'[b])
  }

  predicate ThreadGrows(t: Thread, u: Thread) {
    && u.app == t.app
    && (t.jobOk ==> u.jobOk) && (t.shipped ==> u.shipped) && (t.wroteOk ==> u.wroteOk) && (t.landed ==> u.landed)
    && (!t.pc.Prepare? ==> !u.pc.Prepare? && u.createdAt == t.createdAt)
    && (HasRow(t.pc) ==> HasRow(u.pc))
    && (Counted(t.pc) ==> Counted(u.pc))
    && (t.pc.Finished? || t.pc.LeftBehind? ==> u == t)
    && (u.pc.LeftBehind? ==> u == t)
  }

  lemma StepGrows(clock: nat, inserted: bool, present: bool, job: JobStatus, t: Thread, m: Move)
    requires ThreadOk(clock, t)
    ensures ThreadGrows(t, NextThread(clock, inserted, present, job, t, m))
  {
  }

  lemma NextGrows(env: Env, s: State, a: Action)
    requires ThreadsOk(s.clock, s.usedApps, s.threads) && (a.BeginBuild? ==> a.b !in s.threads)
    ensures Grows(s.threads, ThreadsAfter(env, s, a))
  {
    if a.Step? && a.b in s.threads {
      StepGrows(s.clock, Inserts(env, s, a.b), a.b in s.db.builds, JobOf(s, a.b), s.threads[a.b], a.m);
    }
  }

  // ---------- how rows change in one step of the system ----------

  lemma InsertedRow(env: Env, clock: nat, db: Db, b: string, t: Thread, m: Move)
    requires b !in db.builds && b in NextDb(env, clock, db, b, t, m).builds
    ensures t.pc.InsertRow? && NextDb(env, clock, db, b, t, m).builds[b].status == Pending
  {
  }

  lemma StepMovesRows(env: Env, s: State, b: string, m: Move)
    requires BuildsInv(env, s) && StepEnabled(s, b, m) && b in NextDb(env, s.clock, s.db, b, s.threads[b], m).builds
    ensures var row := NextDb(env, s.clock, s.db, b, s.threads[b], m).builds[b];
      if b in s.db.builds then RowMoves(s.db.builds[b], row, !s.faulted)
      else row.status == Pending && s.threads[b].pc.InsertRow?
  {
    var t := s.threads[b];
    if b in s.db.builds {
      assert RowFits(Image(env, t.app, b), s.db.builds[b], t, s.faulted) && ThreadOk(s.clock, t);
      NextDbRow(env, s.clock, s.db, b, t, m);
      StepMovesRow(Image(env, t.app, b), s.clock, s.db.builds[b], t, m, s.faulted);
    } else {
      InsertedRow(env, s.clock, s.db, b, t, m);
    }
  }

  /** A row that is there before and after a step has moved along the lifecycle, and a new row is pending. */
  lemma NextMovesRows(env: Env, s: State, a: Action, b: string)
    requires BuildsInv(env, s) && Enabled(env, s, a)
    requires b in DbAfter(env, s, a).builds
    ensures var row := DbAfter(env, s, a).builds[b];
      if b in s.db.builds then RowMoves(s.db.builds[b], row, !s.faulted)
      else row.status == Pending && b in s.threads && s.threads[b].pc.InsertRow?
  {
    if a.Step? {
      StepTouchesOneRow(env, s.clock, s.db, a.b, s.threads[a.b], a.m);
      if b == a.b { StepMovesRows(env, s, b, a.m); }
    } else if RequestEnabled(s, a) {
      RequestRows(env, s, a);
    }
  }
}
