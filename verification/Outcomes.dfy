/** What a build row tells about how the build ended: when, with which text, and how large the image is. */
module Outcomes {
  import opened Wrappers
  import opened Store
  import opened Protocol
  import opened Builds
  import opened Theorems

  // ---------- events of a build ----------

  /** Step `k` is one of build `b`. */
  ghost predicate Takes(ss: seq<State>, acts: seq<Action>, k: nat, b: string) {
    k < |acts| && k < |ss| && acts[k].Step? && acts[k].b == b && b in ss[k].threads
  }

  /** At step `k` the source or the Job of `b` cannot be handed to the cluster. */
  ghost predicate StartFails(ss: seq<State>, acts: seq<Action>, k: nat, b: string, msg: string) {
    Takes(ss, acts, k, b) && acts[k].m.err.Some? &&
    var pc, err := ss[k].threads[b].pc, acts[k].m.err.value;
    (pc.ShipSource? && msg == "create source secret: " + err) || (pc.CreateJob? && msg == "create job: " + err)
  }

  /** At step `k` the watcher of `b` cannot read the Job, or gives up waiting for it. */
  ghost predicate PollFails(ss: seq<State>, acts: seq<Action>, k: nat, b: string, msg: string) {
    Takes(ss, acts, k, b) && ss[k].threads[b].pc.AwaitJob? && acts[k].m.err == Some(msg)
  }

  /** At step `k` the watcher of `b` sees its Job failed; the text is the Job's own, if it has one. */
  ghost predicate SeesJobFail(ss: seq<State>, acts: seq<Action>, k: nat, b: string, msg: string) {
    Takes(ss, acts, k, b) && ss[k].threads[b].pc.AwaitJob? && acts[k].m.err.None?
    && b in ss[k].jobs && ss[k].jobs[b].failed > 0
    && (ss[k].jobs[b].message != "" ==> msg == ss[k].jobs[b].message) && (ss[k].jobs[b].message == "" ==> msg == "job failed")
  }

  /** At step `k` the deploy of `b`'s own image fails. */
  ghost predicate DeployFails(ss: seq<State>, acts: seq<Action>, k: nat, b: string, msg: string) {
    Takes(ss, acts, k, b) && ss[k].threads[b].pc.Ship? && acts[k].m.err.Some? && msg == "deploy: " + acts[k].m.err.value
  }

  /** At step `k` the size of `b`'s image has been read and is stored in its row. */
  ghost predicate StoresSize(ss: seq<State>, acts: seq<Action>, k: nat, b: string, size: int) {
    Takes(ss, acts, k, b) && ss[k].threads[b].pc.SaveSize? && acts[k].m.size == Some(size) && !acts[k].m.fault && b in ss[k].db.builds
  }

  /** The row of `b` becomes failed at step `k`. */
  ghost predicate RowFails(ss: seq<State>, acts: seq<Action>, k: nat, b: string) {
    Takes(ss, acts, k, b) && k + 1 < |ss| && b in ss[k].db.builds && b in ss[k + 1].db.builds
    && ss[k].db.builds[b].status != Failed && ss[k + 1].db.builds[b].status == Failed
  }

  // ---------- causes, before state `i` ----------

  /** The Job was seen to succeed at this time. */
  ghost predicate SawSuccess(ss: seq<State>, acts: seq<Action>, i: nat, b: string, at: nat) {
    exists k :: 0 <= k < i && SeesJobSucceed(ss, acts, k, b) && ss[k].clock == at
  }

  /** The watch ended badly at this time, with this text. */
  ghost predicate SawFailure(ss: seq<State>, acts: seq<Action>, i: nat, b: string, msg: string, at: nat) {
    exists k :: 0 <= k < i && (PollFails(ss, acts, k, b, msg) || SeesJobFail(ss, acts, k, b, msg)) && ss[k].clock == at
  }

  /** The Job was seen to succeed at this time, and then the deploy failed with this text. */
  ghost predicate DeployFailed(ss: seq<State>, acts: seq<Action>, i: nat, b: string, msg: string, at: nat) {
    exists k, l :: 0 <= k < l < i && SeesJobSucceed(ss, acts, k, b) && ss[k].clock == at && DeployFails(ss, acts, l, b, msg)
  }

  ghost predicate StartFailed(ss: seq<State>, acts: seq<Action>, i: nat, b: string, msg: string) {
    exists k :: 0 <= k < i && StartFails(ss, acts, k, b, msg)
  }

  /** The start failed with this text, and the row was marked at this time. */
  ghost predicate GaveUp(ss: seq<State>, acts: seq<Action>, i: nat, b: string, msg: string, at: nat) {
    exists k, n :: 0 <= k < n < i && StartFails(ss, acts, k, b, msg) && RowFails(ss, acts, n, b) && ss[n].clock == at
  }

  /** What a terminal row tells has happened before state `i`. */
  ghost predicate Told(ss: seq<State>, acts: seq<Action>, i: nat, b: string, row: Build) {
    row.finishedAt.Some? &&
    var at := row.finishedAt.value;
    if row.status == Succeeded then row.error == "" && SawSuccess(ss, acts, i, b, at)
    else
      SawFailure(ss, acts, i, b, row.error, at) || DeployFailed(ss, acts, i, b, row.error, at) || GaveUp(ss, acts, i, b, row.error, at)
  }

  // ---------- threads know what happened ----------

  ghost predicate Knows(ss: seq<State>, acts: seq<Action>, i: nat, b: string, t: Thread) {
    && (SawJob(t.pc) ==> SawSuccess(ss, acts, i, b, t.finishedAt))
    && (t.pc.WriteFailed? ==>
         SawFailure(ss, acts, i, b, t.pc.msg, t.finishedAt) || DeployFailed(ss, acts, i, b, t.pc.msg, t.finishedAt))
    && (t.pc.FailStart? ==> StartFailed(ss, acts, i, b, t.pc.msg))
  }

  lemma KnowsLater(ss: seq<State>, acts: seq<Action>, i: nat, j: nat, b: string, t: Thread)
    requires Knows(ss, acts, i, b, t) && i <= j
    ensures Knows(ss, acts, j, b, t)
  {
  }

  lemma ToldLater(ss: seq<State>, acts: seq<Action>, i: nat, j: nat, b: string, row: Build)
    requires Told(ss, acts, i, b, row) && i <= j
    ensures Told(ss, acts, j, b, row)
  {
  }

  /** Where a thread is after a poll, and with which text and time. */
  lemma PollTells(clock: nat, inserted: bool, present: bool, job: JobStatus, t: Thread, m: Move)
    requires t.pc.AwaitJob?
    ensures var u := NextThread(clock, inserted, present, job, t, m);
      && (u.pc.AwaitJob? || u.pc.WriteFailed? || u.pc.SaveSize?)
      && (u.pc.SaveSize? ==> m.err.None? && job.succeeded > 0 && job.failed == 0 && u.finishedAt == clock)
      && (u.pc.WriteFailed? ==> u.finishedAt == clock && (m.err == Some(u.pc.msg) || m.err.None?))
      && (u.pc.WriteFailed? && m.err.None? ==> job.failed > 0)
      && (u.pc.WriteFailed? && m.err.None? && job.message != "" ==> u.pc.msg == job.message)
      && (u.pc.WriteFailed? && m.err.None? && job.message == "" ==> u.pc.msg == "job failed")
  {
  }

  /** Where a thread is after another step. */
  lemma OtherStepTells(clock: nat, inserted: bool, present: bool, job: JobStatus, t: Thread, m: Move)
    requires !t.pc.AwaitJob?
    ensures var u := NextThread(clock, inserted, present, job, t, m);
      && u.finishedAt == t.finishedAt
      && (SawJob(u.pc) ==> SawJob(t.pc))
      && (u.pc.WriteFailed? ==> t.pc.Ship? && m.err.Some? && u.pc.msg == "deploy: " + m.err.value)
      && (u.pc.FailStart? ==> m.err.Some? && (t.pc.ShipSource? || t.pc.CreateJob?))
      && (u.pc.FailStart? && t.pc.ShipSource? ==> u.pc.msg == "create source secret: " + m.err.value)
      && (u.pc.FailStart? && t.pc.CreateJob? ==> u.pc.msg == "create job: " + m.err.value)
  {
    if Starts(t.pc) { StartTells(clock, inserted, present, job, t, m); } else { LateTells(clock, inserted, present, job, t, m); }
  }

  lemma StartTells(clock: nat, inserted: bool, present: bool, job: JobStatus, t: Thread, m: Move)
    requires Starts(t.pc)
    ensures var u := NextThread(clock, inserted, present, job, t, m);
      && u.finishedAt == t.finishedAt && !SawJob(u.pc) && !u.pc.WriteFailed?
      && (u.pc.FailStart? ==> m.err.Some? && (t.pc.ShipSource? || t.pc.CreateJob?))
      && (u.pc.FailStart? && t.pc.ShipSource? ==> u.pc.msg == "create source secret: " + m.err.value)
      && (u.pc.FailStart? && t.pc.CreateJob? ==> u.pc.msg == "create job: " + m.err.value)
  {
  }

  lemma LateTells(clock: nat, inserted: bool, present: bool, job: JobStatus, t: Thread, m: Move)
    requires !Starts(t.pc) && !t.pc.AwaitJob?
    ensures var u := NextThread(clock, inserted, present, job, t, m);
      && u.finishedAt == t.finishedAt && !u.pc.FailStart? && (SawJob(u.pc) ==> SawJob(t.pc))
      && (u.pc.WriteFailed? ==> t.pc.Ship? && m.err.Some? && u.pc.msg == "deploy: " + m.err.value)
  {
  }

  lemma StepLearns(ss: seq<State>, acts: seq<Action>, i: nat, b: string, inserted: bool, present: bool)
    requires Takes(ss, acts, i, b) && Knows(ss, acts, i, b, ss[i].threads[b])
    requires ss[i].threads[b].pc.AwaitJob? && acts[i].m.err.None? ==> b in ss[i].jobs
    ensures Knows(ss, acts, i + 1, b, NextThread(ss[i].clock, inserted, present, JobOf(ss[i], b), ss[i].threads[b], acts[i].m))
  {
    var s, t, m := ss[i], ss[i].threads[b], acts[i].m;
    var u := NextThread(s.clock, inserted, present, JobOf(s, b), t, m);
    if t.pc.AwaitJob? {
      PollTells(s.clock, inserted, present, JobOf(s, b), t, m);
      if u.pc.SaveSize? { assert SeesJobSucceed(ss, acts, i, b); }
      if u.pc.WriteFailed? { assert PollFails(ss, acts, i, b, u.pc.msg) || SeesJobFail(ss, acts, i, b, u.pc.msg); }
    } else {
      OtherStepTells(s.clock, inserted, present, JobOf(s, b), t, m);
      KnowsLater(ss, acts, i, i + 1, b, t);
      if u.pc.WriteFailed? { assert DeployFails(ss, acts, i, b, u.pc.msg); }
      if u.pc.FailStart? { assert StartFails(ss, acts, i, b, u.pc.msg); }
    }
  }

  lemma KnowsAtFirst(env: Env, ss: seq<State>, acts: seq<Action>, b: string)
    requires Execution(env, ss, acts) && b in ss[0].threads
    ensures Knows(ss, acts, 0, b, ss[0].threads[b])
  {
  }

  lemma KnowsNext(env: Env, ss: seq<State>, acts: seq<Action>, i: nat, b: string)
    requires Execution(env, ss, acts) && i < |acts| && b in ss[i + 1].threads
    requires b in ss[i].threads ==> Knows(ss, acts, i, b, ss[i].threads[b])
    ensures Knows(ss, acts, i + 1, b, ss[i + 1].threads[b])
  {
    var s, a := ss[i], acts[i];
    assert StepsAt(env, ss, acts, i);
    assert ss[i + 1].threads == ThreadsAfter(env, s, a);
    if a.Step? && a.b == b {
      StepLearns(ss, acts, i, b, Inserts(env, s, b), b in s.db.builds);
    } else if b in s.threads && ss[i + 1].threads[b] == s.threads[b] {
      KnowsLater(ss, acts, i, i + 1, b, s.threads[b]);
    }
  }

  lemma {:induction false} KnowsAlong(env: Env, ss: seq<State>, acts: seq<Action>, i: nat, b: string)
    requires Execution(env, ss, acts) && i < |ss| && b in ss[i].threads
    ensures Knows(ss, acts, i, b, ss[i].threads[b])
  {
    if i == 0 {
      KnowsAtFirst(env, ss, acts, b);
    } else {
      if b in ss[i - 1].threads { KnowsAlong(env, ss, acts, i - 1, b); }
      KnowsNext(env, ss, acts, i - 1, b);
    }
  }

  // ---------- rows tell what happened ----------

  /** The step that ends a row, and what it writes. */
  ghost predicate Ends(clock: nat, t: Thread, row: Build) {
    || (t.pc.WriteSucceeded? && row.status == Succeeded && row.error == "" && row.finishedAt == Some(t.finishedAt))
    || (t.pc.WriteFailed? && row.status == Failed && row.error == t.pc.msg && row.finishedAt == Some(t.finishedAt))
    || (t.pc.FailStart? && row.status == Failed && row.error == t.pc.msg && row.finishedAt == Some(clock))
  }

  lemma NextRowEnds(clock: nat, row: Build, t: Thread, m: Move)
    requires !IsTerminal(row.status) && IsTerminal(NextRow(clock, row, t, m).status)
    ensures Ends(clock, t, NextRow(clock, row, t, m))
  {
  }

  lemma RowEnds(env: Env, s: State, a: Action, b: string)
    requires BuildsInv(env, s) && Enabled(env, s, a) && b in s.db.builds && b in DbAfter(env, s, a).builds
    requires !IsTerminal(s.db.builds[b].status) && IsTerminal(DbAfter(env, s, a).builds[b].status)
    ensures a.Step? && a.b == b && b in s.threads && Ends(s.clock, s.threads[b], DbAfter(env, s, a).builds[b])
  {
    if a.Step? {
      StepTouchesOneRow(env, s.clock, s.db, a.b, s.threads[a.b], a.m);
      if b == a.b {
        assert RowFits(Image(env, s.threads[b].app, b), s.db.builds[b], s.threads[b], s.faulted);
        NextDbRow(env, s.clock, s.db, b, s.threads[b], a.m);
        NextRowEnds(s.clock, s.db.builds[b], s.threads[b], a.m);
      }
    } else if RequestEnabled(s, a) {
      RequestRows(env, s, a);
    }
  }

  lemma EndingTells(env: Env, ss: seq<State>, acts: seq<Action>, i: nat, b: string)
    requires Execution(env, ss, acts) && i < |acts| && b in ss[i].db.builds && b in ss[i + 1].db.builds
    requires !IsTerminal(ss[i].db.builds[b].status) && IsTerminal(ss[i + 1].db.builds[b].status)
    ensures Told(ss, acts, i + 1, b, ss[i + 1].db.builds[b])
  {
    InvHolds(env, ss, acts, i);
    assert StepsAt(env, ss, acts, i);
    RowEnds(env, ss[i], acts[i], b);
    KnowsAlong(env, ss, acts, i, b);
    var t := ss[i].threads[b];
    KnowsLater(ss, acts, i, i + 1, b, t);
    if t.pc.FailStart? {
      assert RowFails(ss, acts, i, b);
      var k :| 0 <= k < i && StartFails(ss, acts, k, b, t.pc.msg);
      assert GaveUp(ss, acts, i + 1, b, t.pc.msg, ss[i].clock);
    }
  }

  /** The row is the one that was there when the run began. */
  ghost predicate AsAtStart(ss: seq<State>, b: string, row: Build) {
    |ss| > 0 && b in ss[0].db.builds && row == ss[0].db.builds[b]
  }

  /**
    Over every run a terminal row tells what happened. A succeeded one has no error and the time at which its watcher
    saw the Job succeed. A failed one has the text and the time of the poll that failed or found the Job failed; or
    the deploy's error and the time at which the Job was seen to succeed; or the error of a start that failed and
    the time at which the row was marked. Only rows of earlier processes are as they were.
  */
  lemma {:induction false} TerminalRowsTell(env: Env, ss: seq<State>, acts: seq<Action>, i: nat, b: string)
    requires Execution(env, ss, acts) && i < |ss| && b in ss[i].db.builds && IsTerminal(ss[i].db.builds[b].status)
    ensures AsAtStart(ss, b, ss[i].db.builds[b]) || Told(ss, acts, i, b, ss[i].db.builds[b])
  {
    if i > 0 {
      RowMovesAt(env, ss, acts, i - 1, b);
      if IsTerminal(ss[i - 1].db.builds[b].status) {
        TerminalRowsTell(env, ss, acts, i - 1, b);
        if Told(ss, acts, i - 1, b, ss[i].db.builds[b]) { ToldLater(ss, acts, i - 1, i, b, ss[i].db.builds[b]); }
      } else {
        EndingTells(env, ss, acts, i - 1, b);
      }
    }
  }

  /** The three writes that end a row end it, unless the store fails; and it is succeeded only by the one for that. */
  lemma EndsAreWritten(env: Env, ss: seq<State>, acts: seq<Action>, n: nat, b: string)
    requires Execution(env, ss, acts) && n + 1 < |ss| && Takes(ss, acts, n, b) && !acts[n].m.fault && b in ss[n].db.builds
    requires var pc := ss[n].threads[b].pc; pc.WriteSucceeded? || pc.WriteFailed? || pc.FailStart?
    ensures b in ss[n + 1].db.builds
    ensures ss[n + 1].db.builds[b].status == if ss[n].threads[b].pc.WriteSucceeded? then Succeeded else Failed
  {
    assert StepsAt(env, ss, acts, n);
    NextDbRow(env, ss[n].clock, ss[n].db, b, ss[n].threads[b], acts[n].m);
  }

  // ---------- each happens once ----------

  /** Threads pass these phases in order, and only the poll repeats. */
  function Phase(pc: Pc): nat {
    match pc
    case Prepare => 0
    case InsertRow => 1
    case ShipSource => 2
    case CreateJob => 3
    case FailStart(_) => 4
    case CountStart => 4
    case MarkRunning => 5
    case AwaitJob => 6
    case SaveSize => 7
    case Ship => 8
    case WriteFailed(_) => 9
    case WriteSucceeded => 9
    case CountDeploy => 10
    case CountFinish(_) => 11
    case _ => 12
  }

  /** The thread has moved on, but for a poll that found the Job still going, and the end. */
  predicate MovedOn(t: Thread, u: Thread) {
    Phase(u.pc) > Phase(t.pc) || (t.pc.AwaitJob? && u.pc.AwaitJob?) || (Phase(t.pc) == 12 && Phase(u.pc) == 12)
  }

  lemma StartRises(clock: nat, inserted: bool, present: bool, job: JobStatus, t: Thread, m: Move)
    requires Starts(t.pc)
    ensures MovedOn(t, NextThread(clock, inserted, present, job, t, m))
  {
  }

  lemma LateRises(clock: nat, inserted: bool, present: bool, job: JobStatus, t: Thread, m: Move)
    requires !Starts(t.pc) && !t.pc.AwaitJob?
    ensures MovedOn(t, NextThread(clock, inserted, present, job, t, m))
  {
  }

  lemma PollRises(clock: nat, inserted: bool, present: bool, job: JobStatus, t: Thread, m: Move)
    requires t.pc.AwaitJob?
    ensures var u := NextThread(clock, inserted, present, job, t, m);
      if m.err.Some? || job.succeeded > 0 || job.failed > 0 then Phase(u.pc) > Phase(t.pc) else u.pc == t.pc
  {
  }

  lemma PhaseRises(clock: nat, inserted: bool, present: bool, job: JobStatus, t: Thread, m: Move)
    ensures MovedOn(t, NextThread(clock, inserted, present, job, t, m))
  {
    if Starts(t.pc) { StartRises(clock, inserted, present, job, t, m); }
    else if t.pc.AwaitJob? { PollRises(clock, inserted, present, job, t, m); }
    else { LateRises(clock, inserted, present, job, t, m); }
  }

  lemma PhaseAt(env: Env, ss: seq<State>, acts: seq<Action>, i: nat, b: string)
    requires Execution(env, ss, acts) && i < |acts| && b in ss[i].threads
    ensures b in ss[i + 1].threads && Phase(ss[i].threads[b].pc) <= Phase(ss[i + 1].threads[b].pc)
    ensures Takes(ss, acts, i, b) && !ss[i].threads[b].pc.AwaitJob? ==>
      Phase(ss[i].threads[b].pc) < Phase(ss[i + 1].threads[b].pc)
  {
    var s, a := ss[i], acts[i];
    assert StepsAt(env, ss, acts, i);
    assert ss[i + 1].threads == ThreadsAfter(env, s, a);
    if a.Step? { PhaseRises(s.clock, Inserts(env, s, a.b), a.b in s.db.builds, JobOf(s, a.b), s.threads[a.b], a.m); }
  }

  lemma {:induction false} PhaseAlong(env: Env, ss: seq<State>, acts: seq<Action>, i: nat, j: nat, b: string)
    requires Execution(env, ss, acts) && i <= j < |ss| && b in ss[i].threads
    ensures b in ss[j].threads && Phase(ss[i].threads[b].pc) <= Phase(ss[j].threads[b].pc)
  {
    if i < j {
      PhaseAlong(env, ss, acts, i, j - 1, b);
      PhaseAt(env, ss, acts, j - 1, b);
    }
  }

  /** The step at which the watch of `b` ends, one way or the other. */
  ghost predicate EndsWatch(ss: seq<State>, acts: seq<Action>, k: nat, b: string) {
    SeesJobSucceed(ss, acts, k, b) || exists msg :: PollFails(ss, acts, k, b, msg) || SeesJobFail(ss, acts, k, b, msg)
  }

  lemma EndsWatchRises(env: Env, ss: seq<State>, acts: seq<Action>, k: nat, b: string)
    requires Execution(env, ss, acts) && EndsWatch(ss, acts, k, b) && k + 1 < |ss|
    ensures b in ss[k + 1].threads && Phase(ss[k + 1].threads[b].pc) > 6
  {
    var s, a := ss[k], acts[k];
    assert StepsAt(env, ss, acts, k);
    assert ss[k + 1].threads == ThreadsAfter(env, s, a);
    PollRises(s.clock, Inserts(env, s, b), b in s.db.builds, JobOf(s, b), s.threads[b], a.m);
  }

  lemma WatchNotEndedAgain(env: Env, ss: seq<State>, acts: seq<Action>, k: nat, l: nat, b: string)
    requires Execution(env, ss, acts) && EndsWatch(ss, acts, k, b) && EndsWatch(ss, acts, l, b)
    ensures l <= k
  {
    if k < l {
      EndsWatchRises(env, ss, acts, k, b);
      PhaseAlong(env, ss, acts, k + 1, l, b);
    }
  }

  /** The watch of a build ends at one step only, so the time a row tells is that of the one. */
  lemma WatchEndsOnce(env: Env, ss: seq<State>, acts: seq<Action>, k: nat, l: nat, b: string)
    requires Execution(env, ss, acts) && EndsWatch(ss, acts, k, b) && EndsWatch(ss, acts, l, b)
    ensures k == l
  {
    WatchNotEndedAgain(env, ss, acts, k, l, b);
    WatchNotEndedAgain(env, ss, acts, l, k, b);
  }

  // ---------- the size of the image ----------

  lemma NextRowSize(clock: nat, row: Build, t: Thread, m: Move)
    ensures NextRow(clock, row, t, m).imageSize ==
      if t.pc.SaveSize? && m.size.Some? && !m.fault then m.size else row.imageSize
  {
  }

  lemma StepSize(env: Env, s: State, b: string, m: Move)
    requires BuildsInv(env, s) && StepEnabled(s, b, m) && b in NextDb(env, s.clock, s.db, b, s.threads[b], m).builds
    ensures var row := NextDb(env, s.clock, s.db, b, s.threads[b], m).builds[b];
      row.imageSize == if b !in s.db.builds then None
        else if s.threads[b].pc.SaveSize? && m.size.Some? && !m.fault then m.size else s.db.builds[b].imageSize
  {
    var t := s.threads[b];
    if b in s.db.builds {
      assert RowFits(Image(env, t.app, b), s.db.builds[b], t, s.faulted);
      NextDbRow(env, s.clock, s.db, b, t, m);
      NextRowSize(s.clock, s.db.builds[b], t, m);
    } else {
      InsertedRow(env, s.clock, s.db, b, t, m);
    }
  }

  predicate SavesSize(s: State, a: Action, b: string) {
    a.Step? && a.b == b && b in s.threads && s.threads[b].pc.SaveSize? && a.m.size.Some? && !a.m.fault && b in s.db.builds
  }

  lemma OtherStepSize(env: Env, s: State, c: string, m: Move, b: string)
    requires StepEnabled(s, c, m) && b != c && b in NextDb(env, s.clock, s.db, c, s.threads[c], m).builds
    ensures b in s.db.builds && NextDb(env, s.clock, s.db, c, s.threads[c], m).builds[b] == s.db.builds[b]
  {
    StepTouchesOneRow(env, s.clock, s.db, c, s.threads[c], m);
  }

  /** Nothing but the steps of a build writes a row. */
  lemma OthersLeaveRows(env: Env, s: State, a: Action, b: string)
    requires !a.Step? && b in DbAfter(env, s, a).builds
    ensures b in s.db.builds && DbAfter(env, s, a).builds[b] == s.db.builds[b]
  {
    if RequestEnabled(s, a) { RequestRows(env, s, a); }
  }

  lemma NextSize(env: Env, s: State, a: Action, b: string)
    requires BuildsInv(env, s) && (a.Step? ==> StepEnabled(s, a.b, a.m)) && b in DbAfter(env, s, a).builds
    ensures DbAfter(env, s, a).builds[b].imageSize ==
      if b !in s.db.builds then None else if SavesSize(s, a, b) then a.m.size else s.db.builds[b].imageSize
  {
    if a.Step? {
      if a.b == b { StepSize(env, s, b, a.m); } else { OtherStepSize(env, s, a.b, a.m, b); }
    } else {
      OthersLeaveRows(env, s, a, b);
    }
  }

  lemma SizeAt(env: Env, ss: seq<State>, acts: seq<Action>, i: nat, b: string)
    requires Execution(env, ss, acts) && i < |acts| && b in ss[i + 1].db.builds
    ensures ss[i + 1].db.builds[b].imageSize ==
      if b !in ss[i].db.builds then None else if SavesSize(ss[i], acts[i], b) then acts[i].m.size else ss[i].db.builds[b].imageSize
  {
    InvHolds(env, ss, acts, i);
    assert StepsAt(env, ss, acts, i);
    NextSize(env, ss[i], acts[i], b);
  }

  lemma SizeNotStoredAgain(env: Env, ss: seq<State>, acts: seq<Action>, k: nat, l: nat, b: string)
    requires Execution(env, ss, acts) && k < l < |acts| && SavesSize(ss[k], acts[k], b)
    ensures !SavesSize(ss[l], acts[l], b)
  {
    PhaseAt(env, ss, acts, k, b);
    PhaseAlong(env, ss, acts, k + 1, l, b);
  }

  lemma {:induction false} SizeWasStored(env: Env, ss: seq<State>, acts: seq<Action>, i: nat, b: string, x: int)
    requires Execution(env, ss, acts) && i < |ss| && b in ss[i].db.builds && b !in ss[0].db.builds
    requires ss[i].db.builds[b].imageSize == Some(x)
    ensures exists k :: 0 <= k < i && StoresSize(ss, acts, k, b, x)
  {
    SizeAt(env, ss, acts, i - 1, b);
    if SavesSize(ss[i - 1], acts[i - 1], b) {
      assert StoresSize(ss, acts, i - 1, b, x);
    } else {
      SizeWasStored(env, ss, acts, i - 1, b, x);
    }
  }

  lemma {:induction false} SizeStays(env: Env, ss: seq<State>, acts: seq<Action>, k: nat, i: nat, b: string, x: int)
    requires Execution(env, ss, acts) && k < i < |ss| && StoresSize(ss, acts, k, b, x) && b in ss[i].db.builds
    ensures ss[i].db.builds[b].imageSize == Some(x)
  {
    SizeAt(env, ss, acts, i - 1, b);
    if k < i - 1 {
      RowStays(env, ss, acts, k, i, b);
      SizeNotStoredAgain(env, ss, acts, k, i - 1, b);
      SizeStays(env, ss, acts, k, i - 1, b, x);
    }
  }

  /** The row of a build of this process shows a size exactly when it was read, and stored without a fault: that one. */
  lemma SizeTellsIff(env: Env, ss: seq<State>, acts: seq<Action>, i: nat, b: string, x: int)
    requires Execution(env, ss, acts) && i < |ss| && b in ss[i].db.builds && b !in ss[0].db.builds
    ensures ss[i].db.builds[b].imageSize == Some(x) <==> exists k :: 0 <= k < i && StoresSize(ss, acts, k, b, x)
  {
    if ss[i].db.builds[b].imageSize == Some(x) {
      SizeWasStored(env, ss, acts, i, b, x);
    }
    forall k | 0 <= k < i && StoresSize(ss, acts, k, b, x)
      ensures ss[i].db.builds[b].imageSize == Some(x)
    {
      SizeStays(env, ss, acts, k, i, b, x);
    }
  }
}
