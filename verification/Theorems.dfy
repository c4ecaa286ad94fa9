/** The main results about whole runs of the system of `Protocol`. */
module Theorems {
  import opened Wrappers
  import opened Store
  import opened Loader
  import opened Router
  import opened Protocol
  import opened Builds
  import opened ClusterSafety
  import opened WorkerSafety
  import opened Convergence
  import P = Policy
  import ImageRef

  // ---------- the invariant of every reachable state ----------

  ghost predicate Inv(env: Env, s: State) {
    && BuildsInv(env, s)
    && ClusterInv(env, s.threads, s.posted, s.cluster, s.requests)
    && CountersInv(s.threads, s.requests, s.counters)
    && WorkerInv(env, s)
    && (s.quiet ==> QuietInv(s.db, s.poll, s.table, s.clean))
  }

  lemma InitCluster(env: Env, s: State)
    requires Init(env, s)
    ensures ClusterInv(env, s.threads, s.posted, s.cluster, s.requests)
    ensures CountersInv(s.threads, s.requests, s.counters)
  {
    assert forall b :: b in s.threads ==> s.threads[b].pc.LeftBehind?;
    assert StartedSet(s.threads) == {} && FinishedSet(s.threads, true) == {} && FinishedSet(s.threads, false) == {};
    assert DeployedSet(s.threads) == {} && HandlerDeploys(s.requests) == {};
  }

  lemma InitWorker(env: Env, s: State)
    requires Init(env, s)
    ensures WorkerInv(env, s)
  {
    forall id, b | id in s.db.applications && b in s.threads
      ensures !Earlier(s.threads[b], id, s.db.applications[id].name)
    {
      if s.threads[b].app.id != id { assert !SameName(s.db.applications[s.threads[b].app.id], s.db.applications[id]); }
    }
  }

  lemma InitInv(env: Env, s: State)
    requires Init(env, s)
    ensures Inv(env, s)
  {
    InitBuilds(env, s);
    InitCluster(env, s);
    InitWorker(env, s);
  }

  lemma NextInv(env: Env, s: State, a: Action)
    requires Inv(env, s) && Enabled(env, s, a)
    ensures Inv(env, Next(env, s, a))
  {
    NextKeepsBuilds(env, s, a);
    NextKeepsCluster(env, s, a);
    NextKeepsCounters(env, s, a);
    NextKeepsWorker(env, s, a);
    NextKeepsQuiet(env, s, a);
  }

  lemma InvAt(env: Env, ss: seq<State>, acts: seq<Action>, i: nat)
    requires i < |acts| && i + 1 < |ss| && StepsAt(env, ss, acts, i) && Inv(env, ss[i])
    ensures Inv(env, ss[i + 1])
  {
    NextInv(env, ss[i], acts[i]);
  }

  /** What holds at first and is kept by each step holds all along. */
  lemma {:induction false} KeptAlong<S(!new)>(ss: seq<S>, inv: S -> bool, i: nat)
    requires i < |ss| && inv(ss[0])
    requires forall k :: 0 <= k < i && inv(ss[k]) ==> inv(ss[k + 1])
    ensures inv(ss[i])
  {
    if i > 0 {
      KeptAlong(ss, inv, i - 1);
      assert inv(ss[i - 1 + 1]);
    }
  }

  /** When what holds at `i` began to hold. */
  lemma {:induction false} HoldsSince<S(!new)>(ss: seq<S>, holds: S -> bool, i: nat) returns (k: nat)
    requires i < |ss| && holds(ss[i]) && !holds(ss[0])
    ensures k < i && !holds(ss[k]) && forall j :: k < j <= i ==> holds(ss[j])
  {
    if holds(ss[i - 1]) {
      k := HoldsSince(ss, holds, i - 1);
    } else {
      k := i - 1;
    }
  }

  /** Where what does not hold at `i` and holds at `n` begins to hold. */
  lemma {:induction false} BeginsBetween<S(!new)>(ss: seq<S>, holds: S -> bool, i: nat, n: nat) returns (m: nat)
    requires i < n < |ss| && !holds(ss[i]) && holds(ss[n])
    ensures i <= m < n && holds(ss[m + 1]) && forall l :: i <= l <= m ==> !holds(ss[l])
    decreases n - i
  {
    if holds(ss[i + 1]) {
      m := i;
    } else {
      m := BeginsBetween(ss, holds, i + 1, n);
    }
  }

  lemma InvHolds(env: Env, ss: seq<State>, acts: seq<Action>, i: nat)
    requires Execution(env, ss, acts) && i < |ss|
    ensures Inv(env, ss[i])
  {
    InitInv(env, ss[0]);
    forall k | 0 <= k < i && Inv(env, ss[k])
      ensures Inv(env, ss[k + 1])
    {
      InvAt(env, ss, acts, k);
    }
    KeptAlong(ss, s => Inv(env, s), i);
  }

  lemma GrowsAt(env: Env, ss: seq<State>, acts: seq<Action>, i: nat)
    requires Execution(env, ss, acts) && i < |acts|
    ensures Grows(ss[i].threads, ss[i + 1].threads)
  {
    InvHolds(env, ss, acts, i);
    assert StepsAt(env, ss, acts, i);
    NextGrows(env, ss[i], acts[i]);
  }

  lemma ThreadGrowsTwice(t: Thread, u: Thread, v: Thread)
    requires ThreadGrows(t, u) && ThreadGrows(u, v)
    ensures ThreadGrows(t, v)
  {
  }

  lemma {:induction false} GrowsAlong(ss: seq<State>, i: nat, j: nat, b: string)
    requires i <= j < |ss| && b in ss[i].threads
    requires forall k :: i <= k < j ==> Grows(ss[k].threads, ss[k + 1].threads)
    ensures b in ss[j].threads && ThreadGrows(ss[i].threads[b], ss[j].threads[b])
  {
    if i < j {
      GrowsAlong(ss, i, j - 1, b);
      assert Grows(ss[j - 1].threads, ss[j - 1 + 1].threads);
      ThreadGrowsTwice(ss[i].threads[b], ss[j - 1].threads[b], ss[j].threads[b]);
    }
  }

  /** Threads only make progress between two points of a run. */
  lemma GrowsOver(env: Env, ss: seq<State>, acts: seq<Action>, i: nat, j: nat, b: string)
    requires Execution(env, ss, acts) && i <= j < |ss| && b in ss[i].threads
    ensures b in ss[j].threads && ThreadGrows(ss[i].threads[b], ss[j].threads[b])
  {
    forall k | i <= k < j
      ensures Grows(ss[k].threads, ss[k + 1].threads)
    {
      GrowsAt(env, ss, acts, k);
    }
    GrowsAlong(ss, i, j, b);
  }

  // ---------- events of a run ----------

  /** At step `k` the watcher of `b` sees its Job succeeded with no failure. */
  ghost predicate SeesJobSucceed(ss: seq<State>, acts: seq<Action>, k: nat, b: string) {
    k < |acts| && k < |ss| && acts[k].Step? && acts[k].b == b && b in ss[k].threads && ss[k].threads[b].pc.AwaitJob?
    && acts[k].m.err.None? && b in ss[k].jobs && ss[k].jobs[b].succeeded > 0 && ss[k].jobs[b].failed == 0
  }

  /** At step `k` the write of "succeeded" reaches the row of `b`. */
  ghost predicate RowSucceeds(ss: seq<State>, acts: seq<Action>, k: nat, b: string) {
    k + 1 < |ss| && k < |acts| && acts[k].Step? && acts[k].b == b && b in ss[k].threads && ss[k].threads[b].pc.WriteSucceeded?
    && b in ss[k + 1].db.builds && ss[k + 1].db.builds[b].status == Succeeded
  }

  /** At step `k` the cluster accepts the deploy of `b`'s own image. */
  ghost predicate Ships(env: Env, ss: seq<State>, acts: seq<Action>, k: nat, b: string) {
    k + 1 < |ss| && k < |acts| && acts[k].Step? && acts[k].b == b && b in ss[k].threads && ss[k].threads[b].pc.Ship?
    && acts[k].m.err.None?
    && var app := ss[k].threads[b].app;
       app.name in ss[k + 1].cluster && ss[k + 1].cluster[app.name].image == Image(env, app, b)
  }

  lemma StepFacts(env: Env, s: State, b: string, m: Move)
    requires StepEnabled(s, b, m)
    ensures var t, u := s.threads[b], Stepped(env, s, b, m);
      && (u.jobOk && !t.jobOk ==> t.pc.AwaitJob? && m.err.None? && b in s.jobs && s.jobs[b].succeeded > 0 && s.jobs[b].failed == 0)
      && (u.shipped && !t.shipped ==> t.pc.Ship? && m.err.None?)
      && (u.landed && !t.landed ==> t.pc.WriteSucceeded? && !m.fault && b in s.db.builds)
  {
    ThreadFacts(s.clock, Inserts(env, s, b), b in s.db.builds, JobOf(s, b), s.threads[b], m);
  }

  lemma ThreadFacts(clock: nat, inserted: bool, present: bool, job: JobStatus, t: Thread, m: Move)
    ensures var u := NextThread(clock, inserted, present, job, t, m);
      && (u.jobOk && !t.jobOk ==> t.pc.AwaitJob? && m.err.None? && job.succeeded > 0 && job.failed == 0)
      && (u.shipped && !t.shipped ==> t.pc.Ship? && m.err.None?)
      && (u.landed && !t.landed ==> t.pc.WriteSucceeded? && !m.fault && present)
  {
  }

  lemma {:induction false} JobOkHappened(env: Env, ss: seq<State>, acts: seq<Action>, i: nat, b: string)
    requires Execution(env, ss, acts) && i < |ss| && b in ss[i].threads && ss[i].threads[b].jobOk
    ensures exists k :: 0 <= k < i && SeesJobSucceed(ss, acts, k, b)
  {
    if b in ss[i - 1].threads && ss[i - 1].threads[b].jobOk {
      JobOkHappened(env, ss, acts, i - 1, b);
    } else {
      var s, a := ss[i - 1], acts[i - 1];
      assert StepsAt(env, ss, acts, i - 1);
      if a.Step? { StepFacts(env, s, a.b, a.m); }
      assert SeesJobSucceed(ss, acts, i - 1, b);
    }
  }

  lemma {:induction false} ShippedHappened(env: Env, ss: seq<State>, acts: seq<Action>, i: nat, b: string)
    requires Execution(env, ss, acts) && i < |ss| && b in ss[i].threads && ss[i].threads[b].shipped
    ensures exists k :: 0 <= k < i && Ships(env, ss, acts, k, b)
  {
    if b in ss[i - 1].threads && ss[i - 1].threads[b].shipped {
      ShippedHappened(env, ss, acts, i - 1, b);
    } else {
      var s, a := ss[i - 1], acts[i - 1];
      assert StepsAt(env, ss, acts, i - 1);
      if a.Step? { StepFacts(env, s, a.b, a.m); }
      assert Ships(env, ss, acts, i - 1, b);
    }
  }

  /** The row was there when the run began, and said succeeded. */
  ghost predicate WasSucceeded(s: State, b: string) {
    b in s.db.builds && s.db.builds[b].status == Succeeded
  }

  lemma {:induction false} LandedHappened(env: Env, ss: seq<State>, acts: seq<Action>, i: nat, b: string)
    requires Execution(env, ss, acts) && i < |ss| && b in ss[i].threads && ss[i].threads[b].landed
    ensures WasSucceeded(ss[0], b) || exists k :: 0 <= k < i && RowSucceeds(ss, acts, k, b)
  {
    if i == 0 {
      LandedAtFirst(env, ss, acts, b);
    } else if b in ss[i - 1].threads && ss[i - 1].threads[b].landed {
      LandedHappened(env, ss, acts, i - 1, b);
    } else {
      LandsAt(env, ss, acts, i - 1, b);
    }
  }

  lemma LandedAtFirst(env: Env, ss: seq<State>, acts: seq<Action>, b: string)
    requires Execution(env, ss, acts) && b in ss[0].threads && ss[0].threads[b].landed
    ensures WasSucceeded(ss[0], b)
  {
  }

  lemma LandsAt(env: Env, ss: seq<State>, acts: seq<Action>, k: nat, b: string)
    requires Execution(env, ss, acts) && k < |acts| && b in ss[k + 1].threads && ss[k + 1].threads[b].landed
    requires !(b in ss[k].threads && ss[k].threads[b].landed)
    ensures RowSucceeds(ss, acts, k, b)
  {
    var s, a := ss[k], acts[k];
    assert StepsAt(env, ss, acts, k);
    if a.Step? { StepFacts(env, s, a.b, a.m); }
  }

  lemma LeftBehindBefore(env: Env, s: State, a: Action, b: string)
    requires ThreadsOk(s.clock, s.usedApps, s.threads) && Enabled(env, s, a)
    requires b in ThreadsAfter(env, s, a) && ThreadsAfter(env, s, a)[b].pc.LeftBehind?
    ensures b in s.threads && s.threads[b] == ThreadsAfter(env, s, a)[b]
  {
    NextGrows(env, s, a);
    assert b in s.threads ==> ThreadGrows(s.threads[b], ThreadsAfter(env, s, a)[b]);
  }

  ghost predicate AddsNoLeftover(threads: map<string, Thread>, threads': map<string, Thread>) {
    forall b :: b in threads' && threads'[b].pc.LeftBehind? ==> b in threads && threads[b] == threads'[b]
  }

  lemma NextAddsNoLeftover(env: Env, ss: seq<State>, acts: seq<Action>, i: nat)
    requires Execution(env, ss, acts) && i < |acts|
    ensures AddsNoLeftover(ss[i].threads, ss[i + 1].threads)
  {
    InvHolds(env, ss, acts, i);
    assert StepsAt(env, ss, acts, i);
    StepAddsNoLeftover(env, ss[i], acts[i]);
  }

  lemma StepAddsNoLeftover(env: Env, s: State, a: Action)
    requires ThreadsOk(s.clock, s.usedApps, s.threads) && Enabled(env, s, a)
    ensures AddsNoLeftover(s.threads, ThreadsAfter(env, s, a))
  {
    forall b | b in ThreadsAfter(env, s, a) && ThreadsAfter(env, s, a)[b].pc.LeftBehind?
      ensures b in s.threads && s.threads[b] == ThreadsAfter(env, s, a)[b]
    {
      LeftBehindBefore(env, s, a, b);
    }
  }

  lemma {:induction false} LeftBehindAlong(ss: seq<State>, i: nat, b: string)
    requires i < |ss| && b in ss[i].threads && ss[i].threads[b].pc.LeftBehind?
    requires forall k :: 0 <= k < i ==> AddsNoLeftover(ss[k].threads, ss[k + 1].threads)
    ensures b in ss[0].threads && ss[0].threads[b] == ss[i].threads[b]
  {
    if i > 0 {
      assert AddsNoLeftover(ss[i - 1].threads, ss[i - 1 + 1].threads);
      LeftBehindAlong(ss, i - 1, b);
    }
  }

  lemma LeftBehindSinceStart(env: Env, ss: seq<State>, acts: seq<Action>, i: nat, b: string)
    requires Execution(env, ss, acts) && i < |ss| && b in ss[i].threads && ss[i].threads[b].pc.LeftBehind?
    ensures b in ss[0].threads && ss[0].threads[b] == ss[i].threads[b] && b in ss[0].db.builds
  {
    forall k | 0 <= k < i
      ensures AddsNoLeftover(ss[k].threads, ss[k + 1].threads)
    {
      NextAddsNoLeftover(env, ss, acts, k);
    }
    LeftBehindAlong(ss, i, b);
  }

  lemma WasLeftSucceeded(env: Env, ss: seq<State>, acts: seq<Action>, i: nat, b: string)
    requires Execution(env, ss, acts) && i < |ss| && b in ss[i].threads && ss[i].threads[b].pc == LeftBehind(Succeeded)
    ensures WasSucceeded(ss[0], b)
  {
    LeftBehindSinceStart(env, ss, acts, i, b);
  }

  lemma {:induction false} PostedHappened(env: Env, ss: seq<State>, acts: seq<Action>, i: nat, name: string, image: string)
    requires Execution(env, ss, acts) && i < |ss| && (name, image) in ss[i].posted
    ensures Ran(ss[0], name, image) || exists k :: 0 <= k < i && Posts(ss, acts, k, name, image)
  {
    if i == 0 {
    } else if (name, image) in ss[i - 1].posted {
      PostedHappened(env, ss, acts, i - 1, name, image);
    } else {
      assert StepsAt(env, ss, acts, i - 1);
      assert Posts(ss, acts, i - 1, name, image);
    }
  }

  /** The SpinApp ran this image when the run began. */
  ghost predicate Ran(s: State, name: string, image: string) {
    name in s.cluster && s.cluster[name].image == image
  }

  /** Step `k` is a request to /deploy this image for an application of this name. */
  ghost predicate Posts(ss: seq<State>, acts: seq<Action>, k: nat, name: string, image: string) {
    k < |acts| && k < |ss| && acts[k].BeginDeploy? && acts[k].image == image
    && acts[k].appId in ss[k].db.applications && ss[k].db.applications[acts[k].appId].name == name
  }

  // ---------- provenance of what the worker serves ----------

  /**
    Every (name, image) in the worker's table is the image of a build of a workerpool application
    of that name whose Job was first seen to succeed without a failure and whose row then became succeeded,
    or whose row said succeeded when the run began.
  */
  lemma Provenance(env: Env, ss: seq<State>, acts: seq<Action>, i: nat, name: string)
    requires Execution(env, ss, acts) && i < |ss| && name in ss[i].table
    ensures ss[i].table[name].app.name == name && Whole(ss[i].table[name])
    ensures exists b :: ServedFrom(env, ss, acts, i, b, name, ss[i].table[name].app.imageRef)
  {
    InvHolds(env, ss, acts, i);
    var b := ss[i].served[name];
    assert FromBuild(env, ss[i].threads, name, ss[i].table[name].app.imageRef, b);
    LandedHappened(env, ss, acts, i, b);
    if WasSucceeded(ss[0], b) {
      GrowsOver(env, ss, acts, 0, i, b);
    } else {
      var k :| 0 <= k < i && RowSucceeds(ss, acts, k, b);
      InvHolds(env, ss, acts, k);
      assert ThreadOk(ss[k].clock, ss[k].threads[b]);
      JobOkHappened(env, ss, acts, k, b);
      var j :| 0 <= j < k && SeesJobSucceed(ss, acts, j, b);
      GrowsOver(env, ss, acts, k, i, b);
      assert PublishedBy(env, ss, acts, b, j, k, name, ss[i].table[name].app.imageRef);
    }
    assert ServedFrom(env, ss, acts, i, b, name, ss[i].table[name].app.imageRef);
  }

  /** Where a served image can come from: a build of the run before state `i`, or one from before the run. */
  ghost predicate ServedFrom(env: Env, ss: seq<State>, acts: seq<Action>, i: nat, b: string, name: string, image: string)
    requires |ss| > 0
  {
    (exists j, k :: 0 <= j < k < i && PublishedBy(env, ss, acts, b, j, k, name, image))
    || (WasSucceeded(ss[0], b) && b in ss[0].threads && PublishedAs(env, ss[0].threads[b].app, b, name, image))
  }

  /** `b` was seen to succeed at step `j` and its row became succeeded at step `k`, under this name and image. */
  ghost predicate PublishedBy(env: Env, ss: seq<State>, acts: seq<Action>, b: string, j: nat, k: nat, name: string, image: string) {
    SeesJobSucceed(ss, acts, j, b) && RowSucceeds(ss, acts, k, b) && PublishedAs(env, ss[k].threads[b].app, b, name, image)
  }

  predicate PublishedAs(env: Env, app: Application, b: string, name: string, image: string) {
    app.runtime == WorkerPool && app.name == name && image == Image(env, app, b)
  }

  // ---------- the worker never goes back in time ----------

  /** The build served under a name, if any, is no newer than the one served after the step. */
  ghost predicate Forward(threads: map<string, Thread>, served: map<string, string>,
                          threads': map<string, Thread>, served': map<string, string>, name: string)
    requires name in served
  {
    name in served' && served[name] in threads && served'[name] in threads'
    && threads[served[name]].createdAt <= threads'[served'[name]].createdAt
  }

  lemma PollServesForward(env: Env, s: State, a: Action, name: string)
    requires TableInv(env, s.threads, s.table, s.served) && PollInv(env, s.usedApps, s.threads, s.table, s.served, s.poll)
    requires name in s.served
    ensures Forward(s.threads, s.served, s.threads, PollServed(s.table, s.served, s.poll, a), name)
  {
    PollServesNext(s.table, s.served, s.poll, a);
    if AtEntry(s.poll) { EntryIsNotOlder(env, s.usedApps, s.threads, s.table, s.served, s.poll); }
  }

  predicate AtEntry(p: Poll) {
    (p.Adding? || p.Inserting?) && |p.os| < |p.feed|
  }

  lemma PollServesNext(table: Table, served: map<string, string>, p: Poll, a: Action)
    ensures PollServed(table, served, p, a) == served
      || (AtEntry(p) && PollServed(table, served, p, a) == served[p.feed[|p.os|].name := p.feed[|p.os|].build])
  {
  }

  lemma EntryIsNotOlder(env: Env, used: map<string, Identity>, threads: map<string, Thread>, table: Table,
                        served: map<string, string>, p: Poll)
    requires PollInv(env, used, threads, table, served, p) && AtEntry(p)
    ensures NotOlder(threads, served, p.feed[|p.os|].name, p.feed[|p.os|].build)
  {
  }

  lemma OtherServesForward(env: Env, s: State, a: Action, name: string)
    requires TableInv(env, s.threads, s.table, s.served) && name in s.served
    requires ThreadsOk(s.clock, s.usedApps, s.threads) && Grows(s.threads, ThreadsAfter(env, s, a))
    ensures Forward(s.threads, s.served, ThreadsAfter(env, s, a), s.served, name)
  {
    LandedKeepsStamp(s.clock, s.usedApps, s.threads, ThreadsAfter(env, s, a), s.served[name]);
  }

  lemma NextServesForward(env: Env, s: State, a: Action, name: string)
    requires Inv(env, s) && Enabled(env, s, a) && name in s.served
    ensures Forward(s.threads, s.served, ThreadsAfter(env, s, a), PollServed(s.table, s.served, s.poll, a), name)
  {
    if PollAction(a) {
      WorkerLeavesOthers(env, s, a);
      PollServesForward(env, s, a, name);
    } else {
      OthersLeaveWorker(s, a);
      NextGrows(env, s, a);
      OtherServesForward(env, s, a, name);
    }
  }

  lemma ForwardAt(env: Env, ss: seq<State>, acts: seq<Action>, i: nat, name: string)
    requires Execution(env, ss, acts) && i < |acts| && name in ss[i].served
    ensures Forward(ss[i].threads, ss[i].served, ss[i + 1].threads, ss[i + 1].served, name)
  {
    InvHolds(env, ss, acts, i);
    assert StepsAt(env, ss, acts, i);
    NextServesForward(env, ss[i], acts[i], name);
  }

  lemma ForwardHere(env: Env, ss: seq<State>, acts: seq<Action>, i: nat, name: string)
    requires Execution(env, ss, acts) && i < |ss| && name in ss[i].served
    ensures Forward(ss[i].threads, ss[i].served, ss[i].threads, ss[i].served, name)
  {
    InvHolds(env, ss, acts, i);
  }

  lemma {:induction false} ServedForward(env: Env, ss: seq<State>, acts: seq<Action>, i: nat, j: nat, name: string)
    requires Execution(env, ss, acts) && i <= j < |ss| && name in ss[i].served
    ensures Forward(ss[i].threads, ss[i].served, ss[j].threads, ss[j].served, name)
  {
    if i < j {
      ServedForward(env, ss, acts, i, j - 1, name);
      ForwardAt(env, ss, acts, j - 1, name);
    } else {
      ForwardHere(env, ss, acts, i, name);
    }
  }

  /** In a reachable state an image names its build. */
  lemma ImageNamesBuild(env: Env, s: State, name: string, b: string)
    requires Inv(env, s) && name in s.table && b in s.threads && s.threads[b].app.name == name
    requires s.table[name].app.imageRef == Image(env, s.threads[b].app, b)
    ensures b == s.served[name]
  {
    var c := s.served[name];
    assert FromBuild(env, s.threads, name, s.table[name].app.imageRef, c);
    assert s.usedApps[s.threads[b].app.id].name == name;
    ImageRef.PrintIsInjective(env.registry, name, b, name, c);
  }

  /**
    Between any two points of a run, across rebuilds, failed pulls, removals, and deletion and
    re-creation of applications, the worker never goes from serving a name with one build to serving it
    with a build that was started earlier.
  */
  lemma NeverServesOlder(env: Env, ss: seq<State>, acts: seq<Action>, i: nat, j: nat, name: string, b: string, c: string)
    requires Execution(env, ss, acts) && i <= j < |ss| && name in ss[i].table && name in ss[j].table
    requires b in ss[i].threads && PublishedAs(env, ss[i].threads[b].app, b, name, ss[i].table[name].app.imageRef)
    requires c in ss[j].threads && PublishedAs(env, ss[j].threads[c].app, c, name, ss[j].table[name].app.imageRef)
    ensures ss[i].threads[b].createdAt <= ss[j].threads[c].createdAt
  {
    InvHolds(env, ss, acts, i);
    InvHolds(env, ss, acts, j);
    ImageNamesBuild(env, ss[i], name, b);
    ImageNamesBuild(env, ss[j], name, c);
    ServedForward(env, ss, acts, i, j, name);
  }

  // ---------- the life of a build row ----------

  /** What may lie between two observations of one row. */
  ghost predicate RowReaches(before: Build, after: Build) {
    && Rank(before.status) <= Rank(after.status)
    && (IsTerminal(before.status) ==> after == before)
    && after.id == before.id && after.applicationID == before.applicationID && after.imageRef == before.imageRef
    && after.createdAt == before.createdAt
  }

  lemma RowMovesAt(env: Env, ss: seq<State>, acts: seq<Action>, i: nat, b: string)
    requires Execution(env, ss, acts) && i < |acts| && b in ss[i + 1].db.builds
    ensures if b in ss[i].db.builds then RowMoves(ss[i].db.builds[b], ss[i + 1].db.builds[b], !ss[i].faulted)
            else ss[i + 1].db.builds[b].status == Pending && b in ss[i].threads && ss[i].threads[b].pc.InsertRow?
  {
    InvHolds(env, ss, acts, i);
    assert StepsAt(env, ss, acts, i);
    NextMovesRows(env, ss[i], acts[i], b);
  }

  lemma RowHasThread(env: Env, ss: seq<State>, acts: seq<Action>, i: nat, b: string)
    requires Execution(env, ss, acts) && i < |ss| && b in ss[i].db.builds
    ensures b in ss[i].threads && HasRow(ss[i].threads[b].pc)
  {
    InvHolds(env, ss, acts, i);
  }

  lemma RowStays(env: Env, ss: seq<State>, acts: seq<Action>, i: nat, j: nat, b: string)
    requires Execution(env, ss, acts) && i < j < |ss| && b in ss[i].db.builds && b in ss[j].db.builds
    ensures b in ss[j - 1].db.builds
  {
    RowMovesAt(env, ss, acts, j - 1, b);
    if b !in ss[j - 1].db.builds {
      RowHasThread(env, ss, acts, i, b);
      GrowsOver(env, ss, acts, i, j - 1, b);
      assert false;
    }
  }

  lemma MovesReach(before: Build, mid: Build, after: Build, clean: bool)
    requires RowReaches(before, mid) && RowMoves(mid, after, clean)
    ensures RowReaches(before, after)
  {
  }

  lemma RowReachesNext(env: Env, ss: seq<State>, acts: seq<Action>, before: Build, j: nat, b: string)
    requires Execution(env, ss, acts) && 0 < j < |ss| && b in ss[j - 1].db.builds && b in ss[j].db.builds
    requires RowReaches(before, ss[j - 1].db.builds[b])
    ensures RowReaches(before, ss[j].db.builds[b])
  {
    RowMovesAt(env, ss, acts, j - 1, b);
    MovesReach(before, ss[j - 1].db.builds[b], ss[j].db.builds[b], !ss[j - 1].faulted);
  }

  /** A row only moves forward, terminal rows never change in any column, and a deleted row never comes back. */
  lemma {:induction false} RowsMoveForward(env: Env, ss: seq<State>, acts: seq<Action>, i: nat, j: nat, b: string)
    requires Execution(env, ss, acts) && i <= j < |ss| && b in ss[i].db.builds && b in ss[j].db.builds
    ensures RowReaches(ss[i].db.builds[b], ss[j].db.builds[b])
    ensures forall k :: i <= k <= j ==> b in ss[k].db.builds
  {
    if i < j {
      RowStays(env, ss, acts, i, j, b);
      RowsMoveForward(env, ss, acts, i, j - 1, b);
      RowReachesNext(env, ss, acts, ss[i].db.builds[b], j, b);
    }
  }

  /** One step moves a row along one arrow of the lifecycle, and rows are born pending. */
  lemma OneArrowAtATime(env: Env, ss: seq<State>, acts: seq<Action>, i: nat, b: string)
    requires Execution(env, ss, acts) && i < |acts| && b in ss[i + 1].db.builds
    ensures if b in ss[i].db.builds then Moves(ss[i].db.builds[b].status, ss[i + 1].db.builds[b].status, !ss[i].faulted)
            else ss[i + 1].db.builds[b].status == Pending
  {
    RowMovesAt(env, ss, acts, i, b);
  }

  /** In every state: a row is stamped as finished exactly when terminal, not before it was created, and carries an error exactly when failed. */
  lemma RowsAreWellFormed(env: Env, ss: seq<State>, acts: seq<Action>, i: nat, b: string)
    requires Execution(env, ss, acts) && i < |ss| && b in ss[i].db.builds
    ensures var row := ss[i].db.builds[b];
      && (row.finishedAt.Some? <==> IsTerminal(row.status))
      && (row.finishedAt.Some? ==> row.createdAt <= row.finishedAt.value)
      && (row.error != "" <==> row.status == Failed)
      && row.applicationID in ss[i].db.applications
  {
    InvHolds(env, ss, acts, i);
    assert RowFits(Image(env, ss[i].threads[b].app, b), ss[i].db.builds[b], ss[i].threads[b], ss[i].faulted);
  }

  /**
    A row says succeeded only after its Job was seen to succeed, and for a spinkube application only after its own
    image was applied, unless it said so when the run began.
  */
  lemma SucceededMeansDeployed(env: Env, ss: seq<State>, acts: seq<Action>, i: nat, b: string)
    requires Execution(env, ss, acts) && i < |ss| && b in ss[i].db.builds && ss[i].db.builds[b].status == Succeeded
    ensures b in ss[i].threads
    ensures WasSucceeded(ss[0], b) || BuiltAndShipped(env, ss, acts, i, b)
  {
    InvHolds(env, ss, acts, i);
    SucceededRowHas(env, ss[i], b);
    var t := ss[i].threads[b];
    if t.pc.LeftBehind? {
      WasLeftSucceeded(env, ss, acts, i, b);
    } else {
      JobOkHappened(env, ss, acts, i, b);
      if t.app.runtime != WorkerPool { ShippedHappened(env, ss, acts, i, b); }
      assert BuiltAndShipped(env, ss, acts, i, b);
    }
  }

  /** Before state `i` the Job was seen to succeed and, for a spinkube application, the image was applied. */
  ghost predicate BuiltAndShipped(env: Env, ss: seq<State>, acts: seq<Action>, i: nat, b: string) {
    && i < |ss| && b in ss[i].threads
    && (exists k :: 0 <= k < i && SeesJobSucceed(ss, acts, k, b))
    && (ss[i].threads[b].app.runtime != WorkerPool ==> exists k :: 0 <= k < i && Ships(env, ss, acts, k, b))
  }

  lemma SucceededRowHas(env: Env, s: State, b: string)
    requires Inv(env, s) && b in s.db.builds && s.db.builds[b].status == Succeeded
    ensures b in s.threads
    ensures var t := s.threads[b];
      if t.pc.LeftBehind? then t.pc.status == Succeeded else t.jobOk && (t.app.runtime == WorkerPool || t.shipped)
  {
    var t := s.threads[b];
    assert RowFits(Image(env, t.app, b), s.db.builds[b], t, s.faulted) && ThreadOk(s.clock, t);
  }

  /** Rows of earlier processes never move: nobody watches these builds, and nothing else writes a row. */
  lemma {:induction false} LeftoversNeverMove(env: Env, ss: seq<State>, acts: seq<Action>, i: nat, b: string)
    requires Execution(env, ss, acts) && i < |ss| && b in ss[0].db.builds && b in ss[i].db.builds
    ensures ss[i].db.builds[b] == ss[0].db.builds[b]
  {
    if i > 0 {
      RowStays(env, ss, acts, 0, i, b);
      LeftoversNeverMove(env, ss, acts, i - 1, b);
      StaysLeftBehind(env, ss, acts, i - 1, b);
      LeftoverStaysAt(env, ss, acts, i - 1, b);
    }
  }

  lemma StartsLeftBehind(env: Env, ss: seq<State>, acts: seq<Action>, b: string)
    requires Execution(env, ss, acts) && b in ss[0].db.builds
    ensures b in ss[0].threads && ss[0].threads[b].pc.LeftBehind?
  {
  }

  lemma StaysLeftBehind(env: Env, ss: seq<State>, acts: seq<Action>, i: nat, b: string)
    requires Execution(env, ss, acts) && i < |ss| && b in ss[0].db.builds
    ensures b in ss[i].threads && ss[i].threads[b].pc.LeftBehind?
  {
    StartsLeftBehind(env, ss, acts, b);
    GrowsOver(env, ss, acts, 0, i, b);
  }

  lemma LeftoverStaysAt(env: Env, ss: seq<State>, acts: seq<Action>, i: nat, b: string)
    requires Execution(env, ss, acts) && i < |acts| && b in ss[i].threads && ss[i].threads[b].pc.LeftBehind?
    requires b in ss[i].db.builds && b in ss[i + 1].db.builds
    ensures ss[i + 1].db.builds[b] == ss[i].db.builds[b]
  {
    assert StepsAt(env, ss, acts, i);
    LeftoverStays(env, ss[i], acts[i], b);
  }

  lemma LeftoverStays(env: Env, s: State, a: Action, b: string)
    requires Enabled(env, s, a) && b in s.threads && s.threads[b].pc.LeftBehind?
    requires b in s.db.builds && b in DbAfter(env, s, a).builds
    ensures DbAfter(env, s, a).builds[b] == s.db.builds[b]
  {
    if a.Step? {
      StepTouchesOneRow(env, s.clock, s.db, a.b, s.threads[a.b], a.m);
    } else if RequestEnabled(s, a) {
      RequestRows(env, s, a);
    }
  }

  // ---------- what runs on the cluster ----------

  /** Where the image of a SpinApp can come from besides /deploy: a build that succeeded in the run, or from before the run. */
  ghost predicate BuiltBefore(env: Env, ss: seq<State>, acts: seq<Action>, i: nat, name: string, image: string) {
    exists b, k :: 0 <= k < i && SeesJobSucceed(ss, acts, k, b) && BuiltAs(env, ss[k].threads[b].app, b, name, image)
  }

  predicate BuiltAs(env: Env, app: Application, b: string, name: string, image: string) {
    app.runtime != WorkerPool && app.name == name && image == Image(env, app, b)
  }

  /**
    Whatever PATCH requests read and re-apply in between, a SpinApp runs an image posted to /deploy for
    an application of its name, or that of a build of such an application whose Job was seen to succeed, or the
    one it ran when the run began.
  */
  lemma ClusterImages(env: Env, ss: seq<State>, acts: seq<Action>, i: nat, name: string)
    requires Execution(env, ss, acts) && i < |ss| && name in ss[i].cluster
    ensures ss[i].cluster[name].name == name
    ensures var image := ss[i].cluster[name].image;
      Ran(ss[0], name, image) || (exists k :: 0 <= k < i && Posts(ss, acts, k, name, image)) || BuiltBefore(env, ss, acts, i, name, image)
  {
    InvHolds(env, ss, acts, i);
    var image := ss[i].cluster[name].image;
    assert Justified(env, ss[i].threads, ss[i].posted, name, image);
    if (name, image) in ss[i].posted {
      PostedHappened(env, ss, acts, i, name, image);
    } else {
      var b :| Built(env, ss[i].threads, b, name, image);
      JobOkHappened(env, ss, acts, i, b);
      var k :| 0 <= k < i && SeesJobSucceed(ss, acts, k, b);
      GrowsOver(env, ss, acts, k, i, b);
      assert BuiltAs(env, ss[k].threads[b].app, b, name, image);
    }
  }

  /**
    With caps that parse, every SpinApp obeys the platform policy and has a replica, whatever rows older policies
    left in the store, but for those not applied again since the run began.
  */
  lemma {:induction false} ClusterObeysPolicy(env: Env, ss: seq<State>, acts: seq<Action>, i: nat)
    requires Execution(env, ss, acts) && i < |ss|
    requires env.deploy.policy.mode == "max" ==> P.CapsParse(env.deploy.policy)
    ensures PolicyInv(env, ss[0].cluster, ss[i].cluster)
  {
    if i > 0 {
      ClusterObeysPolicy(env, ss, acts, i - 1);
      assert StepsAt(env, ss, acts, i - 1);
      NextKeepsPolicy(env, ss[0].cluster, ss[i - 1], acts[i - 1]);
    }
  }

  // ---------- metrics ----------

  function WroteSet(threads: map<string, Thread>): set<string> {
    set b | b in threads && threads[b].wroteOk
  }

  /** Builds that wrote "succeeded" and have not yet counted their deploy. */
  function DueSet(threads: map<string, Thread>): set<string> {
    set b | b in threads && threads[b].pc.CountDeploy?
  }

  /**
    In every state: builds started = builds finished, by outcome, + builds in flight; a finished build is counted under the
    outcome it wrote; and the deploys counted are those of the builds that wrote "succeeded", but for the
    ones about to count, and those of the /deploy handlers.
  */
  lemma CountersBalance(env: Env, ss: seq<State>, acts: seq<Action>, i: nat)
    requires Execution(env, ss, acts) && i < |ss|
    ensures var s := ss[i];
      && s.counters.started == s.counters.finishedOk + s.counters.finishedFailed + |LiveSet(s.threads)|
      && (forall b :: b in s.threads && s.threads[b].pc.Finished? ==> s.threads[b].pc.ok == s.threads[b].wroteOk)
      && s.counters.deploysApplied + |DueSet(s.threads)| == |WroteSet(s.threads)| + |HandlerDeploys(s.requests)|
  {
    InvHolds(env, ss, acts, i);
    var s := ss[i];
    StartedEqualsFinishedPlusLive(s.threads, s.requests, s.counters);
    WroteSplits(s.clock, s.usedApps, s.threads);
  }

  lemma WroteSplits(clock: nat, used: map<string, Identity>, threads: map<string, Thread>)
    requires ThreadsOk(clock, used, threads)
    ensures |WroteSet(threads)| == |DeployedSet(threads)| + |DueSet(threads)|
    ensures forall b :: b in threads && threads[b].pc.Finished? ==> threads[b].pc.ok == threads[b].wroteOk
  {
    forall b | b in threads
      ensures threads[b].wroteOk <==> Wrote(threads[b].pc)
    {
      assert ThreadOk(clock, threads[b]);
    }
    assert WroteSet(threads) == DeployedSet(threads) + DueSet(threads);
    assert DeployedSet(threads) !! DueSet(threads);
  }

  // ---------- convergence ----------

  /** Nothing a poll asks of the store or the registry at this step fails. */
  ghost predicate NoFailure(s: State, a: Action) {
    PollClean(true, s.poll, a)
  }

  lemma QuietAt(env: Env, ss: seq<State>, acts: seq<Action>, m: nat)
    requires Execution(env, ss, acts) && m < |acts| && ss[m + 1].db == ss[m].db && NoFailure(ss[m], acts[m])
    requires acts[m].PollList? || (ss[m].quiet && ss[m].clean)
    ensures ss[m + 1].quiet && ss[m + 1].clean
  {
    assert StepsAt(env, ss, acts, m);
  }

  lemma {:induction false} StillStoreIsQuiet(env: Env, ss: seq<State>, acts: seq<Action>, k: nat, i: nat)
    requires Execution(env, ss, acts) && k < i < |ss| && acts[k].PollList?
    requires forall m :: k <= m <= i ==> ss[m].db == ss[k].db
    requires forall m :: k <= m < i ==> NoFailure(ss[m], acts[m])
    ensures ss[i].quiet && ss[i].clean
  {
    if i > k + 1 {
      StillStoreIsQuiet(env, ss, acts, k, i - 1);
    }
    QuietAt(env, ss, acts, i - 1);
  }

  /**
    If the store does not change from the start of a poll to the end of its sync and no query and no
    pull fails in between, then whatever else goes on, at the end the worker serves every workerpool
    application that is due, and nothing else, each with its newest succeeded build.
  */
  lemma StillStoreConverges(env: Env, ss: seq<State>, acts: seq<Action>, k: nat, i: nat)
    requires Execution(env, ss, acts) && k < i < |acts| && acts[k].PollList? && EndsSync(ss[i], acts[i])
    requires forall m :: k <= m <= i ==> ss[m].db == ss[k].db
    requires forall m :: k <= m < i ==> NoFailure(ss[m], acts[m])
    ensures Converged(ss[i + 1].db, ss[i + 1].table)
  {
    InvHolds(env, ss, acts, i);
    StillStoreIsQuiet(env, ss, acts, k, i);
    assert StepsAt(env, ss, acts, i);
    QuietSyncConverges(env, ss[i], acts[i]);
  }

  /** However it is interleaved, a sync ends with the table one undisturbed `Router.Sync` makes of the table it started from. */
  lemma EverySyncIsAtomic(env: Env, ss: seq<State>, acts: seq<Action>, i: nat)
    requires Execution(env, ss, acts) && i < |acts| && EndsSync(ss[i], acts[i])
    ensures |ss[i].poll.os| == |ss[i].poll.feed| && DistinctNames(Wants(ss[i].poll.feed))
    ensures ss[i + 1].table == Synced(ss[i].poll.start, Wants(ss[i].poll.feed), ss[i].poll.os)
  {
    InvHolds(env, ss, acts, i);
    assert StepsAt(env, ss, acts, i);
    SyncIsAtomic(env, ss[i], acts[i]);
  }

  /** Over every run, an entry leaves the table only in the removal step of a sync whose list does not name it. */
  lemma NoGap(env: Env, ss: seq<State>, acts: seq<Action>, i: nat, name: string)
    requires Execution(env, ss, acts) && i < |acts| && name in ss[i].table && name !in ss[i + 1].table
    ensures acts[i].SyncRemove? && ss[i].poll.Removing? && !Wanted(Wants(ss[i].poll.feed), name)
  {
    InvHolds(env, ss, acts, i);
    assert StepsAt(env, ss, acts, i);
    OnlyUnwantedAreDropped(env, ss[i], acts[i], name);
  }
}
