/** What runs on the cluster, and the metrics: invariants of every step. */
module ClusterSafety {
  import opened Wrappers
  import opened Store
  import opened Protocol
  import opened Builds
  import P = Policy
  import D = Deploy

  // ---------- images ----------

  /** `b` is a build of a non-workerpool application called `name` whose Job succeeded without a failure. */
  ghost predicate Built(env: Env, threads: map<string, Thread>, b: string, name: string, image: string) {
    b in threads && threads[b].jobOk && threads[b].app.runtime != WorkerPool
    && threads[b].app.name == name && Image(env, threads[b].app, b) == image
  }

  ghost predicate Justified(env: Env, threads: map<string, Thread>, posted: set<(string, string)>, name: string, image: string) {
    (name, image) in posted || exists b :: Built(env, threads, b, name, image)
  }

  ghost predicate ClusterInv(env: Env, threads: map<string, Thread>, posted: set<(string, string)>,
                             cluster: map<string, D.SpinApp>, requests: map<string, Request>) {
    && (forall n :: n in cluster ==> cluster[n].name == n && Justified(env, threads, posted, n, cluster[n].image))
    && (forall r :: r in requests && requests[r].PatchRead? ==>
         Justified(env, threads, posted, requests[r].app.name, requests[r].image))
    && (forall r :: r in requests && requests[r].DeployLoaded? ==> (requests[r].app.name, requests[r].image) in posted)
  }

  lemma JustifiedGrows(env: Env, threads: map<string, Thread>, threads': map<string, Thread>,
                       posted: set<(string, string)>, posted': set<(string, string)>, name: string, image: string)
    requires Grows(threads, threads') && posted <= posted' && Justified(env, threads, posted, name, image)
    ensures Justified(env, threads', posted', name, image)
  {
    if (name, image) !in posted {
      var b :| Built(env, threads, b, name, image);
      assert ThreadGrows(threads[b], threads'[b]);
      assert Built(env, threads', b, name, image);
    }
  }

  lemma ClusterGrows(env: Env, threads: map<string, Thread>, threads': map<string, Thread>,
                     posted: set<(string, string)>, posted': set<(string, string)>,
                     cluster: map<string, D.SpinApp>, requests: map<string, Request>)
    requires Grows(threads, threads') && posted <= posted' && ClusterInv(env, threads, posted, cluster, requests)
    ensures ClusterInv(env, threads', posted', cluster, requests)
  {
    forall n | n in cluster
      ensures Justified(env, threads', posted', n, cluster[n].image)
    {
      JustifiedGrows(env, threads, threads', posted, posted', n, cluster[n].image);
    }
    forall r | r in requests && requests[r].PatchRead?
      ensures Justified(env, threads', posted', requests[r].app.name, requests[r].image)
    {
      JustifiedGrows(env, threads, threads', posted, posted', requests[r].app.name, requests[r].image);
    }
  }

  /** A build's own deploy applies an image whose Job succeeded. */
  lemma ShipKeepsCluster(env: Env, s: State, b: string, m: Move)
    requires ClusterInv(env, s.threads, s.posted, s.cluster, s.requests)
    requires b in s.threads && ThreadOk(s.clock, s.threads[b])
    ensures ClusterInv(env, s.threads, s.posted, NextCluster(env, s.cluster, b, s.threads[b], m), s.requests)
  {
    var t := s.threads[b];
    if t.pc.Ship? {
      assert Built(env, s.threads, b, t.app.name, Image(env, t.app, b));
    }
  }

  lemma RequestKeepsCluster(env: Env, s: State, a: Action)
    requires ClusterInv(env, s.threads, s.posted, s.cluster, s.requests) && RequestEnabled(s, a)
    ensures ClusterInv(env, s.threads, PostedAfter(s, a), RequestCluster(env, s, a), RequestsAfter(env, s, a))
  {
    ClusterGrows(env, s.threads, s.threads, s.posted, PostedAfter(s, a), s.cluster, s.requests);
    if a.PatchApply? {
    } else if a.PatchGet? {
    } else if a.DeployApply? {
    } else if a.DeleteUndeploy? {
    } else if a.BeginDeploy? {
    } else {
      assert RequestCluster(env, s, a) == s.cluster;
      assert !RequestNext(env, s, a).PatchRead? && !RequestNext(env, s, a).DeployLoaded?;
    }
  }

  lemma StepKeepsCluster(env: Env, s: State, b: string, m: Move)
    requires ClusterInv(env, s.threads, s.posted, s.cluster, s.requests)
    requires b in s.threads && ThreadOk(s.clock, s.threads[b]) && Grows(s.threads, s.threads[b := Stepped(env, s, b, m)])
    ensures ClusterInv(env, s.threads[b := Stepped(env, s, b, m)], s.posted, NextCluster(env, s.cluster, b, s.threads[b], m), s.requests)
  {
    ShipKeepsCluster(env, s, b, m);
    ClusterGrows(env, s.threads, s.threads[b := Stepped(env, s, b, m)], s.posted, s.posted,
                 NextCluster(env, s.cluster, b, s.threads[b], m), s.requests);
  }

  lemma StepLeavesRequests(env: Env, s: State, a: Action)
    requires a.Step? && a.b in s.threads
    ensures ThreadsAfter(env, s, a) == s.threads[a.b := Stepped(env, s, a.b, a.m)]
    ensures ClusterAfter(env, s, a) == NextCluster(env, s.cluster, a.b, s.threads[a.b], a.m)
    ensures PostedAfter(s, a) == s.posted && RequestsAfter(env, s, a) == s.requests
  {
  }

  lemma RequestLeavesThreads(env: Env, s: State, a: Action)
    requires RequestEnabled(s, a)
    ensures ThreadsAfter(env, s, a) == s.threads && ClusterAfter(env, s, a) == RequestCluster(env, s, a)
  {
  }

  lemma OthersLeaveCluster(env: Env, s: State, a: Action)
    requires Enabled(env, s, a) && !a.Step? && !RequestEnabled(s, a)
    ensures ClusterAfter(env, s, a) == s.cluster && PostedAfter(s, a) == s.posted && RequestsAfter(env, s, a) == s.requests
  {
  }

  /** The cluster part of the invariant on the parts of the state after the step. */
  ghost predicate ClusterPartsInv(env: Env, s: State, a: Action) {
    ClusterInv(env, ThreadsAfter(env, s, a), PostedAfter(s, a), ClusterAfter(env, s, a), RequestsAfter(env, s, a))
  }

  lemma BuilderKeepsCluster(env: Env, s: State, a: Action)
    requires ClusterInv(env, s.threads, s.posted, s.cluster, s.requests) && ThreadsOk(s.clock, s.usedApps, s.threads)
    requires a.Step? && a.b in s.threads
    ensures ClusterPartsInv(env, s, a)
  {
    NextGrows(env, s, a);
    StepLeavesRequests(env, s, a);
    StepKeepsCluster(env, s, a.b, a.m);
  }

  lemma HandlerKeepsCluster(env: Env, s: State, a: Action)
    requires ClusterInv(env, s.threads, s.posted, s.cluster, s.requests) && RequestEnabled(s, a)
    ensures ClusterPartsInv(env, s, a)
  {
    RequestLeavesThreads(env, s, a);
    RequestKeepsCluster(env, s, a);
  }

  lemma OtherKeepsCluster(env: Env, s: State, a: Action)
    requires ClusterInv(env, s.threads, s.posted, s.cluster, s.requests) && ThreadsOk(s.clock, s.usedApps, s.threads)
    requires Enabled(env, s, a) && !a.Step? && !RequestEnabled(s, a)
    ensures ClusterPartsInv(env, s, a)
  {
    NextGrows(env, s, a);
    OthersLeaveCluster(env, s, a);
    ClusterGrows(env, s.threads, ThreadsAfter(env, s, a), s.posted, s.posted, s.cluster, s.requests);
  }

  lemma NextKeepsCluster(env: Env, s: State, a: Action)
    requires Enabled(env, s, a)
    requires ClusterInv(env, s.threads, s.posted, s.cluster, s.requests)
    requires ThreadsOk(s.clock, s.usedApps, s.threads)
    ensures ClusterPartsInv(env, s, a)
  {
    if a.Step? { BuilderKeepsCluster(env, s, a); }
    else if RequestEnabled(s, a) { HandlerKeepsCluster(env, s, a); }
    else { OtherKeepsCluster(env, s, a); }
  }

  // ---------- replicas and resources ----------

  /** Every object applied since the start obeys the platform policy and asks for at least one replica. */
  ghost predicate PolicyInv(env: Env, start: map<string, D.SpinApp>, cluster: map<string, D.SpinApp>) {
    forall n :: n in cluster ==> D.Publishable(env.deploy, cluster[n]) || (n in start && cluster[n] == start[n])
  }

  lemma NextKeepsPolicy(env: Env, start: map<string, D.SpinApp>, s: State, a: Action)
    requires env.deploy.policy.mode == "max" ==> P.CapsParse(env.deploy.policy)
    requires PolicyInv(env, start, s.cluster)
    ensures PolicyInv(env, start, ClusterAfter(env, s, a))
  {
    if a.Step? && a.b in s.threads {
      D.DesiredIsPublishable(env.deploy, s.threads[a.b].app, Image(env, s.threads[a.b].app, a.b), 1);
    } else if RequestEnabled(s, a) {
      if a.PatchApply? { D.DesiredIsPublishable(env.deploy, s.requests[a.r].app, s.requests[a.r].image, 0); }
      if a.DeployApply? {
        D.DesiredIsPublishable(env.deploy, s.requests[a.r].app, s.requests[a.r].image, s.requests[a.r].replicas);
      }
    }
  }

  // ---------- metrics ----------

  function StartedSet(threads: map<string, Thread>): set<string> {
    set b | b in threads && Counted(threads[b].pc)
  }

  function FinishedSet(threads: map<string, Thread>, ok: bool): set<string> {
    set b | b in threads && threads[b].pc == Finished(ok)
  }

  /** Builds counted as started and not yet as finished. */
  function LiveSet(threads: map<string, Thread>): set<string> {
    set b | b in threads && Counted(threads[b].pc) && !threads[b].pc.Finished?
  }

  predicate DeployCounted(pc: Pc) {
    pc == CountFinish(true) || pc == Finished(true)
  }

  function DeployedSet(threads: map<string, Thread>): set<string> {
    set b | b in threads && DeployCounted(threads[b].pc)
  }

  function HandlerDeploys(requests: map<string, Request>): set<string> {
    set r | r in requests && requests[r] == Done(true)
  }

  ghost predicate CountersInv(threads: map<string, Thread>, requests: map<string, Request>, c: Counters) {
    && c.started == |StartedSet(threads)|
    && c.finishedOk == |FinishedSet(threads, true)|
    && c.finishedFailed == |FinishedSet(threads, false)|
    && c.deploysApplied == |DeployedSet(threads)| + |HandlerDeploys(requests)|
  }

  lemma StartedGrows(threads: map<string, Thread>, b: string, u: Thread)
    requires b in threads && (Counted(threads[b].pc) ==> Counted(u.pc))
    ensures |StartedSet(threads[b := u])| == |StartedSet(threads)| + if Counted(u.pc) && !Counted(threads[b].pc) then 1 else 0
  {
    var xs, ys := StartedSet(threads), StartedSet(threads[b := u]);
    if Counted(u.pc) && !Counted(threads[b].pc) { assert ys == xs + {b}; } else { assert ys == xs; }
  }

  lemma FinishedGrows(threads: map<string, Thread>, b: string, u: Thread, ok: bool)
    requires b in threads && !threads[b].pc.Finished?
    ensures |FinishedSet(threads[b := u], ok)| == |FinishedSet(threads, ok)| + if u.pc == Finished(ok) then 1 else 0
  {
    var xs, ys := FinishedSet(threads, ok), FinishedSet(threads[b := u], ok);
    if u.pc == Finished(ok) { assert ys == xs + {b}; } else { assert ys == xs; }
  }

  lemma DeployedGrows(threads: map<string, Thread>, b: string, u: Thread)
    requires b in threads && (DeployCounted(threads[b].pc) ==> DeployCounted(u.pc))
    ensures |DeployedSet(threads[b := u])| == |DeployedSet(threads)| + if DeployCounted(u.pc) && !DeployCounted(threads[b].pc) then 1 else 0
  {
    var xs, ys := DeployedSet(threads), DeployedSet(threads[b := u]);
    if DeployCounted(u.pc) && !DeployCounted(threads[b].pc) { assert ys == xs + {b}; } else { assert ys == xs; }
  }

  /** Each metric moves exactly when a thread crosses the point that counts it. */
  lemma StepCounts(clock: nat, inserted: bool, present: bool, job: JobStatus, t: Thread, m: Move)
    requires !t.pc.Finished?
    ensures var p := NextThread(clock, inserted, present, job, t, m).pc;
      && (Counted(p) <==> Counted(t.pc) || t.pc.CountStart?)
      && (p.Finished? <==> t.pc.CountFinish?) && (t.pc.CountFinish? ==> p.ok == t.pc.ok)
      && (DeployCounted(p) <==> DeployCounted(t.pc) || t.pc.CountDeploy?)
  {
    match t.pc
    case AwaitJob =>
    case Ship =>
    case CountFinish(_) =>
    case _ =>
  }

  lemma StepKeepsCounters(threads: map<string, Thread>, requests: map<string, Request>, c: Counters, b: string, u: Thread)
    requires CountersInv(threads, requests, c) && b in threads && !threads[b].pc.Finished?
    requires Counted(u.pc) <==> Counted(threads[b].pc) || threads[b].pc.CountStart?
    requires u.pc.Finished? <==> threads[b].pc.CountFinish?
    requires threads[b].pc.CountFinish? ==> u.pc.ok == threads[b].pc.ok
    requires DeployCounted(u.pc) <==> DeployCounted(threads[b].pc) || threads[b].pc.CountDeploy?
    ensures CountersInv(threads[b := u], requests, NextCounters(c, threads[b].pc))
  {
    StartedGrows(threads, b, u);
    FinishedGrows(threads, b, u, true);
    FinishedGrows(threads, b, u, false);
    DeployedGrows(threads, b, u);
  }

  lemma NewThreadKeepsCounters(threads: map<string, Thread>, requests: map<string, Request>, c: Counters, b: string, t: Thread)
    requires CountersInv(threads, requests, c) && b !in threads && t.pc.Prepare?
    ensures CountersInv(threads[b := t], requests, c)
  {
    assert StartedSet(threads[b := t]) == StartedSet(threads);
    assert FinishedSet(threads[b := t], true) == FinishedSet(threads, true);
    assert FinishedSet(threads[b := t], false) == FinishedSet(threads, false);
    assert DeployedSet(threads[b := t]) == DeployedSet(threads);
  }

  lemma HandlerDeploysGrow(requests: map<string, Request>, r: string, q: Request)
    requires r in requests ==> requests[r] != Done(true)
    ensures |HandlerDeploys(requests[r := q])| == |HandlerDeploys(requests)| + if q == Done(true) then 1 else 0
  {
    var xs, ys := HandlerDeploys(requests), HandlerDeploys(requests[r := q]);
    assert r !in xs && (r in ys <==> q == Done(true));
    assert forall k :: k in ys && k != r <==> k in xs;
    if q == Done(true) { assert ys == xs + {r}; } else { assert ys == xs; }
  }

  lemma RequestCounts(env: Env, s: State, a: Action)
    requires RequestEnabled(s, a)
    ensures a.r in s.requests ==> s.requests[a.r] != Done(true)
    ensures RequestNext(env, s, a) == Done(true) <==> a.CountDeployed?
  {
  }

  lemma RequestKeepsCounters(env: Env, s: State, a: Action)
    requires CountersInv(s.threads, s.requests, s.counters) && RequestEnabled(s, a)
    ensures CountersInv(s.threads, s.requests[a.r := RequestNext(env, s, a)], CountersAfter(s, a))
  {
    RequestCounts(env, s, a);
    HandlerDeploysGrow(s.requests, a.r, RequestNext(env, s, a));
  }

  lemma NextKeepsCounters(env: Env, s: State, a: Action)
    requires CountersInv(s.threads, s.requests, s.counters) && Enabled(env, s, a)
    ensures CountersInv(ThreadsAfter(env, s, a), RequestsAfter(env, s, a), CountersAfter(s, a))
  {
    if a.Step? {
      StepCounts(s.clock, Inserts(env, s, a.b), a.b in s.db.builds, JobOf(s, a.b), s.threads[a.b], a.m);
      StepKeepsCounters(s.threads, s.requests, s.counters, a.b, Stepped(env, s, a.b, a.m));
    } else if a.BeginBuild? {
      NewThreadKeepsCounters(s.threads, s.requests, s.counters, a.b, Begun(s, a.appId));
    } else if RequestEnabled(s, a) {
      RequestKeepsCounters(env, s, a);
    }
  }

  /** Builds started = builds finished, by outcome, + builds in flight. */
  lemma StartedEqualsFinishedPlusLive(threads: map<string, Thread>, requests: map<string, Request>, c: Counters)
    requires CountersInv(threads, requests, c)
    ensures c.started == c.finishedOk + c.finishedFailed + |LiveSet(threads)|
  {
    var ok, failed, live := FinishedSet(threads, true), FinishedSet(threads, false), LiveSet(threads);
    assert StartedSet(threads) == ok + failed + live;
    assert ok !! failed && (ok + failed) !! live;
  }
}
