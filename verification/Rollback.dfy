/**
  The image a SpinApp runs, and when it goes back to that of an older build: after each build, by PATCH requests that
  read and re-apply it, and by /deploy (internal/builder/builder.go, internal/httpapi/applications.go).
*/
module Rollback {
  import opened Wrappers
  import opened Store
  import opened Protocol
  import opened Builds
  import opened ClusterSafety
  import opened Theorems
  import opened Runs
  import opened Overlap
  import ImageRef

  // ---------- what puts an image on a SpinApp ----------

  function ImageOf(env: Env, s: State, b: string): string {
    if b in s.threads then Image(env, s.threads[b].app, b) else ""
  }

  /** A build ships this image, and the cluster takes it. */
  ghost predicate ShipsOn(env: Env, s: State, a: Action, name: string, image: string) {
    a.Step? && a.b in s.threads && s.threads[a.b].pc.Ship? && (a.m.err.None? || a.m.made)
    && s.threads[a.b].app.name == name && ImageOf(env, s, a.b) == image
  }

  ghost predicate HasRead(s: State, r: string, name: string, image: string) {
    r in s.requests && s.requests[r].PatchRead? && s.requests[r].app.name == name && s.requests[r].image == image
  }

  /** A PATCH applies the image it has read again, and the cluster takes it. */
  ghost predicate PatchesOn(s: State, a: Action, name: string, image: string) {
    a.PatchApply? && a.applied && HasRead(s, a.r, name, image)
  }

  ghost predicate HasPosted(s: State, r: string, name: string, image: string) {
    r in s.requests && s.requests[r].DeployLoaded? && s.requests[r].app.name == name && s.requests[r].image == image
  }

  /** A posted image is applied, and the cluster takes it. */
  ghost predicate PostsOn(s: State, a: Action, name: string, image: string) {
    a.DeployApply? && a.applied && HasPosted(s, a.r, name, image)
  }

  ghost predicate PutsOn(env: Env, s: State, a: Action, name: string, image: string) {
    ShipsOn(env, s, a, name, image) || PatchesOn(s, a, name, image) || PostsOn(s, a, name, image)
  }

  lemma PutsOnRuns(env: Env, s: State, a: Action, name: string, image: string)
    requires Enabled(env, s, a) && PutsOn(env, s, a, name, image)
    ensures name in ClusterAfter(env, s, a) && ClusterAfter(env, s, a)[name].image == image
  {
  }

  lemma RequestChanges(env: Env, s: State, a: Action, name: string, image: string)
    requires RequestEnabled(s, a) && !Ran(s, name, image)
    requires name in RequestCluster(env, s, a) && RequestCluster(env, s, a)[name].image == image
    ensures PatchesOn(s, a, name, image) || PostsOn(s, a, name, image)
  {
    if a.DeleteUndeploy? {
    }
  }

  lemma ChangedBy(env: Env, s: State, a: Action, name: string, image: string)
    requires Enabled(env, s, a) && !Ran(s, name, image)
    requires name in ClusterAfter(env, s, a) && ClusterAfter(env, s, a)[name].image == image
    ensures PutsOn(env, s, a, name, image)
  {
    if a.Step? {
    } else if RequestEnabled(s, a) {
      RequestLeavesThreads(env, s, a);
      RequestChanges(env, s, a, name, image);
    }
  }

  /** An image that does not run runs after the step exactly when the step puts it on. */
  lemma StartsAtIff(env: Env, ss: seq<State>, acts: seq<Action>, m: nat, name: string, image: string)
    requires Execution(env, ss, acts) && m < |acts|
    ensures PutsOn(env, ss[m], acts[m], name, image) ==> Ran(ss[m + 1], name, image)
    ensures !Ran(ss[m], name, image) && Ran(ss[m + 1], name, image) ==> PutsOn(env, ss[m], acts[m], name, image)
  {
    assert StepsAt(env, ss, acts, m);
    if PutsOn(env, ss[m], acts[m], name, image) {
      PutsOnRuns(env, ss[m], acts[m], name, image);
    } else if !Ran(ss[m], name, image) && Ran(ss[m + 1], name, image) {
      ChangedBy(env, ss[m], acts[m], name, image);
    }
  }

  /** Step `m` is the first since `i` to put the image on. */
  lemma FirstStart(env: Env, ss: seq<State>, acts: seq<Action>, i: nat, n: nat, name: string, image: string) returns (m: nat)
    requires Execution(env, ss, acts) && i < n < |ss| && !Ran(ss[i], name, image) && Ran(ss[n], name, image)
    ensures i <= m < n && m < |acts| && PutsOn(env, ss[m], acts[m], name, image)
    ensures forall l :: i <= l <= m ==> !Ran(ss[l], name, image)
  {
    m := BeginsBetween(ss, s => Ran(s, name, image), i, n);
    StartsAtIff(env, ss, acts, m, name, image);
  }

  // ---------- where a PATCH and a post have their image from ----------

  /** At step `k` the PATCH reads this image from the cluster. */
  ghost predicate Reads(ss: seq<State>, acts: seq<Action>, k: nat, r: string, name: string, image: string) {
    k < |acts| && k < |ss| && acts[k] == PatchGet(r, false) && Ran(ss[k], name, image)
  }

  lemma ReadBy(env: Env, s: State, a: Action, r: string, name: string, image: string)
    requires Enabled(env, s, a) && r in RequestsAfter(env, s, a) && RequestsAfter(env, s, a)[r].PatchRead?
    requires RequestsAfter(env, s, a)[r].app.name == name && RequestsAfter(env, s, a)[r].image == image
    ensures HasRead(s, r, name, image) || (a == PatchGet(r, false) && Ran(s, name, image))
  {
  }

  lemma ReadAt(env: Env, ss: seq<State>, acts: seq<Action>, i: nat, r: string, name: string, image: string)
    requires Execution(env, ss, acts) && i < |acts| && HasRead(ss[i + 1], r, name, image)
    ensures HasRead(ss[i], r, name, image) || Reads(ss, acts, i, r, name, image)
  {
    assert StepsAt(env, ss, acts, i);
    ReadBy(env, ss[i], acts[i], r, name, image);
  }

  lemma StartsWithoutRequests(env: Env, ss: seq<State>, acts: seq<Action>)
    requires Execution(env, ss, acts)
    ensures ss[0].requests == map[]
  {
  }

  lemma WasRead(env: Env, ss: seq<State>, acts: seq<Action>, i: nat, r: string, name: string, image: string) returns (k: nat)
    requires Execution(env, ss, acts) && i < |ss| && HasRead(ss[i], r, name, image)
    ensures k < i && Reads(ss, acts, k, r, name, image)
  {
    StartsWithoutRequests(env, ss, acts);
    k := HoldsSince(ss, s => HasRead(s, r, name, image), i);
    ReadAt(env, ss, acts, k, r, name, image);
  }

  lemma PostedAt(env: Env, ss: seq<State>, acts: seq<Action>, i: nat, r: string, name: string, image: string)
    requires Execution(env, ss, acts) && i < |acts| && HasPosted(ss[i + 1], r, name, image)
    ensures HasPosted(ss[i], r, name, image) || Posts(ss, acts, i, name, image)
  {
    assert StepsAt(env, ss, acts, i);
  }

  lemma WasPosted(env: Env, ss: seq<State>, acts: seq<Action>, i: nat, r: string, name: string, image: string) returns (k: nat)
    requires Execution(env, ss, acts) && i < |ss| && HasPosted(ss[i], r, name, image)
    ensures k < i && Posts(ss, acts, k, name, image)
  {
    StartsWithoutRequests(env, ss, acts);
    k := HoldsSince(ss, s => HasPosted(s, r, name, image), i);
    PostedAt(env, ss, acts, k, r, name, image);
  }

  // ---------- exactly when a SpinApp goes back to an older build ----------

  ghost predicate HasStamp(threads: map<string, Thread>, b: string, name: string) {
    b in threads && threads[b].app.name == name && !threads[b].pc.Prepare?
  }

  /** A build of this name that has taken its stamp. */
  ghost predicate Stamped(s: State, b: string, name: string) {
    HasStamp(s.threads, b, name)
  }

  lemma ImagesDiffer(env: Env, s: State, b: string, c: string)
    requires Inv(env, s) && b in s.threads && c in s.threads && s.threads[b].app.name == s.threads[c].app.name
    ensures ImageOf(env, s, b) == ImageOf(env, s, c) ==> b == c
  {
    var name := s.threads[b].app.name;
    assert s.usedApps[s.threads[b].app.id].name == name;
    if ImageOf(env, s, b) == ImageOf(env, s, c) { ImageRef.PrintIsInjective(env.registry, name, b, name, c); }
  }

  lemma ImageNamesOne(env: Env, ss: seq<State>, acts: seq<Action>, i: nat, b: string, c: string)
    requires Execution(env, ss, acts) && i < |ss| && b in ss[i].threads && c in ss[i].threads
    requires ss[i].threads[b].app.name == ss[i].threads[c].app.name && ImageOf(env, ss[i], b) == ImageOf(env, ss[i], c)
    ensures b == c
  {
    InvHolds(env, ss, acts, i);
    ImagesDiffer(env, ss[i], b, c);
  }

  lemma ImageStays(env: Env, ss: seq<State>, acts: seq<Action>, i: nat, j: nat, b: string)
    requires Execution(env, ss, acts) && i <= j < |ss| && b in ss[i].threads
    ensures b in ss[j].threads && ss[j].threads[b].app == ss[i].threads[b].app && ImageOf(env, ss[j], b) == ImageOf(env, ss[i], b)
  {
    GrowsOver(env, ss, acts, i, j, b);
  }

  /** At `i` the SpinApp runs the image of build `c`, and at some later point up to `j` that of `b`, which was started earlier. */
  ghost predicate GoesBack(env: Env, ss: seq<State>, i: nat, j: nat, name: string, b: string, c: string)
    requires i < |ss|
  {
    RunsOlder(env, ss[i], name, b, c) && exists n :: i < n <= j && n < |ss| && Ran(ss[n], name, ImageOf(env, ss[i], b))
  }

  ghost predicate RunsOlder(env: Env, s: State, name: string, b: string, c: string) {
    Stamped(s, b, name) && Stamped(s, c, name) && s.threads[b].createdAt < s.threads[c].createdAt && Ran(s, name, ImageOf(env, s, c))
  }

  /** The PATCH by `r` read the image before point `i` and applies it again at step `m`. */
  ghost predicate PatchFromBefore(ss: seq<State>, acts: seq<Action>, k: nat, i: nat, m: nat, r: string, name: string, image: string) {
    k < i <= m < |acts| && m < |ss| && Reads(ss, acts, k, r, name, image)
    && PatchesOn(ss[m], acts[m], name, image) && acts[m].r == r
  }

  /** The image was posted to /deploy at step `k` and is applied at step `m`. */
  ghost predicate PostTakes(ss: seq<State>, acts: seq<Action>, k: nat, m: nat, name: string, image: string) {
    k < m < |acts| && m < |ss| && Posts(ss, acts, k, name, image) && PostsOn(ss[m], acts[m], name, image)
  }

  /** Step `m` undoes the deploy that runs at `i`: build `b` ships, or its image comes from an old read or from a post. */
  ghost predicate Undoes(env: Env, ss: seq<State>, acts: seq<Action>, i: nat, m: nat, name: string, b: string, image: string)
    requires m < |acts| && m < |ss|
  {
    || (acts[m].Step? && acts[m].b == b && ShipsOn(env, ss[m], acts[m], name, image))
    || (exists k, r :: PatchFromBefore(ss, acts, k, i, m, r, name, image))
    || (exists k :: PostTakes(ss, acts, k, m, name, image))
  }

  lemma ShipperIs(env: Env, ss: seq<State>, acts: seq<Action>, i: nat, m: nat, name: string, b: string)
    requires Execution(env, ss, acts) && i <= m < |acts| && b in ss[i].threads && ss[i].threads[b].app.name == name
    requires ShipsOn(env, ss[m], acts[m], name, ImageOf(env, ss[i], b))
    ensures acts[m].b == b
  {
    ImageStays(env, ss, acts, i, m, b);
    ImageNamesOne(env, ss, acts, m, b, acts[m].b);
  }

  lemma FirstStartUndoes(env: Env, ss: seq<State>, acts: seq<Action>, i: nat, m: nat, name: string, b: string)
    requires Execution(env, ss, acts) && i <= m < |acts| && b in ss[i].threads && ss[i].threads[b].app.name == name
    requires PutsOn(env, ss[m], acts[m], name, ImageOf(env, ss[i], b))
    requires forall l :: i <= l <= m ==> !Ran(ss[l], name, ImageOf(env, ss[i], b))
    ensures Undoes(env, ss, acts, i, m, name, b, ImageOf(env, ss[i], b))
  {
    var image := ImageOf(env, ss[i], b);
    if ShipsOn(env, ss[m], acts[m], name, image) {
      ShipperIs(env, ss, acts, i, m, name, b);
    } else if PatchesOn(ss[m], acts[m], name, image) {
      var k := WasRead(env, ss, acts, m, acts[m].r, name, image);
      assert PatchFromBefore(ss, acts, k, i, m, acts[m].r, name, image);
    } else {
      var k := WasPosted(env, ss, acts, m, acts[m].r, name, image);
      assert PostTakes(ss, acts, k, m, name, image);
    }
  }

  /**
    Between any two points of a run: a SpinApp that runs a build goes back to an earlier one exactly when, in between, the
    earlier build ships, or a PATCH applies that had read the earlier image before, or that image is posted and applied.
  */
  lemma GoesBackIff(env: Env, ss: seq<State>, acts: seq<Action>, i: nat, j: nat, name: string, b: string, c: string)
    requires Execution(env, ss, acts) && i <= j < |ss| && RunsOlder(env, ss[i], name, b, c)
    ensures GoesBack(env, ss, i, j, name, b, c)
      <==> exists m :: i <= m < j && Undoes(env, ss, acts, i, m, name, b, ImageOf(env, ss[i], b))
  {
    var image := ImageOf(env, ss[i], b);
    if Ran(ss[i], name, image) { ImageNamesOne(env, ss, acts, i, b, c); }
    if GoesBack(env, ss, i, j, name, b, c) {
      var n :| i < n <= j && Ran(ss[n], name, image);
      var m := FirstStart(env, ss, acts, i, n, name, image);
      FirstStartUndoes(env, ss, acts, i, m, name, b);
    }
    if m :| i <= m < j && Undoes(env, ss, acts, i, m, name, b, image) {
      StartsAtIff(env, ss, acts, m, name, image);
      assert Ran(ss[m + 1], name, image);
    }
  }

  // ---------- what a caller can do about it ----------

  /** The build has begun and not ended. */
  predicate Busy(pc: Pc) {
    !pc.LeftBehind? && !pc.Rejected? && !pc.Aborted? && !pc.Finished?
  }

  ghost predicate BusyFor(threads: map<string, Thread>, b: string, name: string) {
    b in threads && threads[b].app.name == name && Busy(threads[b].pc)
  }

  /** No two builds of applications of this name are under way. */
  ghost predicate OneAtATime(s: State, name: string) {
    forall b, c :: BusyFor(s.threads, b, name) && BusyFor(s.threads, c, name) ==> b == c
  }

  /** A PATCH reads the image at step `k` and is about to apply it at step `m`. */
  ghost predicate PatchSpans(ss: seq<State>, acts: seq<Action>, k: nat, m: nat, r: string, name: string, image: string) {
    k < m < |acts| && m < |ss| && Reads(ss, acts, k, r, name, image) && acts[m].PatchApply? && acts[m].r == r
    && HasRead(ss[m], r, name, image)
  }

  /** What a PATCH of this name reads runs until it is applied again. */
  ghost predicate PatchesUndisturbed(ss: seq<State>, acts: seq<Action>, name: string) {
    forall k, m, r, image :: PatchSpans(ss, acts, k, m, r, name, image) ==> forall l :: k <= l <= m ==> Ran(ss[l], name, image)
  }

  /** The image of build `b` was posted and is applied. */
  ghost predicate PostsBuild(env: Env, s: State, a: Action, name: string, b: string) {
    Stamped(s, b, name) && PostsOn(s, a, name, ImageOf(env, s, b))
  }

  /** No build is newer than this one. */
  ghost predicate Newest(s: State, name: string, b: string)
    requires b in s.threads
  {
    forall c :: Stamped(s, c, name) ==> s.threads[c].createdAt <= s.threads[b].createdAt
  }

  /** The images of builds that are posted are those of the newest, when they are applied. */
  ghost predicate PostsNewest(env: Env, ss: seq<State>, acts: seq<Action>, name: string) {
    forall m: nat, b :: m < |acts| && m < |ss| && PostsBuild(env, ss[m], acts[m], name, b) ==> Newest(ss[m], name, b)
  }

  /** A build that is under way is the newest of its name. */
  ghost predicate BusyIsNewest(threads: map<string, Thread>, name: string) {
    forall b, c :: BusyFor(threads, b, name) && HasStamp(threads, b, name) && HasStamp(threads, c, name) ==>
      threads[c].createdAt <= threads[b].createdAt
  }

  /** A stamp is taken by the step of a build that is under way, and it is the time of that step. */
  lemma StampTaken(env: Env, s: State, a: Action, b: string)
    requires Enabled(env, s, a) && b in ThreadsAfter(env, s, a) && !ThreadsAfter(env, s, a)[b].pc.Prepare?
    ensures b in s.threads && ThreadsAfter(env, s, a)[b].app == s.threads[b].app
    ensures s.threads[b].pc.Prepare? ==> a.Step? && a.b == b && ThreadsAfter(env, s, a)[b].createdAt == s.clock
    ensures !s.threads[b].pc.Prepare? ==> ThreadsAfter(env, s, a)[b].createdAt == s.threads[b].createdAt
    ensures Busy(ThreadsAfter(env, s, a)[b].pc) ==> Busy(s.threads[b].pc)
  {
    if a.Step? && a.b == b {
      StampOf(s.clock, Inserts(env, s, b), b in s.db.builds, JobOf(s, b), s.threads[b], a.m);
      StepKeepsApp(s.clock, Inserts(env, s, b), b in s.db.builds, JobOf(s, b), s.threads[b], a.m);
    } else {
      OthersKeepThread(env, s, a, b);
    }
  }

  lemma StampOf(clock: nat, inserted: bool, present: bool, job: JobStatus, t: Thread, m: Move)
    ensures NextThread(clock, inserted, present, job, t, m).createdAt == if t.pc.Prepare? then clock else t.createdAt
    ensures !Busy(t.pc) ==> NextThread(clock, inserted, present, job, t, m) == t
  {
    if Starts(t.pc) {
    } else if t.pc.AwaitJob? {
    }
  }

  lemma OthersKeepThread(env: Env, s: State, a: Action, b: string)
    requires b in ThreadsAfter(env, s, a) && !ThreadsAfter(env, s, a)[b].pc.Prepare? && !(a.Step? && a.b == b)
    ensures b in s.threads && ThreadsAfter(env, s, a)[b] == s.threads[b]
  {
  }

  lemma StepKeepsBusyNewest(env: Env, s: State, a: Action, name: string)
    requires ThreadsOk(s.clock, s.usedApps, s.threads) && Enabled(env, s, a) && OneAtATime(s, name)
    requires BusyIsNewest(s.threads, name)
    ensures BusyIsNewest(ThreadsAfter(env, s, a), name)
  {
    var after := ThreadsAfter(env, s, a);
    forall b, c | BusyFor(after, b, name) && HasStamp(after, b, name) && HasStamp(after, c, name)
      ensures after[c].createdAt <= after[b].createdAt
    {
      StampTaken(env, s, a, b);
      StampTaken(env, s, a, c);
      assert ThreadOk(s.clock, s.threads[c]);
      if s.threads[c].pc.Prepare? {
        assert BusyFor(s.threads, c, name) && BusyFor(s.threads, b, name);
      } else if !s.threads[b].pc.Prepare? {
        assert BusyFor(s.threads, b, name) && HasStamp(s.threads, b, name) && HasStamp(s.threads, c, name);
      }
    }
  }

  lemma BusyNewestAt(env: Env, ss: seq<State>, acts: seq<Action>, k: nat, name: string)
    requires Execution(env, ss, acts) && k < |acts| && OneAtATime(ss[k], name) && BusyIsNewest(ss[k].threads, name)
    ensures BusyIsNewest(ss[k + 1].threads, name)
  {
    InvHolds(env, ss, acts, k);
    assert StepsAt(env, ss, acts, k);
    StepKeepsBusyNewest(env, ss[k], acts[k], name);
  }

  lemma StartsIdle(env: Env, ss: seq<State>, acts: seq<Action>, name: string)
    requires Execution(env, ss, acts)
    ensures BusyIsNewest(ss[0].threads, name)
  {
    assert forall b :: b in ss[0].threads ==> ss[0].threads[b].pc.LeftBehind?;
  }

  lemma BusyNewestHolds(env: Env, ss: seq<State>, acts: seq<Action>, m: nat, name: string)
    requires Execution(env, ss, acts) && m < |ss| && forall k :: 0 <= k < |ss| ==> OneAtATime(ss[k], name)
    ensures BusyIsNewest(ss[m].threads, name)
  {
    StartsIdle(env, ss, acts, name);
    forall k | 0 <= k < m && BusyIsNewest(ss[k].threads, name)
      ensures BusyIsNewest(ss[k + 1].threads, name)
    {
      BusyNewestAt(env, ss, acts, k, name);
    }
    KeptAlong(ss, (s: State) => BusyIsNewest(s.threads, name), m);
  }

  /** A stamp that was not there at the first point was taken since. */
  ghost predicate TakenSince(s: State, t: State) {
    s.clock <= t.clock && forall b :: b in t.threads && !t.threads[b].pc.Prepare? ==>
      s.clock <= t.threads[b].createdAt || (b in s.threads && !s.threads[b].pc.Prepare?)
  }

  lemma TakenSinceAt(env: Env, s: State, t: State, a: Action)
    requires TakenSince(s, t) && Enabled(env, t, a)
    ensures TakenSince(s, Next(env, t, a))
  {
    forall b | b in ThreadsAfter(env, t, a) && !ThreadsAfter(env, t, a)[b].pc.Prepare?
      ensures s.clock <= ThreadsAfter(env, t, a)[b].createdAt || (b in s.threads && !s.threads[b].pc.Prepare?)
    {
      StampTaken(env, t, a, b);
    }
  }

  lemma {:induction false} TakenSinceHolds(env: Env, ss: seq<State>, acts: seq<Action>, i: nat, j: nat)
    requires Execution(env, ss, acts) && i <= j < |ss|
    ensures TakenSince(ss[i], ss[j])
  {
    if i < j {
      TakenSinceHolds(env, ss, acts, i, j - 1);
      assert StepsAt(env, ss, acts, j - 1);
      TakenSinceAt(env, ss[i], ss[j - 1], acts[j - 1]);
    }
  }

  /** The three rules, along the whole run. */
  ghost predicate Careful(env: Env, ss: seq<State>, acts: seq<Action>, name: string) {
    (forall k :: 0 <= k < |ss| ==> OneAtATime(ss[k], name)) && PatchesUndisturbed(ss, acts, name) && PostsNewest(env, ss, acts, name)
  }

  lemma NothingUndoes(env: Env, ss: seq<State>, acts: seq<Action>, i: nat, m: nat, name: string, b: string, c: string)
    requires Execution(env, ss, acts) && i <= m < |acts| && Careful(env, ss, acts, name) && RunsOlder(env, ss[i], name, b, c)
    ensures !Undoes(env, ss, acts, i, m, name, b, ImageOf(env, ss[i], b))
  {
    var image := ImageOf(env, ss[i], b);
    ImageStays(env, ss, acts, i, m, b);
    GrowsOver(env, ss, acts, i, m, b);
    GrowsOver(env, ss, acts, i, m, c);
    if acts[m].Step? && acts[m].b == b && ShipsOn(env, ss[m], acts[m], name, image) {
      BusyNewestHolds(env, ss, acts, m, name);
      assert BusyFor(ss[m].threads, b, name) && HasStamp(ss[m].threads, b, name) && HasStamp(ss[m].threads, c, name);
    } else if k, r :| PatchFromBefore(ss, acts, k, i, m, r, name, image) {
      assert PatchSpans(ss, acts, k, m, r, name, image);
      assert Ran(ss[i], name, image);
      ImageNamesOne(env, ss, acts, i, b, c);
    } else if k :| PostTakes(ss, acts, k, m, name, image) {
      assert PostsBuild(env, ss[m], acts[m], name, b);
      assert Stamped(ss[m], c, name);
    }
  }

  /**
    If the builds of a name are run one at a time, nothing is deployed between the read and the apply of a PATCH, and
    no image of a build older than another one is posted, then between any two points of a run its SpinApp never goes
    from running a build to running one that was started earlier.
  */
  lemma NeverGoesBack(env: Env, ss: seq<State>, acts: seq<Action>, i: nat, j: nat, name: string, b: string, c: string)
    requires Execution(env, ss, acts) && i <= j < |ss| && Careful(env, ss, acts, name)
    requires Stamped(ss[i], c, name) && Ran(ss[i], name, ImageOf(env, ss[i], c))
    requires Stamped(ss[j], b, name) && Ran(ss[j], name, ImageOf(env, ss[j], b))
    ensures ss[i].threads[c].createdAt <= ss[j].threads[b].createdAt
  {
    TakenSinceHolds(env, ss, acts, i, j);
    StampInTime(env, ss, acts, i, c);
    if Stamped(ss[i], b, name) {
      StaysOlder(env, ss, acts, i, j, name, b, c);
    } else if b in ss[i].threads {
      ImageStays(env, ss, acts, i, j, b);
    }
  }

  lemma StampInTime(env: Env, ss: seq<State>, acts: seq<Action>, i: nat, c: string)
    requires Execution(env, ss, acts) && i < |ss| && c in ss[i].threads && !ss[i].threads[c].pc.Prepare?
    ensures ss[i].threads[c].createdAt <= ss[i].clock
  {
    InvHolds(env, ss, acts, i);
    assert ThreadOk(ss[i].clock, ss[i].threads[c]);
  }

  lemma StaysOlder(env: Env, ss: seq<State>, acts: seq<Action>, i: nat, j: nat, name: string, b: string, c: string)
    requires Execution(env, ss, acts) && i <= j < |ss| && Careful(env, ss, acts, name)
    requires Stamped(ss[i], b, name) && Stamped(ss[i], c, name) && Ran(ss[i], name, ImageOf(env, ss[i], c))
    requires b in ss[j].threads && Ran(ss[j], name, ImageOf(env, ss[j], b))
    ensures ss[i].threads[c].createdAt <= ss[j].threads[b].createdAt
  {
    GrowsOver(env, ss, acts, i, j, b);
    ImageStays(env, ss, acts, i, j, b);
    if ss[i].threads[b].createdAt < ss[i].threads[c].createdAt {
      if i == j { ImageNamesOne(env, ss, acts, i, b, c); }
      assert GoesBack(env, ss, i, j, name, b, c);
      GoesBackIff(env, ss, acts, i, j, name, b, c);
      var m :| i <= m < j && Undoes(env, ss, acts, i, m, name, b, ImageOf(env, ss[i], b));
      NothingUndoes(env, ss, acts, i, m, name, b, c);
      assert false;
    }
  }

  // ---------- and overlapping builds do go back ----------

  lemma JobSucceeds(env: Env, s: State, b: string) returns (t: State)
    requires b in s.jobs
    ensures Leads(env, s, t) && t.jobs == s.jobs[b := JobStatus(1, 0, "")]
    ensures t.threads == s.threads && t.db == s.db && t.cluster == s.cluster
  {
    LeadsToItself(env, s);
    LeadsByStep(env, s, s, JobMoves(b, JobStatus(1, 0, "")));
    t := Next(env, s, JobMoves(b, JobStatus(1, 0, "")));
  }

  /** The Job succeeds and the build is about to ship. */
  lemma RunsToShip(env: Env, s: State, b: string) returns (t: State)
    requires b in s.threads && s.threads[b].pc.AwaitJob? && b in s.jobs && s.threads[b].app.runtime != WorkerPool
    ensures Leads(env, s, t) && t.cluster == s.cluster
    ensures b in t.threads && t.threads[b].pc.Ship? && t.threads[b].app == s.threads[b].app && t.threads[b].createdAt == s.threads[b].createdAt
    ensures forall c :: c in s.threads && c != b ==> c in t.threads && t.threads[c] == s.threads[c]
    ensures forall c :: c in s.jobs && c != b ==> c in t.jobs
  {
    var s1 := JobSucceeds(env, s, b);
    var s2 := Moves1(env, s1, b);
    assert s2.threads[b].pc.SaveSize?;
    LeadsOn(env, s, s1, s2);
    t := Moves1(env, s2, b);
    LeadsOn(env, s, s2, t);
    assert forall c :: c in s.jobs && c != b ==> c in s1.jobs - {b} && c in s2.jobs - {b} && c in t.jobs - {b};
  }

  lemma Ships1(env: Env, s: State, b: string) returns (t: State)
    requires b in s.threads && s.threads[b].pc.Ship?
    ensures Leads(env, s, t) && Ran(t, s.threads[b].app.name, ImageOf(env, s, b))
    ensures forall c :: c in s.threads && c != b ==> c in t.threads && t.threads[c] == s.threads[c]
    ensures b in t.threads && t.threads[b].app == s.threads[b].app && t.threads[b].createdAt == s.threads[b].createdAt
    ensures !t.threads[b].pc.Prepare?
  {
    t := Moves1(env, s, b);
  }

  /** Some steps lead the SpinApp from the image of `c` to that of the earlier `b`. */
  ghost predicate LeadsBack(env: Env, s: State, t: State, name: string, b: string, c: string) {
    Leads(env, s, t) && RunsOlder(env, s, name, b, c) && Ran(t, name, ImageOf(env, s, b))
  }

  /**
    From every point of a run, a live spinkube application can be brought to roll back: the later of two overlapping
    builds ships, and then the earlier one.
  */
  lemma OverlapCanRollBack(env: Env, ss: seq<State>, acts: seq<Action>, appId: string, b: string, c: string)
    requires Execution(env, ss, acts) && HasApplication(ss[|acts|].db, appId) && ss[|acts|].db.applications[appId].runtime != WorkerPool
    requires b != c && b !in ss[|acts|].threads && c !in ss[|acts|].threads && ImageRef.BuildId(b) && ImageRef.BuildId(c)
    ensures exists t, u :: GoesOnTo(env, ss, acts, t) && LeadsBack(env, t, u, ss[|acts|].db.applications[appId].name, b, c)
  {
    var s, name := ss[|acts|], ss[|acts|].db.applications[appId].name;
    FreeInRun(env, ss, acts, appId, b);
    FreeInRun(env, ss, acts, appId, c);
    var s1 := BothGetJobs(env, s, appId, b, c);
    var s2 := RunsToShip(env, s1, b);
    var s3 := RunsToShip(env, s2, c);
    var t := Ships1(env, s3, c);
    LeadsOn(env, s, s1, s2);
    LeadsOn(env, s, s2, s3);
    LeadsOn(env, s, s3, t);
    RunGoesOn(env, ss, acts, t);
    var u := Ships1(env, t, b);
    assert LeadsBack(env, t, u, name, b, c);
  }
}
