/** The worker-config feed and the worker's table: where every served image comes from, and in what order. */
module WorkerSafety {
  import opened Wrappers
  import opened Store
  import opened Loader
  import opened Router
  import opened Protocol
  import opened Builds

  // ---------- one list query ----------

  /** The first succeeded build of a list answer is the newest succeeded build of the application. */
  lemma NewestOfList(db: Db, applicationID: string, limit: nat, out: seq<Build>)
    requires IsBuildList(db, applicationID, limit, out) && FirstSucceeded(out).Some?
    ensures var x := FirstSucceeded(out).value;
      && x.id in BuildsOf(db, applicationID) && db.builds[x.id] == x && x.status == Succeeded
      && forall c :: c in BuildsOf(db, applicationID) && db.builds[c].status == Succeeded ==> db.builds[c].createdAt <= x.createdAt
  {
    var x := FirstSucceeded(out).value;
    var i :| 0 <= i < |out| && out[i] == x && IsFirstSucceeded(out, i);
    forall c | c in BuildsOf(db, applicationID) && db.builds[c].status == Succeeded
      ensures db.builds[c].createdAt <= x.createdAt
    {
      NoneIsNewer(db, applicationID, limit, out, i, c);
    }
  }

  lemma NoneIsNewer(db: Db, applicationID: string, limit: nat, out: seq<Build>, i: nat, c: string)
    requires IsBuildList(db, applicationID, limit, out) && IsFirstSucceeded(out, i)
    requires c in BuildsOf(db, applicationID) && db.builds[c].status == Succeeded
    ensures db.builds[c].createdAt <= out[i].createdAt
  {
    if j :| 0 <= j < |out| && out[j].id == c {
      assert i <= j;
    } else {
      assert forall j :: 0 <= j < |out| ==> out[j].id != c;
    }
  }

  // ---------- applications that share a name over time ----------

  /** A build with a row, of another application of this name. */
  predicate Earlier(t: Thread, id: string, name: string) {
    HasRow(t.pc) && t.app.name == name && t.app.id != id
  }

  /** Builds of an earlier application of the same name are no newer than a live one. */
  ghost predicate FreshInv(apps: map<string, Application>, threads: map<string, Thread>) {
    forall id, b :: id in apps && b in threads && Earlier(threads[b], id, apps[id].name) ==>
      threads[b].createdAt <= apps[id].createdAt
  }

  lemma NextKeepsFresh(env: Env, s: State, a: Action)
    requires BuildsInv(env, s) && Enabled(env, s, a) && FreshInv(s.db.applications, s.threads)
    ensures FreshInv(DbAfter(env, s, a).applications, ThreadsAfter(env, s, a))
  {
    if a.Step? {
      StepKeepsFresh(env, s, a.b, a.m);
    } else if a.BeginBuild? {
    } else if RequestEnabled(s, a) {
      if a.CreateApp? {
        CreationKeepsFresh(env, s, a.app);
      } else {
        RequestSubset(env, s, a);
        SubsetKeepsFresh(s.db.applications, RequestDb(env, s, a).applications, s.threads);
      }
    }
  }

  lemma SubsetKeepsFresh(apps: map<string, Application>, apps': map<string, Application>, threads: map<string, Thread>)
    requires FreshInv(apps, threads)
    requires KeepsIdentity(apps, apps')
    ensures FreshInv(apps', threads)
  {
  }

  lemma CreationKeepsFresh(env: Env, s: State, app: Application)
    requires FreshInv(s.db.applications, s.threads) && ThreadsOk(s.clock, s.usedApps, s.threads)
    requires app.createdAt == 0 && InsertApplication(s.db, app, s.clock).Ok?
    ensures FreshInv(InsertApplication(s.db, app, s.clock).value.applications, s.threads)
  {
    forall b | b in s.threads && HasRow(s.threads[b].pc)
      ensures s.threads[b].createdAt <= s.clock
    {
      assert ThreadOk(s.clock, s.threads[b]);
    }
  }

  /** A row can only be created for a live application, and no other live one has its name. */
  lemma StepKeepsFresh(env: Env, s: State, b: string, m: Move)
    requires BuildsInv(env, s) && StepEnabled(s, b, m) && FreshInv(s.db.applications, s.threads)
    ensures FreshInv(NextDb(env, s.clock, s.db, b, s.threads[b], m).applications, s.threads[b := Stepped(env, s, b, m)])
  {
    var t, u := s.threads[b], Stepped(env, s, b, m);
    StepTouchesOneRow(env, s.clock, s.db, b, t, m);
    StepGrows(s.clock, Inserts(env, s, b), b in s.db.builds, JobOf(s, b), t, m);
    StepRowOrigin(s.clock, Inserts(env, s, b), b in s.db.builds, JobOf(s, b), t, m);
    if HasRow(u.pc) && !HasRow(t.pc) {
      forall id | id in s.db.applications && t.app.id != id
        ensures t.app.name != s.db.applications[id].name
      {
        assert t.app.id in s.db.applications;
        assert !SameName(s.db.applications[t.app.id], s.db.applications[id]);
      }
    }
  }

  lemma StepRowOrigin(clock: nat, inserted: bool, present: bool, job: JobStatus, t: Thread, m: Move)
    ensures HasRow(NextThread(clock, inserted, present, job, t, m).pc) && !HasRow(t.pc) ==> inserted
  {
  }

  // ---------- the feed ----------

  /** The image was published by `b`: a build of a workerpool application of that name whose "succeeded" reached its row. */
  ghost predicate FromBuild(env: Env, threads: map<string, Thread>, name: string, image: string, b: string) {
    b in threads && threads[b].landed && threads[b].app.runtime == WorkerPool
    && threads[b].app.name == name && Image(env, threads[b].app, b) == image
  }

  /** Serving `b` next under this name does not go back in time. */
  ghost predicate NotOlder(threads: map<string, Thread>, served: map<string, string>, name: string, b: string) {
    name in served ==> served[name] in threads && b in threads && threads[served[name]].createdAt <= threads[b].createdAt
  }

  ghost predicate FeedInv(env: Env, threads: map<string, Thread>, served: map<string, string>, feed: seq<Feed>, from: nat) {
    && (forall i :: 0 <= i < |feed| ==> FromBuild(env, threads, feed[i].name, feed[i].imageRef, feed[i].build))
    && (forall i, j :: 0 <= i < j < |feed| ==> feed[i].name != feed[j].name)
    && (forall i :: from <= i < |feed| ==> NotOlder(threads, served, feed[i].name, feed[i].build))
  }

  ghost predicate ListingInv(used: map<string, Identity>, apps: seq<Application>, k: nat, feed: seq<Feed>) {
    && k <= |apps|
    && (forall i :: 0 <= i < |apps| ==> apps[i].id in used && used[apps[i].id] == IdentityOf(apps[i]))
    && (forall i, j :: 0 <= i < j < |apps| ==> apps[i].name != apps[j].name)
    && (forall j :: 0 <= j < |feed| ==> NamedIn(apps[..k], feed[j].name))
  }

  ghost predicate NamedIn(apps: seq<Application>, name: string) {
    exists i :: 0 <= i < |apps| && apps[i].name == name
  }

  /** Inside `sync` the table is exactly what the rounds so far make of the table at its start. */
  ghost predicate PollInv(env: Env, used: map<string, Identity>, threads: map<string, Thread>, table: Table,
                          served: map<string, string>, p: Poll) {
    match p
    case Idle => true
    case Listing(apps, k, feed) => ListingInv(used, apps, k, feed) && FeedInv(env, threads, served, feed, 0)
    case Adding(feed, start, os) => |os| <= |feed| && Rounds(table, feed, start, os) && FeedInv(env, threads, served, feed, |os|)
    case Pulling(feed, start, os) =>
      |os| < |feed| && Rounds(table, feed, start, os) && FeedInv(env, threads, served, feed, |os|)
      && !Unchanged(table, Wants(feed)[|os|])
    case Inserting(feed, start, os, o) =>
      |os| < |feed| && Rounds(table, feed, start, os) && FeedInv(env, threads, served, feed, |os|)
      && !Unchanged(table, Wants(feed)[|os|]) && LoadCurrent(p, o).Ok?
    case Removing(feed, start, os, names) =>
      |os| == |feed| && Rounds(table, feed, start, os) && FeedInv(env, threads, served, feed, |os|)
      && names == Unwanted(table, feed)
  }

  ghost predicate Rounds(table: Table, feed: seq<Feed>, start: Table, os: seq<Outside>)
    requires |os| <= |feed|
  {
    table == SyncAll(start, Wants(feed)[..|os|], os)
  }

  ghost predicate TableInv(env: Env, threads: map<string, Thread>, table: Table, served: map<string, string>) {
    && (forall n :: n in served ==> served[n] in threads && threads[served[n]].landed && threads[served[n]].app.name == n)
    && (forall n :: n in table ==> n in served && Whole(table[n]) && table[n].app.name == n)
    && (forall n :: n in table ==> FromBuild(env, threads, n, table[n].app.imageRef, served[n]))
  }

  // ---------- growth of threads is harmless ----------

  lemma FromBuildGrows(env: Env, threads: map<string, Thread>, threads': map<string, Thread>, name: string, image: string, b: string)
    requires Grows(threads, threads') && FromBuild(env, threads, name, image, b)
    ensures FromBuild(env, threads', name, image, b)
  {
    assert ThreadGrows(threads[b], threads'[b]);
  }

  lemma LandedKeepsStamp(clock: nat, used: map<string, Identity>, threads: map<string, Thread>, threads': map<string, Thread>, b: string)
    requires ThreadsOk(clock, used, threads) && Grows(threads, threads') && b in threads && threads[b].landed
    ensures b in threads' && threads'[b].createdAt == threads[b].createdAt
  {
    assert ThreadOk(clock, threads[b]) && ThreadGrows(threads[b], threads'[b]);
  }

  lemma FeedGrows(env: Env, clock: nat, used: map<string, Identity>, threads: map<string, Thread>, threads': map<string, Thread>,
                  table: Table, served: map<string, string>, feed: seq<Feed>, from: nat)
    requires ThreadsOk(clock, used, threads) && Grows(threads, threads') && TableInv(env, threads, table, served)
    requires FeedInv(env, threads, served, feed, from)
    ensures FeedInv(env, threads', served, feed, from)
  {
    forall i | 0 <= i < |feed|
      ensures FromBuild(env, threads', feed[i].name, feed[i].imageRef, feed[i].build)
    {
      FromBuildGrows(env, threads, threads', feed[i].name, feed[i].imageRef, feed[i].build);
    }
    forall i | from <= i < |feed|
      ensures NotOlder(threads', served, feed[i].name, feed[i].build)
    {
      assert FromBuild(env, threads, feed[i].name, feed[i].imageRef, feed[i].build);
      assert NotOlder(threads, served, feed[i].name, feed[i].build);
      LandedKeepsStamp(clock, used, threads, threads', feed[i].build);
      if feed[i].name in served { LandedKeepsStamp(clock, used, threads, threads', served[feed[i].name]); }
    }
  }

  lemma TableGrows(env: Env, threads: map<string, Thread>, threads': map<string, Thread>, table: Table, served: map<string, string>)
    requires Grows(threads, threads') && TableInv(env, threads, table, served)
    ensures TableInv(env, threads', table, served)
  {
    forall n | n in served
      ensures served[n] in threads' && threads'[served[n]].landed && threads'[served[n]].app.name == n
    {
      assert ThreadGrows(threads[served[n]], threads'[served[n]]);
    }
    forall n | n in table
      ensures FromBuild(env, threads', n, table[n].app.imageRef, served[n])
    {
      FromBuildGrows(env, threads, threads', n, table[n].app.imageRef, served[n]);
    }
  }

  lemma PollGrows(env: Env, clock: nat, used: map<string, Identity>, used': map<string, Identity>,
                  threads: map<string, Thread>, threads': map<string, Thread>, table: Table, served: map<string, string>, p: Poll)
    requires ThreadsOk(clock, used, threads) && Grows(threads, threads') && TableInv(env, threads, table, served)
    requires forall k :: k in used ==> k in used' && used'[k] == used[k]
    requires PollInv(env, used, threads, table, served, p)
    ensures PollInv(env, used', threads', table, served, p)
  {
    if p.Listing? { FeedGrows(env, clock, used, threads, threads', table, served, p.feed, 0); }
    else if !p.Idle? { FeedGrows(env, clock, used, threads, threads', table, served, p.feed, |p.os|); }
  }

  // ---------- polling and syncing ----------

  ghost predicate WorkerInv(env: Env, s: State) {
    && FreshInv(s.db.applications, s.threads)
    && TableInv(env, s.threads, s.table, s.served)
    && PollInv(env, s.usedApps, s.threads, s.table, s.served, s.poll)
  }

  lemma ListKeepsPoll(env: Env, s: State, apps: seq<Application>)
    requires BuildsInv(env, s) && IsApplicationList(s.db, TENANT, apps)
    ensures PollInv(env, s.usedApps, s.threads, s.table, s.served, Listing(apps, 0, []))
  {
    forall i, j | 0 <= i < j < |apps|
      ensures apps[i].name != apps[j].name
    {
      assert !SameName(s.db.applications[apps[i].id], s.db.applications[apps[j].id]);
    }
  }

  /** A succeeded row was published by its own thread. */
  lemma SucceededIsPublished(env: Env, live: set<string>, builds: map<string, Build>, used: map<string, Identity>,
                             threads: map<string, Thread>, faulted: bool, app: Application, b: string)
    requires RowsOk(env, live, builds, used, threads, faulted)
    requires forall c :: c in threads ==> threads[c].app.id in used && used[threads[c].app.id] == IdentityOf(threads[c].app)
    requires app.id in used && used[app.id] == IdentityOf(app) && app.runtime == WorkerPool
    requires b in builds && builds[b].status == Succeeded && builds[b].applicationID == app.id
    ensures FromBuild(env, threads, app.name, builds[b].imageRef, b) && threads[b].createdAt == builds[b].createdAt
    ensures threads[b].app.id == app.id && threads[b].app.createdAt == used[app.id].createdAt
  {
    assert RowFits(Image(env, threads[b].app, b), builds[b], threads[b], faulted);
    assert IdentityOf(threads[b].app) == IdentityOf(app);
  }

  /** Nothing served under the name of a live application is newer than that application's newest succeeded build. */
  lemma NewestIsNotOlder(env: Env, clock: nat, db: Db, used: map<string, Identity>, threads: map<string, Thread>, faulted: bool,
                         table: Table, served: map<string, string>, app: Application, x: string)
    requires RowsOk(env, db.applications.Keys, db.builds, used, threads, faulted) && ThreadsOk(clock, used, threads)
    requires FreshInv(db.applications, threads) && TableInv(env, threads, table, served)
    requires app.id in db.applications && app.id in used && used[app.id] == IdentityOf(app) == IdentityOf(db.applications[app.id])
    requires x in threads && threads[x].app.id == app.id && threads[x].landed
    requires forall c :: c in BuildsOf(db, app.id) && db.builds[c].status == Succeeded ==> db.builds[c].createdAt <= threads[x].createdAt
    ensures NotOlder(threads, served, app.name, x)
  {
    if app.name in served {
      var b := served[app.name];
      var prior := threads[b];
      assert ThreadOk(clock, prior) && ThreadOk(clock, threads[x]);
      if prior.app.id == app.id {
        assert RowFits(Image(env, prior.app, b), db.builds[b], prior, faulted);
        assert b in BuildsOf(db, app.id);
      } else {
        assert Earlier(prior, app.id, db.applications[app.id].name);
        assert threads[x].app.createdAt == used[app.id].createdAt;
      }
    }
  }

  /** The entry the handler appends is a published build, and no older than what is served under that name. */
  lemma PickIsFresh(env: Env, s: State, app: Application, out: seq<Build>)
    requires RowsOk(env, s.db.applications.Keys, s.db.builds, s.usedApps, s.threads, s.faulted)
    requires ThreadsOk(s.clock, s.usedApps, s.threads) && AppsOk(s.clock, s.usedApps, s.db.applications) && References(s.db)
    requires FreshInv(s.db.applications, s.threads) && TableInv(env, s.threads, s.table, s.served)
    requires app.id in s.usedApps && s.usedApps[app.id] == IdentityOf(app) && app.runtime == WorkerPool
    requires IsBuildList(s.db, app.id, FEED_WINDOW, out) && FirstSucceeded(out).Some?
    ensures var x := FirstSucceeded(out).value;
      FromBuild(env, s.threads, app.name, x.imageRef, x.id) && NotOlder(s.threads, s.served, app.name, x.id)
  {
    NewestOfList(s.db, app.id, FEED_WINDOW, out);
    var x := FirstSucceeded(out).value;
    SucceededIsPublished(env, s.db.applications.Keys, s.db.builds, s.usedApps, s.threads, s.faulted, app, x.id);
    NewestIsNotOlder(env, s.clock, s.db, s.usedApps, s.threads, s.faulted, s.table, s.served, app, x.id);
  }

  lemma AppendKeepsFeed(env: Env, threads: map<string, Thread>, served: map<string, string>, used: map<string, Identity>,
                        apps: seq<Application>, k: nat, feed: seq<Feed>, e: Feed)
    requires k < |apps| && ListingInv(used, apps, k, feed) && FeedInv(env, threads, served, feed, 0)
    requires e.name == apps[k].name && FromBuild(env, threads, e.name, e.imageRef, e.build) && NotOlder(threads, served, e.name, e.build)
    ensures ListingInv(used, apps, k + 1, feed + [e]) && FeedInv(env, threads, served, feed + [e], 0)
  {
    var longer := feed + [e];
    NamedInMonotone(apps, k, feed);
    assert NamedIn(apps[..k + 1], e.name) by { assert apps[..k + 1][k].name == e.name; }
    forall j | 0 <= j < |feed|
      ensures feed[j].name != e.name
    {
      var i :| 0 <= i < |apps[..k]| && apps[..k][i].name == feed[j].name;
      assert apps[i].name != apps[k].name;
    }
  }

  lemma NamedInMonotone(apps: seq<Application>, k: nat, feed: seq<Feed>)
    requires k < |apps| && forall j :: 0 <= j < |feed| ==> NamedIn(apps[..k], feed[j].name)
    ensures forall j :: 0 <= j < |feed| ==> NamedIn(apps[..k + 1], feed[j].name)
  {
    forall j | 0 <= j < |feed|
      ensures NamedIn(apps[..k + 1], feed[j].name)
    {
      var i :| 0 <= i < |apps[..k]| && apps[..k][i].name == feed[j].name;
      assert apps[..k + 1][i].name == feed[j].name;
    }
  }

  /** The entry to append, if any, is a published build of that name, no older than what is served under it. */
  ghost predicate FreshEntry(env: Env, threads: map<string, Thread>, served: map<string, string>, name: string, e: Option<Feed>) {
    e.Some? ==>
      e.value.name == name && FromBuild(env, threads, name, e.value.imageRef, e.value.build) && NotOlder(threads, served, name, e.value.build)
  }

  lemma AnswerIsFresh(env: Env, s: State, app: Application, out: Option<seq<Build>>)
    requires BuildsInv(env, s) && FreshInv(s.db.applications, s.threads) && TableInv(env, s.threads, s.table, s.served)
    requires app.id in s.usedApps && s.usedApps[app.id] == IdentityOf(app)
    requires out.Some? ==> IsBuildList(s.db, app.id, FEED_WINDOW, out.value)
    ensures FreshEntry(env, s.threads, s.served, app.name, FeedEntry(app, out))
  {
    if FeedEntry(app, out).Some? {
      PickIsFresh(env, s, app, out.value);
    }
  }

  lemma EntryKeepsListing(env: Env, threads: map<string, Thread>, served: map<string, string>, used: map<string, Identity>,
                          apps: seq<Application>, k: nat, feed: seq<Feed>, e: Option<Feed>)
    requires k < |apps| && ListingInv(used, apps, k, feed) && FeedInv(env, threads, served, feed, 0)
    requires FreshEntry(env, threads, served, apps[k].name, e)
    ensures var longer := if e.Some? then feed + [e.value] else feed;
      ListingInv(used, apps, k + 1, longer) && FeedInv(env, threads, served, longer, 0)
  {
    if e.Some? {
      AppendKeepsFeed(env, threads, served, used, apps, k, feed, e.value);
    } else {
      NamedInMonotone(apps, k, feed);
    }
  }

  lemma EntryKeepsPoll(env: Env, used: map<string, Identity>, threads: map<string, Thread>, table: Table,
                       served: map<string, string>, apps: seq<Application>, k: nat, feed: seq<Feed>, e: Option<Feed>)
    requires k < |apps| && ListingInv(used, apps, k, feed) && FeedInv(env, threads, served, feed, 0)
    requires FreshEntry(env, threads, served, apps[k].name, e)
    ensures PollInv(env, used, threads, table, served, Listing(apps, k + 1, if e.Some? then feed + [e.value] else feed))
  {
    EntryKeepsListing(env, threads, served, used, apps, k, feed, e);
  }

  lemma AnswerEffect(table: Table, p: Poll, out: Option<seq<Build>>)
    requires p.Listing? && p.k < |p.apps|
    ensures var e := FeedEntry(p.apps[p.k], out);
      PollNext(table, p, PollBuilds(out)) == Listing(p.apps, p.k + 1, if e.Some? then p.feed + [e.value] else p.feed)
  {
  }

  lemma AnswerKeepsListing(env: Env, used: map<string, Identity>, threads: map<string, Thread>, table: Table,
                           served: map<string, string>, p: Poll, out: Option<seq<Build>>)
    requires p.Listing? && p.k < |p.apps| && ListingInv(used, p.apps, p.k, p.feed) && FeedInv(env, threads, served, p.feed, 0)
    requires FreshEntry(env, threads, served, p.apps[p.k].name, FeedEntry(p.apps[p.k], out))
    ensures PollInv(env, used, threads, table, served, PollNext(table, p, PollBuilds(out)))
  {
    AnswerEffect(table, p, out);
    EntryKeepsPoll(env, used, threads, table, served, p.apps, p.k, p.feed, FeedEntry(p.apps[p.k], out));
  }

  lemma ListedIsKnown(used: map<string, Identity>, apps: seq<Application>, k: nat, feed: seq<Feed>)
    requires ListingInv(used, apps, k, feed) && k < |apps|
    ensures apps[k].id in used && used[apps[k].id] == IdentityOf(apps[k])
  {
  }

  lemma BuildsKeepPoll(env: Env, s: State, out: Option<seq<Build>>)
    requires BuildsInv(env, s) && FreshInv(s.db.applications, s.threads) && TableInv(env, s.threads, s.table, s.served)
    requires s.poll.Listing? && s.poll.k < |s.poll.apps| && ListingInv(s.usedApps, s.poll.apps, s.poll.k, s.poll.feed)
    requires FeedInv(env, s.threads, s.served, s.poll.feed, 0)
    requires out.Some? ==> IsBuildList(s.db, s.poll.apps[s.poll.k].id, FEED_WINDOW, out.value)
    ensures PollInv(env, s.usedApps, s.threads, s.table, s.served, PollNext(s.table, s.poll, PollBuilds(out)))
  {
    ListedIsKnown(s.usedApps, s.poll.apps, s.poll.k, s.poll.feed);
    AnswerIsFresh(env, s, s.poll.apps[s.poll.k], out);
    AnswerKeepsListing(env, s.usedApps, s.threads, s.table, s.served, s.poll, out);
  }

  /** One more round. */
  lemma RoundDone(table: Table, feed: seq<Feed>, start: Table, os: seq<Outside>, o: Outside)
    requires |os| < |feed| && Rounds(table, feed, start, os)
    ensures Rounds(SyncOne(table, Wants(feed)[|os|], o), feed, start, os + [o])
  {
    var n := |os|;
    var want := Wants(feed)[..n + 1];
    assert want[..n] == Wants(feed)[..n] && (os + [o])[..n] == os;
  }

  /** Moving past entry `from`, with that entry now the one served under its name. */
  lemma ServeKeepsFeed(env: Env, threads: map<string, Thread>, served: map<string, string>, feed: seq<Feed>, from: nat)
    requires from < |feed| && FeedInv(env, threads, served, feed, from)
    ensures FeedInv(env, threads, served[feed[from].name := feed[from].build], feed, from + 1)
    ensures FeedInv(env, threads, served, feed, from + 1)
  {
    var served' := served[feed[from].name := feed[from].build];
    forall i | from + 1 <= i < |feed|
      ensures NotOlder(threads, served', feed[i].name, feed[i].build)
    {
      assert feed[from].name != feed[i].name;
      assert NotOlder(threads, served, feed[i].name, feed[i].build);
    }
  }

  /** A round that finds the wanted image already there. */
  lemma PassRound(env: Env, threads: map<string, Thread>, table: Table, served: map<string, string>,
                  feed: seq<Feed>, start: Table, os: seq<Outside>)
    requires |os| < |feed| && Rounds(table, feed, start, os) && FeedInv(env, threads, served, feed, |os|)
    requires TableInv(env, threads, table, served) && Unchanged(table, Wants(feed)[|os|])
    ensures var f := feed[|os|];
      TableInv(env, threads, table, served[f.name := f.build]) && Rounds(table, feed, start, os + [NO_PULL])
      && FeedInv(env, threads, served[f.name := f.build], feed, |os| + 1)
  {
    RoundDone(table, feed, start, os, NO_PULL);
    ServeKeepsFeed(env, threads, served, feed, |os|);
    assert FromBuild(env, threads, feed[|os|].name, feed[|os|].imageRef, feed[|os|].build);
  }

  lemma LookPasses(env: Env, used: map<string, Identity>, threads: map<string, Thread>, table: Table,
                   served: map<string, string>, p: Poll)
    requires TableInv(env, threads, table, served) && p.Adding? && |p.os| < |p.feed| && CurrentUnchanged(table, p)
    requires Rounds(table, p.feed, p.start, p.os) && FeedInv(env, threads, served, p.feed, |p.os|)
    ensures TableInv(env, threads, table, PollServed(table, served, p, SyncLook))
    ensures PollInv(env, used, threads, table, PollServed(table, served, p, SyncLook), PollNext(table, p, SyncLook))
  {
    PassRound(env, threads, table, served, p.feed, p.start, p.os);
    assert PollNext(table, p, SyncLook) == Adding(p.feed, p.start, p.os + [NO_PULL]);
    assert PollServed(table, served, p, SyncLook) == served[Current(p).name := Current(p).build];
  }

  lemma LookStartsPull(env: Env, used: map<string, Identity>, threads: map<string, Thread>, table: Table,
                       served: map<string, string>, p: Poll)
    requires p.Adding? && |p.os| < |p.feed| && !CurrentUnchanged(table, p)
    requires Rounds(table, p.feed, p.start, p.os) && FeedInv(env, threads, served, p.feed, |p.os|)
    ensures PollServed(table, served, p, SyncLook) == served
    ensures PollInv(env, used, threads, table, served, PollNext(table, p, SyncLook))
  {
    assert PollNext(table, p, SyncLook) == Pulling(p.feed, p.start, p.os);
  }

  lemma LookKeepsPoll(env: Env, used: map<string, Identity>, threads: map<string, Thread>, table: Table,
                      served: map<string, string>, p: Poll)
    requires TableInv(env, threads, table, served) && PollInv(env, used, threads, table, served, p)
    requires p.Adding? && |p.os| < |p.feed|
    ensures TableInv(env, threads, table, PollServed(table, served, p, SyncLook))
    ensures PollInv(env, used, threads, table, PollServed(table, served, p, SyncLook), PollNext(table, p, SyncLook))
  {
    if CurrentUnchanged(table, p) {
      LookPasses(env, used, threads, table, served, p);
    } else {
      LookStartsPull(env, used, threads, table, served, p);
    }
  }

  lemma PullKeepsPoll(env: Env, s: State, o: Outside)
    requires WorkerInv(env, s) && s.poll.Pulling?
    ensures PollInv(env, s.usedApps, s.threads, s.table, s.served, PollNext(s.table, s.poll, SyncPull(o)))
  {
    var p := s.poll;
    RoundDone(s.table, p.feed, p.start, p.os, o);
    ServeKeepsFeed(env, s.threads, s.served, p.feed, |p.os|);
  }

  lemma InsertKeepsTable(env: Env, threads: map<string, Thread>, table: Table, served: map<string, string>, f: Feed, entry: AppEntry)
    requires TableInv(env, threads, table, served) && FromBuild(env, threads, f.name, f.imageRef, f.build)
    requires Whole(entry) && entry.app.name == f.name && entry.app.imageRef == f.imageRef
    ensures TableInv(env, threads, table[f.name := entry], served[f.name := f.build])
  {
  }

  /** A round that loads the wanted image. */
  lemma InsertRound(env: Env, threads: map<string, Thread>, table: Table, served: map<string, string>,
                    feed: seq<Feed>, start: Table, os: seq<Outside>, o: Outside)
    requires |os| < |feed| && Rounds(table, feed, start, os) && FeedInv(env, threads, served, feed, |os|)
    requires TableInv(env, threads, table, served) && !Unchanged(table, Wants(feed)[|os|])
    requires Load(feed[|os|].name, feed[|os|].imageRef, o).Ok?
    ensures var f := feed[|os|];
      var after := table[f.name := Load(f.name, f.imageRef, o).value];
      TableInv(env, threads, after, served[f.name := f.build]) && Rounds(after, feed, start, os + [o])
      && FeedInv(env, threads, served[f.name := f.build], feed, |os| + 1)
  {
    var f := feed[|os|];
    var r := Load(f.name, f.imageRef, o);
    assert FromBuild(env, threads, f.name, f.imageRef, f.build);
    LoadIsWhole(f.name, f.imageRef, o);
    InsertKeepsTable(env, threads, table, served, f, r.value);
    RoundDone(table, feed, start, os, o);
    ServeKeepsFeed(env, threads, served, feed, |os|);
  }

  lemma InsertKeepsPoll(env: Env, used: map<string, Identity>, threads: map<string, Thread>, table: Table,
                        served: map<string, string>, p: Poll)
    requires TableInv(env, threads, table, served) && PollInv(env, used, threads, table, served, p) && p.Inserting?
    ensures TableInv(env, threads, PollTable(table, p, SyncInsert), PollServed(table, served, p, SyncInsert))
    ensures PollInv(env, used, threads, PollTable(table, p, SyncInsert), PollServed(table, served, p, SyncInsert),
                    PollNext(table, p, SyncInsert))
  {
    InsertRound(env, threads, table, served, p.feed, p.start, p.os, p.o);
    InsertEffect(table, served, p);
  }

  lemma InsertEffect(table: Table, served: map<string, string>, p: Poll)
    requires p.Inserting? && |p.os| < |p.feed| && LoadCurrent(p, p.o).Ok?
    ensures var f := p.feed[|p.os|];
      && PollTable(table, p, SyncInsert) == table[f.name := Load(f.name, f.imageRef, p.o).value]
      && PollServed(table, served, p, SyncInsert) == served[f.name := f.build]
      && PollNext(table, p, SyncInsert) == Adding(p.feed, p.start, p.os + [p.o])
  {
  }

  lemma DeliverKeepsPoll(env: Env, used: map<string, Identity>, threads: map<string, Thread>, table: Table,
                         served: map<string, string>, p: Poll)
    requires p.Listing? && FeedInv(env, threads, served, p.feed, 0)
    ensures PollInv(env, used, threads, table, served, PollNext(table, p, PollDeliver))
  {
    assert Wants(p.feed)[..0] == [];
    assert PollNext(table, p, PollDeliver) == Adding(p.feed, table, []);
  }

  lemma ScanKeepsPoll(env: Env, used: map<string, Identity>, threads: map<string, Thread>, table: Table,
                      served: map<string, string>, p: Poll)
    requires PollInv(env, used, threads, table, served, p) && p.Adding? && |p.os| == |p.feed|
    ensures PollInv(env, used, threads, table, served, PollNext(table, p, SyncScan))
  {
  }

  lemma RemovalKeepsTable(env: Env, threads: map<string, Thread>, table: Table, served: map<string, string>, p: Poll)
    requires TableInv(env, threads, table, served) && p.Removing?
    ensures TableInv(env, threads, PollTable(table, p, SyncRemove), PollServed(table, served, p, SyncRemove))
    ensures PollNext(table, p, SyncRemove) == Idle
  {
  }

  /** The worker's part of the state after one of its own steps. */
  ghost predicate PollPartsInv(env: Env, s: State, a: Action) {
    var table, served := PollTable(s.table, s.poll, a), PollServed(s.table, s.served, s.poll, a);
    TableInv(env, s.threads, table, served) && PollInv(env, s.usedApps, s.threads, table, served, PollNext(s.table, s.poll, a))
  }

  lemma FeedLeavesTable(env: Env, s: State, a: Action)
    requires a.PollList? || a.PollBuilds? || a.PollDeliver? || a.PollAbort?
    requires TableInv(env, s.threads, s.table, s.served)
    requires PollInv(env, s.usedApps, s.threads, s.table, s.served, PollNext(s.table, s.poll, a))
    ensures PollPartsInv(env, s, a)
  {
  }

  lemma ListStepKeepsWorker(env: Env, s: State, a: Action)
    requires BuildsInv(env, s) && WorkerInv(env, s) && AnswersFit(s, a) && a.PollList?
    ensures PollPartsInv(env, s, a)
  {
    ListKeepsPoll(env, s, a.apps);
    FeedLeavesTable(env, s, a);
  }

  lemma BuildsStepKeepsWorker(env: Env, s: State, a: Action)
    requires BuildsInv(env, s) && WorkerInv(env, s) && PollEnabled(s, a) && AnswersFit(s, a) && a.PollBuilds?
    ensures PollPartsInv(env, s, a)
  {
    BuildsKeepPoll(env, s, a.out);
    FeedLeavesTable(env, s, a);
  }

  lemma DeliverStepKeepsWorker(env: Env, s: State, a: Action)
    requires WorkerInv(env, s) && PollEnabled(s, a) && a.PollDeliver?
    ensures PollPartsInv(env, s, a)
  {
    DeliverKeepsPoll(env, s.usedApps, s.threads, s.table, s.served, s.poll);
    FeedLeavesTable(env, s, a);
  }

  lemma AbortKeepsWorker(env: Env, s: State, a: Action)
    requires WorkerInv(env, s) && a.PollAbort?
    ensures PollPartsInv(env, s, a)
  {
  }

  lemma SyncStepKeepsWorker(env: Env, s: State, a: Action)
    requires WorkerInv(env, s) && PollEnabled(s, a)
    requires a.SyncLook? || a.SyncPull? || a.SyncInsert? || a.SyncScan? || a.SyncRemove?
    ensures PollPartsInv(env, s, a)
  {
    match a
    case SyncLook => LookKeepsPoll(env, s.usedApps, s.threads, s.table, s.served, s.poll);
    case SyncPull(o) => PullKeepsPoll(env, s, o);
    case SyncInsert => InsertKeepsPoll(env, s.usedApps, s.threads, s.table, s.served, s.poll);
    case SyncScan => ScanKeepsPoll(env, s.usedApps, s.threads, s.table, s.served, s.poll);
    case SyncRemove => RemovalKeepsTable(env, s.threads, s.table, s.served, s.poll);
  }

  lemma PollStepKeepsWorker(env: Env, s: State, a: Action)
    requires BuildsInv(env, s) && WorkerInv(env, s) && PollEnabled(s, a) && AnswersFit(s, a)
    ensures PollPartsInv(env, s, a)
  {
    if a.PollList? { ListStepKeepsWorker(env, s, a); }
    else if a.PollBuilds? { BuildsStepKeepsWorker(env, s, a); }
    else if a.PollDeliver? { DeliverStepKeepsWorker(env, s, a); }
    else if a.PollAbort? { AbortKeepsWorker(env, s, a); }
    else { SyncStepKeepsWorker(env, s, a); }
  }

  /** Steps of the builder and of the handlers. */
  lemma OtherStepKeepsWorker(env: Env, s: State, a: Action)
    requires ThreadsOk(s.clock, s.usedApps, s.threads) && (a.BeginBuild? ==> a.b !in s.threads) && (a.CreateApp? ==> a.app.id !in s.usedApps)
    requires TableInv(env, s.threads, s.table, s.served) && PollInv(env, s.usedApps, s.threads, s.table, s.served, s.poll)
    ensures TableInv(env, ThreadsAfter(env, s, a), s.table, s.served)
    ensures PollInv(env, UsedAfter(s, a), ThreadsAfter(env, s, a), s.table, s.served, s.poll)
  {
    NextGrows(env, s, a);
    TableGrows(env, s.threads, ThreadsAfter(env, s, a), s.table, s.served);
    PollGrows(env, s.clock, s.usedApps, UsedAfter(s, a), s.threads, ThreadsAfter(env, s, a), s.table, s.served, s.poll);
  }

  predicate PollAction(a: Action) {
    a.PollList? || a.PollBuilds? || a.PollDeliver? || a.PollAbort? || a.SyncLook? || a.SyncPull? || a.SyncInsert?
    || a.SyncScan? || a.SyncRemove?
  }

  lemma OthersLeaveWorker(s: State, a: Action)
    requires !PollAction(a)
    ensures PollNext(s.table, s.poll, a) == s.poll && PollTable(s.table, s.poll, a) == s.table
    ensures PollServed(s.table, s.served, s.poll, a) == s.served && PollClean(s.clean, s.poll, a) == s.clean
  {
  }

  lemma WorkerLeavesOthers(env: Env, s: State, a: Action)
    requires PollAction(a)
    ensures ThreadsAfter(env, s, a) == s.threads && UsedAfter(s, a) == s.usedApps && DbAfter(env, s, a) == s.db
  {
  }

  lemma PollActionIsPoll(env: Env, s: State, a: Action)
    requires PollAction(a) && Enabled(env, s, a)
    ensures PollEnabled(s, a) && AnswersFit(s, a)
  {
  }

  ghost predicate WorkerPartsInv(env: Env, s: State, a: Action) {
    var table, served := PollTable(s.table, s.poll, a), PollServed(s.table, s.served, s.poll, a);
    TableInv(env, ThreadsAfter(env, s, a), table, served) &&
    PollInv(env, UsedAfter(s, a), ThreadsAfter(env, s, a), table, served, PollNext(s.table, s.poll, a))
  }

  lemma PollStepParts(env: Env, s: State, a: Action)
    requires BuildsInv(env, s) && WorkerInv(env, s) && Enabled(env, s, a) && PollAction(a)
    ensures WorkerPartsInv(env, s, a)
  {
    PollActionIsPoll(env, s, a);
    WorkerLeavesOthers(env, s, a);
    PollStepKeepsWorker(env, s, a);
  }

  lemma OtherStepParts(env: Env, s: State, a: Action)
    requires ThreadsOk(s.clock, s.usedApps, s.threads) && WorkerInv(env, s) && !PollAction(a)
    requires (a.BeginBuild? ==> a.b !in s.threads) && (a.CreateApp? ==> a.app.id !in s.usedApps)
    ensures WorkerPartsInv(env, s, a)
  {
    OthersLeaveWorker(s, a);
    OtherStepKeepsWorker(env, s, a);
  }

  lemma NextKeepsWorkerParts(env: Env, s: State, a: Action)
    requires BuildsInv(env, s) && WorkerInv(env, s) && Enabled(env, s, a)
    ensures WorkerPartsInv(env, s, a)
  {
    if PollAction(a) { PollStepParts(env, s, a); } else { OtherStepParts(env, s, a); }
  }

  lemma NextKeepsWorker(env: Env, s: State, a: Action)
    requires BuildsInv(env, s) && WorkerInv(env, s) && Enabled(env, s, a)
    ensures WorkerInv(env, Next(env, s, a))
  {
    NextKeepsFresh(env, s, a);
    NextKeepsWorkerParts(env, s, a);
  }
}
