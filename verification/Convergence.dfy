/** What one sync makes of the worker's table, in the middle of everything else that goes on. */
module Convergence {
  import opened Wrappers
  import opened Store
  import opened Loader
  import opened Router
  import opened Protocol
  import opened Builds
  import opened WorkerSafety

  // ---------- no gap, no mixture ----------

  /** Of all steps of the system, only the removal of a sync whose list does not name an application drops its entry. */
  lemma OnlyUnwantedAreDropped(env: Env, s: State, a: Action, name: string)
    requires WorkerInv(env, s) && Enabled(env, s, a)
    requires name in s.table && name !in Next(env, s, a).table
    ensures a.SyncRemove? && s.poll.Removing? && !Wanted(Wants(s.poll.feed), name)
  {
  }

  /** An entry changes only by the insertion of a complete one, loaded for that name and the image the list gives it. */
  lemma EntriesChangeWhole(env: Env, s: State, a: Action, name: string)
    requires WorkerInv(env, s) && Enabled(env, s, a)
    requires name in Next(env, s, a).table && (name in s.table ==> Next(env, s, a).table[name] != s.table[name])
    ensures a.SyncInsert? && s.poll.Inserting? && |s.poll.os| < |s.poll.feed| && name == Current(s.poll).name
    ensures LoadCurrent(s.poll, s.poll.o) == Ok(Next(env, s, a).table[name]) && Whole(Next(env, s, a).table[name])
  {
    if PollAction(a) {
      if a.SyncInsert? { LoadIsWhole(Current(s.poll).name, Current(s.poll).imageRef, s.poll.o); }
    } else {
      OthersLeaveWorker(s, a);
    }
  }

  /** Round `i` of the sync loaded this entry. */
  ghost predicate LoadedAt(p: Poll, i: nat, name: string, entry: AppEntry)
    requires !p.Idle? && !p.Listing?
  {
    i < |p.os| <= |p.feed| && p.feed[i].name == name && Load(name, p.feed[i].imageRef, p.os[i]) == Ok(entry)
  }

  /** All through a sync, an application loaded at its start is there: with its old entry or one loaded since. */
  lemma LoadedStaysLoaded(env: Env, s: State, name: string)
    requires WorkerInv(env, s) && !s.poll.Idle? && !s.poll.Listing? && name in s.poll.start
    ensures name in s.table
    ensures s.table[name] == s.poll.start[name] || exists i :: 0 <= i < |s.poll.os| && LoadedAt(s.poll, i, name, s.table[name])
  {
    var want := Wants(s.poll.feed)[..|s.poll.os|];
    FirstLoopNeverDrops(s.poll.start, want, s.poll.os, name);
    if s.table[name] != s.poll.start[name] {
      var i :| 0 <= i < |want| && want[i].name == name && Load(name, want[i].imageRef, s.poll.os[i]) == Ok(s.table[name]);
      assert LoadedAt(s.poll, i, name, s.table[name]);
    }
  }

  predicate EndsSync(s: State, a: Action) {
    (a.SyncScan? && s.poll.Adding? && |s.poll.os| == |s.poll.feed| && Unwanted(s.table, s.poll.feed) == {})
    || (a.SyncRemove? && s.poll.Removing?)
  }

  /** The interleaved sync leaves exactly the table that the undisturbed `Router.Sync` leaves. */
  lemma SyncIsAtomic(env: Env, s: State, a: Action)
    requires WorkerInv(env, s) && Enabled(env, s, a) && EndsSync(s, a)
    ensures |s.poll.os| == |s.poll.feed| && Next(env, s, a).poll.Idle?
    ensures Next(env, s, a).table == Synced(s.poll.start, Wants(s.poll.feed), s.poll.os)
  {
    AllRounds(s.poll.start, s.table, s.poll.feed, s.poll.os);
    RemovalKeepsWanted(s.table, s.poll.feed);
  }

  lemma AllRounds(start: Table, table: Table, feed: seq<Feed>, os: seq<Outside>)
    requires |os| == |feed| && Rounds(table, feed, start, os)
    ensures table == SyncAll(start, Wants(feed), os)
  {
    assert Wants(feed)[..|feed|] == Wants(feed);
  }

  lemma RemovalKeepsWanted(u: Table, feed: seq<Feed>)
    ensures u - Unwanted(u, feed) == map n | n in u && Wanted(Wants(feed), n) :: u[n]
    ensures u - {} == u
  {
  }

  // ---------- which build an application should be served with ----------

  function StrictlyNewer(db: Db, id: string, b: string): set<string>
    requires b in db.builds
  {
    set c | c in BuildsOf(db, id) && db.builds[c].createdAt > db.builds[b].createdAt
  }

  function AtLeastAsNew(db: Db, id: string, b: string): set<string>
    requires b in db.builds
  {
    set c | c in BuildsOf(db, id) && c != b && db.builds[c].createdAt >= db.builds[b].createdAt
  }

  /** `b` is the newest succeeded build of the application and fewer than 30 of its builds are newer. */
  ghost predicate Latest(db: Db, id: string, b: string) {
    && b in BuildsOf(db, id) && db.builds[b].status == Succeeded
    && (forall c :: c in BuildsOf(db, id) && db.builds[c].status == Succeeded ==> db.builds[c].createdAt <= db.builds[b].createdAt)
    && |StrictlyNewer(db, id, b)| < FEED_WINDOW
  }

  /** Some succeeded build is certainly among the 30 newest: fewer than 30 others are as new. */
  ghost predicate InWindow(db: Db, id: string) {
    exists b :: b in BuildsOf(db, id) && db.builds[b].status == Succeeded && |AtLeastAsNew(db, id, b)| < FEED_WINDOW
  }

  function Ids(out: seq<Build>, n: nat): set<string>
    requires n <= |out|
  {
    set j | 0 <= j < n :: out[j].id
  }

  lemma {:induction false} IdsCount(out: seq<Build>, n: nat)
    requires n <= |out| && forall i, j :: 0 <= i < j < |out| ==> out[i].id != out[j].id
    ensures |Ids(out, n)| == n
  {
    if n > 0 {
      IdsCount(out, n - 1);
      assert Ids(out, n) == Ids(out, n - 1) + {out[n - 1].id};
    } else {
      assert Ids(out, 0) == {};
    }
  }

  lemma SubsetCount(xs: set<string>, ys: set<string>)
    requires xs <= ys
    ensures |xs| <= |ys|
  {
    assert ys == xs + (ys - xs);
  }

  lemma NewerAreBefore(db: Db, id: string, out: seq<Build>, i: nat)
    requires IsBuildList(db, id, FEED_WINDOW, out) && i < |out|
    ensures out[i].id in db.builds && StrictlyNewer(db, id, out[i].id) <= Ids(out, i)
  {
    forall c | c in StrictlyNewer(db, id, out[i].id)
      ensures c in Ids(out, i)
    {
      assert exists j :: 0 <= j < |out| && out[j].id == c;
      var j :| 0 <= j < |out| && out[j].id == c;
      assert j < i;
    }
  }

  lemma PickIsLatest(db: Db, id: string, out: seq<Build>)
    requires IsBuildList(db, id, FEED_WINDOW, out) && FirstSucceeded(out).Some?
    ensures Latest(db, id, FirstSucceeded(out).value.id)
  {
    NewestOfList(db, id, FEED_WINDOW, out);
    var x := FirstSucceeded(out).value;
    var i :| 0 <= i < |out| && out[i] == x && IsFirstSucceeded(out, i);
    NewerAreBefore(db, id, out, i);
    SubsetCount(StrictlyNewer(db, id, x.id), Ids(out, i));
    IdsCount(out, i);
  }

  lemma WindowIsListed(db: Db, id: string, out: seq<Build>)
    requires IsBuildList(db, id, FEED_WINDOW, out) && InWindow(db, id)
    ensures FirstSucceeded(out).Some?
  {
    var b :| b in BuildsOf(db, id) && db.builds[b].status == Succeeded && |AtLeastAsNew(db, id, b)| < FEED_WINDOW;
    if forall j :: 0 <= j < |out| ==> out[j].id != b {
      forall c | c in Ids(out, |out|)
        ensures c in AtLeastAsNew(db, id, b)
      {
        var j :| 0 <= j < |out| && out[j].id == c;
        assert db.builds[b].createdAt <= out[j].createdAt;
      }
      IdsCount(out, |out|);
      SubsetCount(Ids(out, |out|), AtLeastAsNew(db, id, b));
      assert false;
    } else {
      var j :| 0 <= j < |out| && out[j].id == b;
      assert out[j].status == Succeeded;
    }
  }

  // ---------- a poll against a store that stays as it is ----------

  /** The image is the one this name should be served with. */
  ghost predicate Publishes(db: Db, name: string, image: string) {
    exists id, b :: PublishesBy(db, name, image, id, b)
  }

  ghost predicate PublishesBy(db: Db, name: string, image: string, id: string, b: string) {
    id in db.applications && db.applications[id].runtime == WorkerPool && db.applications[id].name == name
    && Latest(db, id, b) && db.builds[b].imageRef == image
  }

  ghost predicate SoundFeed(db: Db, feed: seq<Feed>) {
    forall i :: 0 <= i < |feed| ==> Publishes(db, feed[i].name, feed[i].imageRef)
  }

  predicate InFeed(feed: seq<Feed>, name: string) {
    exists j :: 0 <= j < |feed| && feed[j].name == name
  }

  ghost predicate Due(db: Db, app: Application) {
    app.runtime == WorkerPool && InWindow(db, app.id)
  }

  ghost predicate CompleteListing(db: Db, apps: seq<Application>, k: nat, feed: seq<Feed>) {
    k <= |apps| && forall i :: 0 <= i < k && Due(db, apps[i]) ==> InFeed(feed, apps[i].name)
  }

  ghost predicate CompleteFeed(db: Db, feed: seq<Feed>) {
    forall id :: id in db.applications && Due(db, db.applications[id]) ==> InFeed(feed, db.applications[id].name)
  }

  /** While the store has not changed since the poll began. */
  ghost predicate QuietInv(db: Db, p: Poll, table: Table, clean: bool) {
    match p
    case Idle => true
    case Listing(apps, k, feed) =>
      IsApplicationList(db, TENANT, apps) && SoundFeed(db, feed) && (clean ==> CompleteListing(db, apps, k, feed))
    case Adding(feed, start, os) => SyncingInv(db, feed, |os|, table, clean)
    case Pulling(feed, start, os) => SyncingInv(db, feed, |os|, table, clean)
    case Inserting(feed, start, os, o) => SyncingInv(db, feed, |os|, table, clean)
    case Removing(feed, start, os, names) => SyncingInv(db, feed, |os|, table, clean)
  }

  ghost predicate SyncingInv(db: Db, feed: seq<Feed>, n: nat, table: Table, clean: bool) {
    n <= |feed| && SoundFeed(db, feed) &&
    (clean ==> CompleteFeed(db, feed) && forall j :: 0 <= j < n ==> Unchanged(table, Wants(feed)[j]))
  }

  /** Every entry is what its name should be served with, and every application that is due is served. */
  ghost predicate Converged(db: Db, table: Table) {
    (forall n :: n in table ==> Publishes(db, n, table[n].app.imageRef)) &&
    (forall id :: id in db.applications && Due(db, db.applications[id]) ==> db.applications[id].name in table)
  }

  lemma AppendedIsSound(db: Db, feed: seq<Feed>, e: Feed)
    requires SoundFeed(db, feed) && Publishes(db, e.name, e.imageRef)
    ensures SoundFeed(db, feed + [e])
  {
    var longer := feed + [e];
    forall i | 0 <= i < |longer|
      ensures Publishes(db, longer[i].name, longer[i].imageRef)
    {
      if i < |feed| { assert longer[i] == feed[i]; }
    }
  }

  lemma InFeedGrows(feed: seq<Feed>, e: Feed, name: string)
    requires InFeed(feed, name) || e.name == name
    ensures InFeed(feed + [e], name)
  {
    if InFeed(feed, name) {
      var j :| 0 <= j < |feed| && feed[j].name == name;
      assert (feed + [e])[j].name == name;
    } else {
      assert (feed + [e])[|feed|].name == name;
    }
  }

  lemma AppendedIsComplete(db: Db, apps: seq<Application>, k: nat, feed: seq<Feed>, e: Feed)
    requires k < |apps| && CompleteListing(db, apps, k, feed) && e.name == apps[k].name
    ensures CompleteListing(db, apps, k + 1, feed + [e])
  {
    forall i | 0 <= i < k + 1 && Due(db, apps[i])
      ensures InFeed(feed + [e], apps[i].name)
    {
      InFeedGrows(feed, e, apps[i].name);
    }
  }

  lemma EntryPublishes(db: Db, app: Application, out: seq<Build>)
    requires app.id in db.applications && db.applications[app.id] == app && app.runtime == WorkerPool
    requires IsBuildList(db, app.id, FEED_WINDOW, out) && FirstSucceeded(out).Some?
    ensures Publishes(db, app.name, FirstSucceeded(out).value.imageRef)
  {
    PickIsLatest(db, app.id, out);
    NewestOfList(db, app.id, FEED_WINDOW, out);
    assert PublishesBy(db, app.name, FirstSucceeded(out).value.imageRef, app.id, FirstSucceeded(out).value.id);
  }

  lemma AnsweredKeepsQuiet(db: Db, table: Table, p: Poll, clean: bool, out: Option<seq<Build>>)
    requires p.Listing? && p.k < |p.apps| && QuietInv(db, p, table, clean)
    requires out.Some? ==> IsBuildList(db, p.apps[p.k].id, FEED_WINDOW, out.value)
    ensures QuietInv(db, PollNext(table, p, PollBuilds(out)), table, PollClean(clean, p, PollBuilds(out)))
  {
    var app := p.apps[p.k];
    var e := FeedEntry(app, out);
    if e.Some? {
      EntryPublishes(db, app, out.value);
      AppendedIsSound(db, p.feed, e.value);
      if clean { AppendedIsComplete(db, p.apps, p.k, p.feed, e.value); }
    } else if Due(db, app) && out.Some? {
      WindowIsListed(db, app.id, out.value);
    }
  }

  lemma DeliveredIsComplete(s: State)
    requires AppsOk(s.clock, s.usedApps, s.db.applications)
    requires s.poll.Listing? && s.poll.k == |s.poll.apps| && QuietInv(s.db, s.poll, s.table, s.clean) && s.clean
    ensures CompleteFeed(s.db, s.poll.feed)
  {
    var p := s.poll;
    forall id | id in s.db.applications && Due(s.db, s.db.applications[id])
      ensures InFeed(p.feed, s.db.applications[id].name)
    {
      var i :| 0 <= i < |p.apps| && p.apps[i].id == id;
      assert p.apps[i] == s.db.applications[id];
    }
  }

  /** Inserting an entry keeps the earlier rounds unchanged: the list names each application once. */
  lemma InsertedKeepsRounds(feed: seq<Feed>, n: nat, table: Table, entry: AppEntry)
    requires n < |feed| && forall i, j :: 0 <= i < j < |feed| ==> feed[i].name != feed[j].name
    requires forall j :: 0 <= j < n ==> Unchanged(table, Wants(feed)[j])
    requires entry.app.imageRef == feed[n].imageRef
    ensures forall j :: 0 <= j < n + 1 ==> Unchanged(table[feed[n].name := entry], Wants(feed)[j])
  {
    forall j | 0 <= j < n + 1
      ensures Unchanged(table[feed[n].name := entry], Wants(feed)[j])
    {
      if j < n { assert Unchanged(table, Wants(feed)[j]) && feed[j].name != feed[n].name; }
    }
  }

  lemma PassedKeepsSyncing(db: Db, feed: seq<Feed>, n: nat, table: Table, clean: bool)
    requires SyncingInv(db, feed, n, table, clean) && n < |feed| && (clean ==> Unchanged(table, Wants(feed)[n]))
    ensures SyncingInv(db, feed, n + 1, table, clean)
  {
  }

  lemma InsertedKeepsSyncing(db: Db, feed: seq<Feed>, n: nat, table: Table, entry: AppEntry, clean: bool)
    requires SyncingInv(db, feed, n, table, clean) && n < |feed|
    requires forall i, j :: 0 <= i < j < |feed| ==> feed[i].name != feed[j].name
    requires entry.app.imageRef == feed[n].imageRef
    ensures SyncingInv(db, feed, n + 1, table[feed[n].name := entry], clean)
  {
    if clean { InsertedKeepsRounds(feed, n, table, entry); }
  }

  lemma LookKeepsQuiet(db: Db, table: Table, p: Poll, clean: bool)
    requires p.Adding? && |p.os| < |p.feed| && QuietInv(db, p, table, clean)
    ensures QuietInv(db, PollNext(table, p, SyncLook), PollTable(table, p, SyncLook), PollClean(clean, p, SyncLook))
  {
    if CurrentUnchanged(table, p) { PassedKeepsSyncing(db, p.feed, |p.os|, table, clean); }
  }

  lemma PullKeepsQuiet(db: Db, table: Table, p: Poll, clean: bool, o: Outside)
    requires p.Pulling? && |p.os| < |p.feed| && QuietInv(db, p, table, clean)
    ensures QuietInv(db, PollNext(table, p, SyncPull(o)), PollTable(table, p, SyncPull(o)), PollClean(clean, p, SyncPull(o)))
  {
    if LoadCurrent(p, o).Err? { PassedKeepsSyncing(db, p.feed, |p.os|, table, false); }
  }

  lemma InsertKeepsQuiet(db: Db, table: Table, p: Poll, clean: bool)
    requires p.Inserting? && |p.os| < |p.feed| && LoadCurrent(p, p.o).Ok? && QuietInv(db, p, table, clean)
    requires forall i, j :: 0 <= i < j < |p.feed| ==> p.feed[i].name != p.feed[j].name
    ensures QuietInv(db, PollNext(table, p, SyncInsert), PollTable(table, p, SyncInsert), PollClean(clean, p, SyncInsert))
  {
    LoadIsWhole(Current(p).name, Current(p).imageRef, p.o);
    InsertedKeepsSyncing(db, p.feed, |p.os|, table, LoadCurrent(p, p.o).value, clean);
  }

  lemma RoundKeepsQuiet(env: Env, s: State, a: Action)
    requires WorkerInv(env, s) && PollEnabled(s, a) && (a.SyncLook? || a.SyncPull? || a.SyncInsert?)
    requires QuietInv(s.db, s.poll, s.table, s.clean)
    ensures QuietInv(s.db, PollNext(s.table, s.poll, a), PollTable(s.table, s.poll, a), PollClean(s.clean, s.poll, a))
  {
    match a
    case SyncLook => LookKeepsQuiet(s.db, s.table, s.poll, s.clean);
    case SyncPull(o) => PullKeepsQuiet(s.db, s.table, s.poll, s.clean, o);
    case SyncInsert => InsertKeepsQuiet(s.db, s.table, s.poll, s.clean);
  }

  lemma PollKeepsQuiet(env: Env, s: State, a: Action)
    requires AppsOk(s.clock, s.usedApps, s.db.applications) && WorkerInv(env, s) && PollEnabled(s, a) && AnswersFit(s, a)
    requires a.PollList? || QuietInv(s.db, s.poll, s.table, s.clean)
    ensures QuietInv(s.db, PollNext(s.table, s.poll, a), PollTable(s.table, s.poll, a), PollClean(s.clean, s.poll, a))
  {
    if a.PollBuilds? { AnsweredKeepsQuiet(s.db, s.table, s.poll, s.clean, a.out); }
    else if a.PollDeliver? { if s.clean { DeliveredIsComplete(s); } }
    else if a.SyncLook? || a.SyncPull? || a.SyncInsert? { RoundKeepsQuiet(env, s, a); }
  }

  /** The parts of the state after the step. */
  ghost predicate QuietPartsInv(env: Env, s: State, a: Action) {
    QuietInv(DbAfter(env, s, a), PollNext(s.table, s.poll, a), PollTable(s.table, s.poll, a), PollClean(s.clean, s.poll, a))
  }

  lemma PollStepQuiet(env: Env, s: State, a: Action)
    requires AppsOk(s.clock, s.usedApps, s.db.applications) && WorkerInv(env, s) && PollEnabled(s, a) && AnswersFit(s, a)
    requires a.PollList? || QuietInv(s.db, s.poll, s.table, s.clean)
    requires PollAction(a)
    ensures QuietPartsInv(env, s, a)
  {
    WorkerLeavesOthers(env, s, a);
    PollKeepsQuiet(env, s, a);
  }

  lemma OtherStepQuiet(env: Env, s: State, a: Action)
    requires QuietInv(s.db, s.poll, s.table, s.clean) && !PollAction(a) && DbAfter(env, s, a) == s.db
    ensures QuietPartsInv(env, s, a)
  {
    OthersLeaveWorker(s, a);
  }

  lemma NextKeepsQuietParts(env: Env, s: State, a: Action)
    requires AppsOk(s.clock, s.usedApps, s.db.applications) && WorkerInv(env, s)
    requires PollAction(a) ==> PollEnabled(s, a) && AnswersFit(s, a)
    requires a.PollList? || (QuietInv(s.db, s.poll, s.table, s.clean) && DbAfter(env, s, a) == s.db)
    ensures QuietPartsInv(env, s, a)
  {
    if PollAction(a) { PollStepQuiet(env, s, a); } else { OtherStepQuiet(env, s, a); }
  }

  lemma NextKeepsQuiet(env: Env, s: State, a: Action)
    requires BuildsInv(env, s) && WorkerInv(env, s) && Enabled(env, s, a)
    requires s.quiet ==> QuietInv(s.db, s.poll, s.table, s.clean)
    ensures a.PollList? || (s.quiet && DbAfter(env, s, a) == s.db) ==> QuietPartsInv(env, s, a)
  {
    if a.PollList? || (s.quiet && DbAfter(env, s, a) == s.db) { StillQuiet(env, s, a); }
  }

  lemma StillQuiet(env: Env, s: State, a: Action)
    requires BuildsInv(env, s) && WorkerInv(env, s) && Enabled(env, s, a)
    requires a.PollList? || (QuietInv(s.db, s.poll, s.table, s.clean) && DbAfter(env, s, a) == s.db)
    ensures QuietPartsInv(env, s, a)
  {
    if PollAction(a) { PollActionIsPoll(env, s, a); }
    NextKeepsQuietParts(env, s, a);
  }

  lemma RemovalKeepsSyncing(db: Db, feed: seq<Feed>, table: Table)
    requires SyncingInv(db, feed, |feed|, table, true)
    ensures SyncingInv(db, feed, |feed|, table - Unwanted(table, feed), true)
  {
    var after := table - Unwanted(table, feed);
    forall j | 0 <= j < |feed|
      ensures Unchanged(after, Wants(feed)[j])
    {
      assert Unchanged(table, Wants(feed)[j]) && Wanted(Wants(feed), Wants(feed)[j].name);
    }
  }

  /** A table that holds the whole list and nothing else is what the store asks for. */
  lemma ListedIsConverged(db: Db, feed: seq<Feed>, table: Table)
    requires SyncingInv(db, feed, |feed|, table, true) && Unwanted(table, feed) == {}
    ensures Converged(db, table)
  {
    forall n | n in table
      ensures Publishes(db, n, table[n].app.imageRef)
    {
      assert n !in Unwanted(table, feed);
      var j :| 0 <= j < |Wants(feed)| && Wants(feed)[j].name == n;
      assert Unchanged(table, Wants(feed)[j]);
    }
    forall id | id in db.applications && Due(db, db.applications[id])
      ensures db.applications[id].name in table
    {
      var j :| 0 <= j < |feed| && feed[j].name == db.applications[id].name;
      assert Unchanged(table, Wants(feed)[j]);
    }
  }

  /**
    When the store has not changed since the poll began and no query or pull failed, the end of the
    sync leaves every workerpool application that is due, and only such, each with its newest succeeded build.
  */
  lemma QuietSyncConverges(env: Env, s: State, a: Action)
    requires WorkerInv(env, s) && Enabled(env, s, a) && EndsSync(s, a)
    requires s.quiet && s.clean && QuietInv(s.db, s.poll, s.table, s.clean)
    ensures Next(env, s, a).db == s.db && Converged(s.db, Next(env, s, a).table)
  {
    var feed := s.poll.feed;
    WorkerLeavesOthers(env, s, a);
    assert |feed| == |s.poll.os|;
    if a.SyncRemove? {
      var after := s.table - Unwanted(s.table, feed);
      RemovalKeepsSyncing(s.db, feed, s.table);
      assert Unwanted(after, feed) == {};
      ListedIsConverged(s.db, feed, after);
    } else {
      ListedIsConverged(s.db, feed, s.table);
    }
  }
}
