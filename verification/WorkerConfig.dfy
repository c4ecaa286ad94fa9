/** GET /api/v1/worker-config: internal/httpapi/worker.go, against a store nobody else writes meanwhile. */
module WorkerConfig {
  import opened Wrappers
  import opened Store
  import opened Protocol
  import opened Builds
  import opened WorkerSafety
  import opened Convergence
  import opened Sqlite
  import Router

  /** The early-exit scan over the 30 newest builds; "" stands for none. */
  method LatestSuccessfulImage(store: SqliteStore, appID: string, unreadable: bool) returns (found: Option<Build>)
    requires ValidDb(store.View())
    ensures found.Some? ==> !unreadable && Latest(store.View(), appID, found.value.id)
    ensures found.Some? ==> store.builds[found.value.id] == found.value
    ensures found.None? ==> unreadable || !InWindow(store.View(), appID)
  {
    if unreadable { return None; }
    var builds := store.ListBuilds(appID, FEED_WINDOW);
    for i := 0 to |builds|
      invariant forall j :: 0 <= j < i ==> builds[j].status != Succeeded
    {
      if builds[i].status == Succeeded {
        FirstIsTheFirst(builds, i);
        PickIsLatest(store.View(), appID, builds);
        NewestOfList(store.View(), appID, FEED_WINDOW, builds);
        return Some(builds[i]);
      }
    }
    if InWindow(store.View(), appID) {
      WindowIsListed(store.View(), appID, builds);
    }
    return None;
  }

  lemma {:induction false} FirstIsTheFirst(builds: seq<Build>, i: nat)
    requires IsFirstSucceeded(builds, i)
    ensures FirstSucceeded(builds) == Some(builds[i])
  {
    if i > 0 {
      assert builds[0].status != Succeeded;
      FirstIsTheFirst(builds[1..], i - 1);
    }
  }

  /** The application is due and its builds can be read. */
  ghost predicate Listable(db: Db, unreadable: set<string>, app: Application) {
    Due(db, app) && app.id !in unreadable
  }

  ghost predicate ToServe(db: Db, unreadable: set<string>, id: string) {
    id in db.applications && db.applications[id].tenantID == TENANT && Listable(db, unreadable, db.applications[id])
  }

  /** What the entries so far say about the first `i` applications. */
  ghost predicate FeedSoFar(db: Db, unreadable: set<string>, apps: seq<Application>, i: nat, out: seq<Feed>) {
    && i <= |apps|
    && SoundFeed(db, out)
    && (forall j :: 0 <= j < |out| ==> NamedIn(apps[..i], out[j].name))
    && (forall j, k :: 0 <= j < k < |out| ==> out[j].name != out[k].name)
    && (forall j :: 0 <= j < i && Listable(db, unreadable, apps[j]) ==> InFeed(out, apps[j].name))
  }

  lemma FeedSkips(db: Db, unreadable: set<string>, apps: seq<Application>, i: nat, out: seq<Feed>)
    requires FeedSoFar(db, unreadable, apps, i, out) && i < |apps| && !Listable(db, unreadable, apps[i])
    ensures FeedSoFar(db, unreadable, apps, i + 1, out)
  {
    NamedInMonotone(apps, i, out);
  }

  lemma AppendedCovers(db: Db, unreadable: set<string>, apps: seq<Application>, i: nat, out: seq<Feed>, e: Feed)
    requires FeedSoFar(db, unreadable, apps, i, out) && i < |apps| && e.name == apps[i].name
    ensures forall j :: 0 <= j <= i && Listable(db, unreadable, apps[j]) ==> InFeed(out + [e], apps[j].name)
  {
    forall j | 0 <= j <= i && Listable(db, unreadable, apps[j])
      ensures InFeed(out + [e], apps[j].name)
    {
      InFeedGrows(out, e, apps[j].name);
    }
  }

  lemma FeedAppends(db: Db, unreadable: set<string>, apps: seq<Application>, i: nat, out: seq<Feed>, e: Feed)
    requires ValidDb(db) && IsApplicationList(db, TENANT, apps)
    requires FeedSoFar(db, unreadable, apps, i, out) && i < |apps| && e.name == apps[i].name && Publishes(db, e.name, e.imageRef)
    ensures FeedSoFar(db, unreadable, apps, i + 1, out + [e])
  {
    NamedInMonotone(apps, i, out);
    AppendedIsSound(db, out, e);
    NewNameIsNew(db, apps, i, out);
    assert NamedIn(apps[..i + 1], e.name) by { assert apps[..i + 1][i].name == e.name; }
    AppendedCovers(db, unreadable, apps, i, out, e);
  }

  lemma FeedIsComplete(db: Db, unreadable: set<string>, apps: seq<Application>, out: seq<Feed>)
    requires IsApplicationList(db, TENANT, apps) && FeedSoFar(db, unreadable, apps, |apps|, out)
    ensures forall id :: ToServe(db, unreadable, id) ==> InFeed(out, db.applications[id].name)
    ensures Router.DistinctNames(Wants(out))
  {
    forall id | ToServe(db, unreadable, id)
      ensures InFeed(out, db.applications[id].name)
    {
      var j :| 0 <= j < |apps| && apps[j].id == id;
      assert apps[j] == db.applications[id];
    }
  }

  /**
    No answer without the list of applications.  In the answer every entry is a workerpool application with its
    newest succeeded build, no name comes twice, and every application that is due appears, but for those whose
    build list could not be read.
  */
  method GetWorkerConfig(store: SqliteStore, listFails: bool, unreadable: set<string>) returns (r: Option<seq<Feed>>)
    requires ValidDb(store.View())
    ensures r.None? <==> listFails
    ensures r.Some? ==> SoundFeed(store.View(), r.value) && Router.DistinctNames(Wants(r.value))
    ensures r.Some? ==> forall id :: ToServe(store.View(), unreadable, id) ==> InFeed(r.value, store.applications[id].name)
  {
    if listFails { return None; }
    var apps := store.ListApplications(TENANT);
    var out: seq<Feed> := [];
    for i := 0 to |apps|
      invariant FeedSoFar(store.View(), unreadable, apps, i, out)
    {
      var a := apps[i];
      var found := None;
      if a.runtime == WorkerPool {
        found := LatestSuccessfulImage(store, a.id, a.id in unreadable);
      }
      if found.Some? {
        var e := Feed(a.name, found.value.imageRef, found.value.id);
        assert PublishesBy(store.View(), e.name, e.imageRef, a.id, e.build);
        FeedAppends(store.View(), unreadable, apps, i, out, e);
        out := out + [e];
      } else {
        FeedSkips(store.View(), unreadable, apps, i, out);
      }
    }
    FeedIsComplete(store.View(), unreadable, apps, out);
    return Some(out);
  }

  lemma NewNameIsNew(db: Db, apps: seq<Application>, i: nat, out: seq<Feed>)
    requires ValidDb(db) && IsApplicationList(db, TENANT, apps) && i < |apps|
    requires forall j :: 0 <= j < |out| ==> NamedIn(apps[..i], out[j].name)
    ensures forall j :: 0 <= j < |out| ==> out[j].name != apps[i].name
  {
    forall j | 0 <= j < |out|
      ensures out[j].name != apps[i].name
    {
      var k :| 0 <= k < |apps[..i]| && apps[..i][k].name == out[j].name;
      assert apps[k].id != apps[i].id;
      assert !SameName(db.applications[apps[k].id], db.applications[apps[i].id]);
    }
  }
}
