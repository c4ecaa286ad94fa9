/** A store that stands still: once the worker serves what it asks for, later polls pull nothing and change nothing. */
module Steady {
  import opened Wrappers
  import opened Store
  import opened Loader
  import opened Router
  import opened Protocol
  import opened Builds
  import opened WorkerSafety
  import opened Convergence
  import opened Theorems

  /** No two builds of an application have the same stamp. */
  ghost predicate NoTies(db: Db) {
    forall id, b, c :: b in BuildsOf(db, id) && c in BuildsOf(db, id) && db.builds[b].createdAt == db.builds[c].createdAt ==> b == c
  }

  /** The store leaves no choice: at most one build is the newest succeeded one, and it is certainly listed. */
  ghost predicate Decided(db: Db) {
    (forall id, b, c :: Latest(db, id, b) && Latest(db, id, c) ==> b == c) &&
    (forall id, b :: Latest(db, id, b) ==> InWindow(db, id))
  }

  lemma NoTiesDecide(db: Db)
    requires NoTies(db)
    ensures Decided(db)
  {
    forall id, b | Latest(db, id, b)
      ensures InWindow(db, id)
    {
      assert AtLeastAsNew(db, id, b) == StrictlyNewer(db, id, b);
    }
  }

  ghost predicate OneTenant(db: Db) {
    forall id :: id in db.applications ==> db.applications[id].tenantID == TENANT
  }

  lemma OneImage(db: Db, name: string, image: string, other: string)
    requires UniqueNames(db) && Decided(db) && OneTenant(db)
    requires Publishes(db, name, image) && Publishes(db, name, other)
    ensures image == other
  {
    var id, b :| PublishesBy(db, name, image, id, b);
    var id', c :| PublishesBy(db, name, other, id', c);
    assert SameName(db.applications[id], db.applications[id']);
  }

  lemma PublishedIsDue(db: Db, name: string, image: string) returns (id: string)
    requires Decided(db) && KeysMatch(db) && Publishes(db, name, image)
    ensures id in db.applications && db.applications[id].name == name && Due(db, db.applications[id])
  {
    var b;
    id, b :| PublishesBy(db, name, image, id, b);
  }

  /** A converged table has what a sound list asks for next. */
  lemma NothingToPull(db: Db, table: Table, p: Poll)
    requires ValidDb(db) && Decided(db) && OneTenant(db)
    requires Converged(db, table) && p.Adding? && |p.os| < |p.feed| && SoundFeed(db, p.feed)
    ensures CurrentUnchanged(table, p)
  {
    var f := p.feed[|p.os|];
    var id := PublishedIsDue(db, f.name, f.imageRef);
    assert f.name in table;
    OneImage(db, f.name, f.imageRef, table[f.name].app.imageRef);
  }

  /** It has nothing that a complete list does not name. */
  lemma NothingToDrop(db: Db, table: Table, feed: seq<Feed>)
    requires ValidDb(db) && Decided(db) && Converged(db, table) && CompleteFeed(db, feed)
    ensures Unwanted(table, feed) == {}
  {
    forall n | n in table
      ensures Wanted(Wants(feed), n)
    {
      var id := PublishedIsDue(db, n, table[n].app.imageRef);
      var j :| 0 <= j < |feed| && feed[j].name == n;
      assert Wants(feed)[j].name == n;
    }
  }

  /** The poll has found nothing to pull or to drop. */
  predicate Resting(p: Poll) {
    p.Idle? || p.Listing? || p.Adding?
  }

  lemma QuietFeed(db: Db, table: Table, p: Poll)
    requires p.Adding? && QuietInv(db, p, table, true)
    ensures SoundFeed(db, p.feed) && CompleteFeed(db, p.feed)
  {
  }

  lemma LookRests(db: Db, table: Table, p: Poll)
    requires ValidDb(db) && Decided(db) && OneTenant(db) && Converged(db, table)
    requires p.Adding? && |p.os| < |p.feed| && SoundFeed(db, p.feed)
    ensures PollNext(table, p, SyncLook).Adding?
  {
    NothingToPull(db, table, p);
    PassGoesOn(table, p);
  }

  lemma PassGoesOn(table: Table, p: Poll)
    requires p.Adding? && |p.os| < |p.feed| && CurrentUnchanged(table, p)
    ensures PollNext(table, p, SyncLook).Adding?
  {
  }

  lemma ScanRests(db: Db, table: Table, p: Poll)
    requires ValidDb(db) && Decided(db) && Converged(db, table) && p.Adding? && CompleteFeed(db, p.feed)
    ensures PollNext(table, p, SyncScan).Idle?
  {
    NothingToDrop(db, table, p.feed);
  }

  /** Where a resting poll can go: only a look or a scan could leave its rest. */
  lemma RestingSteps(s: State, a: Action)
    requires Resting(s.poll) && PollEnabled(s, a)
    ensures !a.SyncPull? && !a.SyncInsert? && !a.SyncRemove? && PollTable(s.table, s.poll, a) == s.table
    ensures !a.SyncLook? && !a.SyncScan? ==> Resting(PollNext(s.table, s.poll, a))
    ensures a.SyncLook? ==> s.poll.Adding? && |s.poll.os| < |s.poll.feed|
    ensures a.SyncScan? ==> s.poll.Adding?
  {
  }

  /** One step of the worker against a store that asks for what is in the table. */
  lemma PollRests(db: Db, s: State, a: Action)
    requires ValidDb(db) && Decided(db) && OneTenant(db)
    requires Converged(db, s.table) && Resting(s.poll) && QuietInv(db, s.poll, s.table, true) && PollEnabled(s, a)
    ensures !a.SyncPull? && Resting(PollNext(s.table, s.poll, a)) && PollTable(s.table, s.poll, a) == s.table
  {
    RestingSteps(s, a);
    if a.SyncLook? {
      QuietFeed(db, s.table, s.poll);
      LookRests(db, s.table, s.poll);
    } else if a.SyncScan? {
      QuietFeed(db, s.table, s.poll);
      ScanRests(db, s.table, s.poll);
    }
  }

  lemma StepRests(env: Env, s: State, a: Action)
    requires Inv(env, s) && Enabled(env, s, a) && s.quiet && s.clean && Decided(s.db)
    requires Converged(s.db, s.table) && Resting(s.poll)
    ensures !a.SyncPull? && Resting(PollNext(s.table, s.poll, a)) && PollTable(s.table, s.poll, a) == s.table
  {
    if PollAction(a) {
      PollActionIsPoll(env, s, a);
      PollRests(s.db, s, a);
    } else {
      OthersLeaveWorker(s, a);
    }
  }

  /** The worker rests with this table. */
  ghost predicate Rests(s: State, table: Table) {
    s.table == table && Resting(s.poll)
  }

  lemma RestsAt(env: Env, ss: seq<State>, acts: seq<Action>, m: nat, table: Table)
    requires Execution(env, ss, acts) && m < |acts| && Rests(ss[m], table) && ss[m].quiet && ss[m].clean
    requires Decided(ss[m].db) && Converged(ss[m].db, table)
    ensures !acts[m].SyncPull? && Rests(ss[m + 1], table)
  {
    InvHolds(env, ss, acts, m);
    assert StepsAt(env, ss, acts, m);
    StepRests(env, ss[m], acts[m]);
  }

  lemma EndedIsIdle(env: Env, ss: seq<State>, acts: seq<Action>, i: nat)
    requires Execution(env, ss, acts) && i < |acts| && EndsSync(ss[i], acts[i])
    ensures ss[i + 1].poll.Idle?
  {
    InvHolds(env, ss, acts, i);
    assert StepsAt(env, ss, acts, i);
    SyncIsAtomic(env, ss[i], acts[i]);
  }

  /** From step `k`, the start of a poll, up to point `m` the store stands still and nothing the worker asks for fails. */
  ghost predicate Still(ss: seq<State>, acts: seq<Action>, k: nat, m: nat) {
    k < m < |ss| && m <= |acts| && acts[k].PollList?
    && (forall l :: k <= l <= m ==> ss[l].db == ss[k].db)
    && (forall l :: k <= l < m ==> NoFailure(ss[l], acts[l]))
  }

  lemma RestGoesOn(env: Env, ss: seq<State>, acts: seq<Action>, k: nat, m: nat, table: Table)
    requires Execution(env, ss, acts) && m < |acts| && Still(ss, acts, k, m)
    requires Decided(ss[k].db) && Converged(ss[k].db, table) && Rests(ss[m], table)
    ensures !acts[m].SyncPull? && Rests(ss[m + 1], table)
  {
    StillStoreIsQuiet(env, ss, acts, k, m);
    RestsAt(env, ss, acts, m, table);
  }

  lemma {:induction false} RestsAlong(env: Env, ss: seq<State>, acts: seq<Action>, k: nat, i: nat, m: nat, table: Table)
    requires Execution(env, ss, acts) && k < i <= m && Still(ss, acts, k, m)
    requires Decided(ss[k].db) && Converged(ss[k].db, table) && Rests(ss[i], table)
    ensures Rests(ss[m], table)
  {
    if i < m {
      RestsAlong(env, ss, acts, k, i, m - 1, table);
      RestGoesOn(env, ss, acts, k, m - 1, table);
    }
  }

  /**
    If the store does not change from the start of a poll on, it leaves no choice, and no query or pull fails, then once
    that poll's sync has ended no later step pulls anything, and the table stays as it is, however many polls follow.
  */
  lemma LaterPollsAreFree(env: Env, ss: seq<State>, acts: seq<Action>, k: nat, i: nat, m: nat)
    requires Execution(env, ss, acts) && k < i < m < |acts| && EndsSync(ss[i], acts[i])
    requires Still(ss, acts, k, m) && Decided(ss[k].db)
    ensures !acts[m].SyncPull? && ss[m + 1].table == ss[i + 1].table
  {
    StillStoreConverges(env, ss, acts, k, i);
    EndedIsIdle(env, ss, acts, i);
    assert ss[i + 1].db == ss[k].db;
    RestsAlong(env, ss, acts, k, i + 1, m, ss[i + 1].table);
    RestGoesOn(env, ss, acts, k, m, ss[i + 1].table);
  }
}
