/** The worker's routing table and its reconciliation: services/worker/src/router.rs. */
module Router {
  import opened Wrappers
  import opened Loader
  import Routes

  /** One application the control plane wants served. */
  datatype Want = Want(name: string, imageRef: string)

  type Table = map<string, AppEntry>

  /** The read-lock test of `sync`: the entry for this name already has this image. */
  predicate Unchanged(t: Table, w: Want) {
    w.name in t && t[w.name].app.imageRef == w.imageRef
  }

  /** One round of the first loop; `o` is what a pull would meet. */
  function SyncOne(t: Table, w: Want, o: Outside): Table {
    if Unchanged(t, w) then t
    else
      match Load(w.name, w.imageRef, o)
      case Ok(entry) => t[w.name := entry]
      case Err(_) => t
  }

  /** The first loop over the whole list; `os[i]` is what a pull for `want[i]` would meet. */
  function SyncAll(t: Table, want: seq<Want>, os: seq<Outside>): Table
    requires |os| == |want|
  {
    if want == [] then t
    else
      var n := |want| - 1;
      SyncOne(SyncAll(t, want[..n], os[..n]), want[n], os[n])
  }

  predicate Wanted(want: seq<Want>, name: string) {
    exists i :: 0 <= i < |want| && want[i].name == name
  }

  /** What one `sync` leaves behind. */
  function Synced(t: Table, want: seq<Want>, os: seq<Outside>): Table
    requires |os| == |want|
  {
    var u := SyncAll(t, want, os);
    map n | n in u && Wanted(want, n) :: u[n]
  }

  /** How many pulls the first loop starts. */
  function Pulls(t: Table, want: seq<Want>, os: seq<Outside>): nat
    requires |os| == |want|
  {
    if want == [] then 0
    else
      var n := |want| - 1;
      Pulls(t, want[..n], os[..n]) + if Unchanged(SyncAll(t, want[..n], os[..n]), want[n]) then 0 else 1
  }

  /** Each entry is complete and the one of its name. */
  ghost predicate WholeTable(t: Table) {
    forall n :: n in t ==> Whole(t[n]) && t[n].app.name == n
  }

  lemma {:induction false} SyncAllKeepsWhole(t: Table, want: seq<Want>, os: seq<Outside>)
    requires |os| == |want| && WholeTable(t)
    ensures WholeTable(SyncAll(t, want, os))
  {
    if want != [] {
      var n := |want| - 1;
      SyncAllKeepsWhole(t, want[..n], os[..n]);
      if Load(want[n].name, want[n].imageRef, os[n]).Ok? { LoadIsWhole(want[n].name, want[n].imageRef, os[n]); }
    }
  }

  class Router {
    var apps: Table

    ghost predicate Valid()
      reads this
    {
      WholeTable(apps)
    }

    constructor ()
      ensures Valid() && apps == map[]
    {
      apps := map[];
    }

    /** `get`: a snapshot of one entry, taken under one read lock; the entry is the whole one of that name. */
    method Get(name: string) returns (r: Option<AppEntry>)
      requires Valid()
      ensures r.Some? <==> name in apps
      ensures r.Some? ==> r.value == apps[name] && r.value.app.name == name && Whole(r.value)
    {
      r := if name in apps then Some(apps[name]) else None;
    }

    /** `dispatch` of server.rs up to the call of the guest; after the first line the table may change. */
    method Serve(name: string, innerPath: string) returns (d: Dispatched)
      requires Valid()
      ensures Serves(apps, name, innerPath, d)
      ensures d == Dispatch(apps, name, innerPath)
    {
      var e := Get(name);
      DispatchServesIff(apps, name, innerPath, Dispatch(apps, name, innerPath));
      if e.None? { return NoSuchApp; }
      var found := Routes.Resolve(e.value.app.triggers, innerPath);
      if found.None? { return NoRoute; }
      var (component, rest) := found.value;
      if component !in e.value.components { return NotCompiled(component); }
      return Invoke(e.value.components[component], rest);
    }

    /** Reconciles the table with the wanted list. */
    method Sync(want: seq<Want>, os: seq<Outside>) returns (pulls: nat)
      requires Valid() && |os| == |want|
      modifies this
      ensures Valid() && apps == Synced(old(apps), want, os)
      ensures pulls == Pulls(old(apps), want, os)
    {
      ghost var before := apps;
      pulls := 0;
      for i := 0 to |want|
        invariant apps == SyncAll(before, want[..i], os[..i])
        invariant pulls == Pulls(before, want[..i], os[..i])
      {
        var w := want[i];
        assert want[..i + 1][..i] == want[..i] && os[..i + 1][..i] == os[..i];
        if !(w.name in apps && apps[w.name].app.imageRef == w.imageRef) {
          pulls := pulls + 1;
          var r := PullAndCompile(w.name, w.imageRef, os[i]);
          if r.Ok? {
            apps := apps[w.name := r.value];
          }
        }
      }
      assert want[..|want|] == want && os[..|os|] == os;
      ghost var added := apps;
      var names := set n | n in apps && !Wanted(want, n);
      while names != {}
        invariant names == set n | n in apps && !Wanted(want, n)
        invariant apps.Keys <= added.Keys
        invariant forall n :: n in added && Wanted(want, n) ==> n in apps
        invariant forall n :: n in apps ==> apps[n] == added[n]
        decreases names
      {
        var n :| n in names;
        apps := apps - {n};
        names := names - {n};
      }
      assert forall n :: n in apps ==> Wanted(want, n) by {
        assert forall n :: n in apps && !Wanted(want, n) ==> n in names;
      }
      assert apps == Synced(before, want, os);
      SyncAllKeepsWhole(before, want, os);
    }
  }

  // ---------- names the list mentions once ----------

  ghost predicate DistinctNames(want: seq<Want>) {
    forall i, j :: 0 <= i < j < |want| ==> want[i].name != want[j].name
  }

  /** What one `sync` makes of the entry of a wanted application, whatever happens to the others. */
  function Settled(t: Table, w: Want, o: Outside): Option<AppEntry> {
    if Unchanged(t, w) then Some(t[w.name])
    else
      match Load(w.name, w.imageRef, o)
      case Ok(entry) => Some(entry)
      case Err(_) => if w.name in t then Some(t[w.name]) else None
  }

  function Lookup(t: Table, name: string): Option<AppEntry> {
    if name in t then Some(t[name]) else None
  }

  /** Names outside the list are untouched by the first loop. */
  lemma {:induction false} OthersUntouched(t: Table, want: seq<Want>, os: seq<Outside>, name: string)
    requires |os| == |want| && !Wanted(want, name)
    ensures Lookup(SyncAll(t, want, os), name) == Lookup(t, name)
  {
    if want != [] {
      var n := |want| - 1;
      assert want[n].name != name;
      assert forall i :: 0 <= i < n ==> want[..n][i] == want[i];
      OthersUntouched(t, want[..n], os[..n], name);
    }
  }

  lemma {:induction false} EachSettles(t: Table, want: seq<Want>, os: seq<Outside>, i: nat)
    requires |os| == |want| && DistinctNames(want) && i < |want|
    ensures Lookup(SyncAll(t, want, os), want[i].name) == Settled(t, want[i], os[i])
  {
    var n := |want| - 1;
    var u := SyncAll(t, want[..n], os[..n]);
    if i < n {
      EachSettles(t, want[..n], os[..n], i);
      assert want[n].name != want[i].name;
    } else {
      assert !Wanted(want[..n], want[n].name);
      OthersUntouched(t, want[..n], os[..n], want[n].name);
    }
  }

  /**
    With unique names the final table is a function of the old table, the list and the pull
    outcomes, application by application: an unchanged image is kept, a successful pull replaces,
    a failed pull keeps what was there, and what is not wanted goes.
  */
  lemma SyncedClosedForm(t: Table, want: seq<Want>, os: seq<Outside>)
    requires |os| == |want| && DistinctNames(want)
    ensures forall i :: 0 <= i < |want| ==> Lookup(Synced(t, want, os), want[i].name) == Settled(t, want[i], os[i])
    ensures forall name :: !Wanted(want, name) ==> name !in Synced(t, want, os)
  {
    forall i | 0 <= i < |want|
      ensures Lookup(Synced(t, want, os), want[i].name) == Settled(t, want[i], os[i])
    {
      EachSettles(t, want, os, i);
      assert Wanted(want, want[i].name);
    }
  }

  /** Every wanted pull succeeds. */
  ghost predicate AllLoad(want: seq<Want>, os: seq<Outside>)
    requires |os| == |want|
  {
    forall i :: 0 <= i < |want| ==> Load(want[i].name, want[i].imageRef, os[i]).Ok?
  }

  ghost predicate Agrees(t: Table, want: seq<Want>) {
    (forall i :: 0 <= i < |want| ==> Unchanged(t, want[i])) &&
    (forall name :: name in t ==> Wanted(want, name))
  }

  /** When every pull succeeds the table agrees with the list. */
  lemma SyncConverges(t: Table, want: seq<Want>, os: seq<Outside>)
    requires |os| == |want| && DistinctNames(want) && AllLoad(want, os)
    ensures Agrees(Synced(t, want, os), want)
  {
    SyncedClosedForm(t, want, os);
    forall i | 0 <= i < |want|
      ensures Unchanged(Synced(t, want, os), want[i])
    {
      LoadIsWhole(want[i].name, want[i].imageRef, os[i]);
      assert Lookup(Synced(t, want, os), want[i].name) == Settled(t, want[i], os[i]);
    }
  }

  /** A table that agrees with the list is left alone and nothing is pulled. */
  lemma {:induction false} AgreementIsStable(t: Table, want: seq<Want>, os: seq<Outside>)
    requires |os| == |want| && forall i :: 0 <= i < |want| ==> Unchanged(t, want[i])
    ensures SyncAll(t, want, os) == t && Pulls(t, want, os) == 0
  {
    if want != [] {
      var n := |want| - 1;
      AgreementIsStable(t, want[..n], os[..n]);
    }
  }

  /** A second `sync` of the same list, after one in which every pull succeeded, pulls nothing and changes nothing. */
  lemma SecondSyncIsFree(t: Table, want: seq<Want>, os: seq<Outside>, os': seq<Outside>)
    requires |os| == |want| == |os'| && DistinctNames(want) && AllLoad(want, os)
    ensures var u := Synced(t, want, os); Pulls(u, want, os') == 0 && Synced(u, want, os') == u
  {
    SyncConverges(t, want, os);
    AgreementIsStable(Synced(t, want, os), want, os');
  }

  /** Only what agrees can be synced for free: no pull means every wanted image was already there. */
  lemma {:induction false} FreeSyncAgrees(t: Table, want: seq<Want>, os: seq<Outside>)
    requires |os| == |want| && Pulls(t, want, os) == 0
    ensures SyncAll(t, want, os) == t && forall i :: 0 <= i < |want| ==> Unchanged(t, want[i])
  {
    if want != [] {
      var n := |want| - 1;
      FreeSyncAgrees(t, want[..n], os[..n]);
      forall i | 0 <= i < |want|
        ensures Unchanged(t, want[i])
      {
        if i < n { assert want[..n][i] == want[i]; }
      }
    }
  }

  /** The first loop never drops an entry: each is the old one or one freshly loaded for its own name. */
  lemma {:induction false} FirstLoopNeverDrops(t: Table, want: seq<Want>, os: seq<Outside>, name: string)
    requires |os| == |want| && name in t
    ensures name in SyncAll(t, want, os)
    ensures SyncAll(t, want, os)[name] == t[name] ||
      exists i :: 0 <= i < |want| && want[i].name == name && Load(name, want[i].imageRef, os[i]) == Ok(SyncAll(t, want, os)[name])
  {
    if want != [] {
      var n := |want| - 1;
      FirstLoopNeverDrops(t, want[..n], os[..n], name);
      var before := SyncAll(t, want[..n], os[..n]);
      if before[name] != t[name] {
        var i :| 0 <= i < n && want[..n][i].name == name && Load(name, want[..n][i].imageRef, os[..n][i]) == Ok(before[name]);
        assert want[i].name == name && Load(name, want[i].imageRef, os[i]) == Ok(before[name]);
      }
    }
  }
}
