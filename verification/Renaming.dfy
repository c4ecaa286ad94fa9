/** Maps whose names are replaced: of names that become equal, the last in sort order wins. */
module Renaming {
  import opened Strings

  /** Names replaced one by one by what `key` makes of them, the last in the list winning. */
  function LastWins(key: string -> string, files: map<string, string>, names: seq<string>): map<string, string>
    requires forall n :: n in names ==> n in files
  {
    if names == [] then map[]
    else
      var n := |names| - 1;
      assert names[n] in names;
      assert forall x :: x in names[..n] ==> x in names;
      LastWins(key, files, names[..n])[key(names[n]) := files[names[n]]]
  }

  /** Every name replaced, in the order of the names. */
  ghost function Renamed(key: string -> string, files: map<string, string>): map<string, string> {
    LastWins(key, files, SortedNames(files.Keys))
  }

  lemma {:induction false} LastWinsKeys(key: string -> string, files: map<string, string>, names: seq<string>, k: string)
    requires forall n :: n in names ==> n in files
    ensures k in LastWins(key, files, names) <==> exists n :: n in names && key(n) == k
  {
    if names != [] {
      var n := |names| - 1;
      assert names[n] in names;
      assert forall x :: x in names[..n] ==> x in names;
      LastWinsKeys(key, files, names[..n], k);
      assert forall x :: x in names <==> x in names[..n] || x == names[n] by {
        assert names == names[..n] + [names[n]];
      }
    }
  }

  /** The `i`th name is the last of the list with key `k`. */
  ghost predicate LastNamed(key: string -> string, names: seq<string>, k: string, i: nat) {
    i < |names| && key(names[i]) == k && forall j :: i < j < |names| ==> key(names[j]) != k
  }

  /** A key holds the content of the last name, in the order of the list, that has it. */
  lemma {:induction false} LastWinsAt(key: string -> string, files: map<string, string>, names: seq<string>, k: string) returns (i: nat)
    requires forall n :: n in names ==> n in files
    requires k in LastWins(key, files, names)
    ensures LastNamed(key, names, k, i) && names[i] in files && LastWins(key, files, names)[k] == files[names[i]]
  {
    var n := |names| - 1;
    assert names[n] in names;
    assert forall x :: x in names[..n] ==> x in names;
    if key(names[n]) == k {
      i := n;
    } else {
      i := LastWinsAt(key, files, names[..n], k);
    }
  }

  /** Of the names with key `k`, `n` is the last in sort order. */
  ghost predicate Survives(key: string -> string, files: map<string, string>, k: string, n: string) {
    n in files && key(n) == k && forall m :: m in files && key(m) == k ==> LexLe(m, n)
  }

  lemma LastIsLatest(key: string -> string, files: map<string, string>, names: seq<string>, k: string, i: nat)
    requires LastNamed(key, names, k, i) && names[i] in files
    requires SortedBy(Self, names) && forall m :: m in files ==> m in names
    ensures Survives(key, files, k, names[i])
  {
    forall m | m in files && key(m) == k
      ensures LexLe(m, names[i])
    {
      var j :| 0 <= j < |names| && names[j] == m;
      LexLeRefl(m);
      if j < i { assert LexLe(Self(names[j]), Self(names[i])); }
    }
  }

  /** What is kept under a key is the content of the name with that key that is last in sort order. */
  lemma RenamedContent(key: string -> string, files: map<string, string>, k: string)
    ensures k in Renamed(key, files) <==> exists n :: n in files && key(n) == k
    ensures k in Renamed(key, files) ==> exists n :: Survives(key, files, k, n) && Renamed(key, files)[k] == files[n]
  {
    var names := SortedNames(files.Keys);
    LastWinsKeys(key, files, names, k);
    if k in LastWins(key, files, names) {
      var i := LastWinsAt(key, files, names, k);
      LastIsLatest(key, files, names, k, i);
    }
  }

  lemma LastWinsLast(key: string -> string, files: map<string, string>, names: seq<string>, x: string)
    requires forall n :: n in names + [x] ==> n in files
    requires forall n :: n in names ==> n in files
    requires x in files
    ensures LastWins(key, files, names + [x]) == LastWins(key, files, names)[key(x) := files[x]]
  {
    assert (names + [x])[..|names|] == names;
  }

  lemma LastWinsStep(key: string -> string, files: map<string, string>, names: seq<string>, i: nat)
    requires i < |names| && forall n :: n in names ==> n in files
    ensures names[i] in files && (forall n :: n in names[..i] ==> n in files) && forall n :: n in names[..i + 1] ==> n in files
    ensures LastWins(key, files, names[..i + 1]) == LastWins(key, files, names[..i])[key(names[i]) := files[names[i]]]
  {
    assert names[..i + 1] == names[..i] + [names[i]] && names[i] in names;
    LastWinsLast(key, files, names[..i], names[i]);
  }

  /** The names in order, each replaced. */
  method Rename(key: string -> string, files: map<string, string>) returns (r: map<string, string>)
    ensures r == Renamed(key, files)
  {
    var names := SortedKeys(files);
    r := map[];
    assert forall n :: n in names ==> n in files;
    for i := 0 to |names|
      invariant forall n :: n in names[..i] ==> n in files
      invariant r == LastWins(key, files, names[..i])
    {
      LastWinsStep(key, files, names, i);
      r := r[key(names[i]) := files[names[i]]];
    }
    assert names[..|names|] == names;
  }

  lemma {:induction false} FixedNamesStay(key: string -> string, files: map<string, string>, names: seq<string>)
    requires forall n :: n in names ==> n in files && key(n) == n
    ensures forall n :: n in LastWins(key, files, names) ==> n in files && LastWins(key, files, names)[n] == files[n]
    ensures forall i :: 0 <= i < |names| ==> names[i] in LastWins(key, files, names)
  {
    if names != [] {
      var n := |names| - 1;
      assert names[n] in names;
      assert forall x :: x in names[..n] ==> x in names;
      FixedNamesStay(key, files, names[..n]);
      assert forall i :: 0 <= i < n ==> names[i] == names[..n][i];
    }
  }

  lemma RenamedFixed(key: string -> string, files: map<string, string>)
    requires forall n :: n in files ==> key(n) == n
    ensures Renamed(key, files) == files
  {
    var names := SortedNames(files.Keys);
    FixedNamesStay(key, files, names);
    forall n | n in files
      ensures n in Renamed(key, files)
    {
      assert n in names;
    }
  }

  /** When replacing twice is replacing once, the map stays as it is exactly when each name does. */
  lemma RenamedIsItselfIff(key: string -> string, files: map<string, string>)
    requires forall n :: n in files ==> key(key(n)) == key(n)
    ensures Renamed(key, files) == files <==> forall n :: n in files ==> key(n) == n
  {
    if forall n :: n in files ==> key(n) == n {
      RenamedFixed(key, files);
    } else {
      var k :| k in files && key(k) != k;
      RenamedContent(key, files, k);
    }
  }
}
