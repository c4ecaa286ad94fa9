/**
  String helpers standing for the parts of Go's `strings`/`sort` and Rust's `str`
  that the program calls.  A `string` is read as a sequence of bytes.
*/
module Strings {
  import opened Wrappers

  predicate HasPrefix(s: string, p: string) {
    |p| <= |s| && s[..|p|] == p
  }

  predicate HasSuffix(s: string, p: string) {
    |p| <= |s| && s[|s| - |p|..] == p
  }

  /** `p` occurs in `s` at position `k`. */
  predicate OccursAt(s: string, p: string, k: nat) {
    k + |p| <= |s| && s[k..k + |p|] == p
  }

  /** Position of the first occurrence of `p` at or after `from`. */
  function Find(s: string, p: string, from: nat := 0): (r: Option<nat>)
    requires from <= |s|
    ensures r.Some? ==> from <= r.value && OccursAt(s, p, r.value)
    ensures r.Some? ==> forall k: nat :: from <= k < r.value ==> !OccursAt(s, p, k)
    ensures r.None? ==> forall k: nat :: from <= k ==> !OccursAt(s, p, k)
    decreases |s| - from
  {
    if OccursAt(s, p, from) then Some(from)
    else if from == |s| then None
    else Find(s, p, from + 1)
  }

  predicate Contains(s: string, p: string) {
    Find(s, p).Some?
  }

  /** Position of the first `c`, or of the end of the string. */
  function FirstIndex(s: string, c: char): (i: nat)
    ensures i <= |s| && c !in s[..i]
    ensures i < |s| ==> s[i] == c
    ensures i == |s| ==> c !in s
  {
    if s == [] then 0
    else if s[0] == c then 0
    else
      var i := 1 + FirstIndex(s[1..], c);
      assert s[..i] == [s[0]] + s[1..][..i - 1];
      i
  }

  /** Position just after the last `c`; 0 when there is none. */
  function AfterLast(s: string, c: char): (i: nat)
    ensures i <= |s| && c !in s[i..]
    ensures i > 0 ==> s[i - 1] == c
    ensures i == 0 ==> c !in s
  {
    if s == [] then 0
    else if s[|s| - 1] == c then |s|
    else
      var t := s[..|s| - 1];
      var i := AfterLast(t, c);
      assert s[i..] == t[i..] + [s[|s| - 1]];
      i
  }

  lemma Associate<T>(x: seq<T>, y: seq<T>, z: seq<T>)
    ensures x + (y + z) == (x + y) + z
  {
  }

  // ---------- leaving characters out ----------

  /** The string without the characters to drop. */
  function Without(drop: char -> bool, s: string): (r: string)
    ensures |r| <= |s|
  {
    if s == "" then "" else (if drop(s[0]) then "" else [s[0]]) + Without(drop, s[1..])
  }

  lemma {:induction false} WithoutConcat(drop: char -> bool, a: string, b: string)
    ensures Without(drop, a + b) == Without(drop, a) + Without(drop, b)
  {
    if a == "" {
      assert a + b == b;
    } else {
      assert (a + b)[0] == a[0] && (a + b)[1..] == a[1..] + b;
      WithoutConcat(drop, a[1..], b);
      Associate(if drop(a[0]) then "" else [a[0]], Without(drop, a[1..]), Without(drop, b));
    }
  }

  lemma {:induction false} NothingToDrop(drop: char -> bool, s: string)
    requires forall i :: 0 <= i < |s| ==> !drop(s[i])
    ensures Without(drop, s) == s
  {
    if s != "" {
      NothingToDrop(drop, s[1..]);
    }
  }

  // ---------- byte-wise lexicographic order ----------

  predicate LexLe(a: string, b: string) {
    a == [] || (b != [] && (a[0] < b[0] || (a[0] == b[0] && LexLe(a[1..], b[1..]))))
  }

  lemma LexLeRefl(a: string)
    ensures LexLe(a, a)
  {
  }

  lemma {:induction false} LexLeTotal(a: string, b: string)
    ensures LexLe(a, b) || LexLe(b, a)
  {
    if a != [] && b != [] && a[0] == b[0] {
      LexLeTotal(a[1..], b[1..]);
    }
  }

  lemma {:induction false} LexLeAntisym(a: string, b: string)
    requires LexLe(a, b) && LexLe(b, a)
    ensures a == b
  {
    if a != [] {
      LexLeAntisym(a[1..], b[1..]);
      assert a == [a[0]] + a[1..] && b == [b[0]] + b[1..];
    }
  }

  lemma {:induction false} LexLeTrans(a: string, b: string, c: string)
    requires LexLe(a, b) && LexLe(b, c)
    ensures LexLe(a, c)
  {
    if a != [] && a[0] == b[0] == c[0] {
      LexLeTrans(a[1..], b[1..], c[1..]);
    }
  }

  // ---------- sorting by a string key: sort.Strings and sort.Slice on a name ----------

  /** In key order, no key twice. */
  ghost predicate SortedBy<T>(key: T -> string, s: seq<T>) {
    forall i, j :: 0 <= i < j < |s| ==> LexLe(key(s[i]), key(s[j])) && key(s[i]) != key(s[j])
  }

  lemma FirstIn<T>(s: seq<T>)
    requires s != []
    ensures exists x :: x in s
  {
    assert s[0] in s;
  }

  /** A strictly sorted sequence is determined by its set of elements. */
  lemma {:induction false} SortedUnique<T(!new)>(key: T -> string, a: seq<T>, b: seq<T>)
    requires SortedBy(key, a) && SortedBy(key, b)
    requires forall x :: x in a <==> x in b
    ensures a == b
  {
    if a == [] {
      if b != [] {
        FirstIn(b);
        assert false;
      }
    } else {
      assert a[0] in b;
      assert b != [] && b[0] in a;
      var i :| 0 <= i < |b| && b[i] == a[0];
      var j :| 0 <= j < |a| && a[j] == b[0];
      if i != 0 && j != 0 { LexLeAntisym(key(a[0]), key(b[0])); }
      assert a[0] == b[0];
      forall x
        ensures x in a[1..] <==> x in b[1..]
      {
        assert a == [a[0]] + a[1..] && b == [b[0]] + b[1..];
        if x in a[1..] { assert x in b; }
        if x in b[1..] { assert x in a; }
      }
      SortedUnique(key, a[1..], b[1..]);
      assert a == [a[0]] + a[1..] && b == [b[0]] + b[1..];
    }
  }

  /** One more element in its place. */
  function Insert<T(!new)>(key: T -> string, s: seq<T>, x: T): (out: seq<T>)
    requires SortedBy(key, s) && forall i :: 0 <= i < |s| ==> key(s[i]) != key(x)
    ensures SortedBy(key, out)
    ensures forall y :: y in out <==> y in s || y == x
  {
    if s == [] then [x]
    else if LexLe(key(x), key(s[0])) then
      InsertInFront(key, s, x);
      [x] + s
    else
      LexLeTotal(key(s[0]), key(x));
      var rest := Insert(key, s[1..], x);
      InsertBehind(key, s, x, rest);
      [s[0]] + rest
  }

  lemma InsertInFront<T(!new)>(key: T -> string, s: seq<T>, x: T)
    requires SortedBy(key, s) && s != [] && LexLe(key(x), key(s[0]))
    requires forall i :: 0 <= i < |s| ==> key(s[i]) != key(x)
    ensures SortedBy(key, [x] + s)
    ensures forall y :: y in [x] + s <==> y in s || y == x
  {
    forall i | 0 <= i < |s|
      ensures LexLe(key(x), key(s[i]))
    {
      if i > 0 { LexLeTrans(key(x), key(s[0]), key(s[i])); }
    }
  }

  lemma InsertBehind<T(!new)>(key: T -> string, s: seq<T>, x: T, rest: seq<T>)
    requires SortedBy(key, s) && s != [] && SortedBy(key, rest) && LexLe(key(s[0]), key(x)) && key(s[0]) != key(x)
    requires forall y :: y in rest <==> y in s[1..] || y == x
    ensures SortedBy(key, [s[0]] + rest)
    ensures forall y :: y in [s[0]] + rest <==> y in s || y == x
  {
    assert s == [s[0]] + s[1..];
    forall i | 0 <= i < |rest|
      ensures LexLe(key(s[0]), key(rest[i])) && key(s[0]) != key(rest[i])
    {
      assert rest[i] in rest;
      if rest[i] != x {
        var j :| 0 <= j < |s[1..]| && s[1..][j] == rest[i];
        assert rest[i] == s[j + 1];
      }
    }
  }

  function Self(s: string): string {
    s
  }

  /** The elements of a set of names in order; the result does not depend on how they are picked. */
  ghost function SortedNames(names: set<string>): (s: seq<string>)
    ensures SortedBy(Self, s)
    ensures forall n :: n in s <==> n in names
  {
    if names == {} then []
    else
      var n :| n in names;
      var s := SortedNames(names - {n});
      assert forall i :: 0 <= i < |s| ==> s[i] in s;
      Insert(Self, s, n)
  }

  /** The names of a map, collected in whatever order iteration yields them and sorted. */
  method SortedKeys<V>(m: map<string, V>) returns (names: seq<string>)
    ensures names == SortedNames(m.Keys)
  {
    names := [];
    var todo := m.Keys;
    while todo != {}
      invariant todo <= m.Keys
      invariant SortedBy(Self, names)
      invariant forall n :: n in names <==> n in m && n !in todo
      decreases todo
    {
      var n :| n in todo;
      assert forall i :: 0 <= i < |names| ==> names[i] in names;
      names := Insert(Self, names, n);
      todo := todo - {n};
    }
    SortedUnique(Self, names, SortedNames(m.Keys));
  }
}
