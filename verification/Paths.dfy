/** Go's `path.Clean`, as a stack of segments. */
module Paths {
  import opened Strings

  // ---------- splitting and joining at '/' ----------

  /** The segments between slashes: one more than there are slashes. */
  function Split(s: string): (segs: seq<string>)
    ensures segs != []
    ensures forall i :: 0 <= i < |segs| ==> '/' !in segs[i]
  {
    var i := FirstIndex(s, '/');
    if i == |s| then [s] else [s[..i]] + Split(s[i + 1..])
  }

  function Join(segs: seq<string>): string {
    if segs == [] then "" else if |segs| == 1 then segs[0] else segs[0] + "/" + Join(segs[1..])
  }

  lemma JoinCons(a: string, segs: seq<string>)
    requires segs != []
    ensures Join([a] + segs) == a + "/" + Join(segs)
  {
    assert ([a] + segs)[1..] == segs;
  }

  lemma {:induction false} JoinSplit(s: string)
    ensures Join(Split(s)) == s
  {
    var i := FirstIndex(s, '/');
    if i < |s| {
      JoinSplit(s[i + 1..]);
      JoinCons(s[..i], Split(s[i + 1..]));
      AroundSlash(s, i);
    }
  }

  lemma AroundSlash(s: string, i: nat)
    requires i < |s| && s[i] == '/'
    ensures s == s[..i] + "/" + s[i + 1..]
  {
  }

  lemma FirstSlash(a: string, rest: string)
    requires '/' !in a
    ensures FirstIndex(a + "/" + rest, '/') == |a|
    ensures (a + "/" + rest)[..|a|] == a && (a + "/" + rest)[|a| + 1..] == rest
  {
    var s := a + "/" + rest;
    assert s[|a|] == '/';
    assert s[..|a|] == a;
  }

  lemma SplitCons(a: string, rest: string)
    requires '/' !in a
    ensures Split(a + "/" + rest) == [a] + Split(rest)
  {
    FirstSlash(a, rest);
  }

  lemma {:induction false} SplitJoin(segs: seq<string>)
    requires segs != [] && forall i :: 0 <= i < |segs| ==> '/' !in segs[i]
    ensures Split(Join(segs)) == segs
  {
    if |segs| == 1 {
      assert segs == [segs[0]];
    } else {
      SplitJoin(segs[1..]);
      SplitCons(segs[0], Join(segs[1..]));
      assert segs == [segs[0]] + segs[1..];
    }
  }

  // ---------- path.Clean ----------

  /** One segment: skipped, popped or pushed. */
  function Push(rooted: bool, stack: seq<string>, seg: string): seq<string> {
    if seg == "" || seg == "." then stack
    else if seg == ".." then
      if stack != [] && stack[|stack| - 1] != ".." then stack[..|stack| - 1]
      else if rooted then stack
      else stack + [".."]
    else stack + [seg]
  }

  function PushAll(rooted: bool, stack: seq<string>, segs: seq<string>): seq<string>
    decreases |segs|
  {
    if segs == [] then stack else PushAll(rooted, Push(rooted, stack, segs[0]), segs[1..])
  }

  function Clean(p: string): string {
    if p == "" then "."
    else if p[0] == '/' then "/" + Join(PushAll(true, [], Split(p)))
    else
      var stack := PushAll(false, [], Split(p));
      if stack == [] then "." else Join(stack)
  }

  /** A segment that names a file or directory of its own. */
  predicate Plain(seg: string) {
    seg != "" && seg != "." && seg != ".." && '/' !in seg
  }

  predicate AllPlain(segs: seq<string>) {
    forall i :: 0 <= i < |segs| ==> Plain(segs[i])
  }

  lemma {:induction false} PushAllPlain(stack: seq<string>, segs: seq<string>)
    requires AllPlain(stack) && forall i :: 0 <= i < |segs| ==> '/' !in segs[i]
    ensures AllPlain(PushAll(true, stack, segs))
    decreases |segs|
  {
    if segs != [] {
      PushAllPlain(Push(true, stack, segs[0]), segs[1..]);
    }
  }

  /** Plain segments pile up unchanged. */
  lemma {:induction false} PushPlain(rooted: bool, stack: seq<string>, segs: seq<string>)
    requires AllPlain(segs)
    ensures PushAll(rooted, stack, segs) == stack + segs
    decreases |segs|
  {
    if segs == [] {
      assert stack + segs == stack;
    } else {
      PushPlain(rooted, stack + [segs[0]], segs[1..]);
      Associate(stack, [segs[0]], segs[1..]);
      assert segs == [segs[0]] + segs[1..];
    }
  }

  lemma {:induction false} PushAllConcat(rooted: bool, stack: seq<string>, a: seq<string>, b: seq<string>)
    ensures PushAll(rooted, stack, a + b) == PushAll(rooted, PushAll(rooted, stack, a), b)
    decreases |a|
  {
    if a == [] {
      assert a + b == b;
    } else {
      assert (a + b)[1..] == a[1..] + b && (a + b)[0] == a[0];
      PushAllConcat(rooted, Push(rooted, stack, a[0]), a[1..], b);
    }
  }

  /** Without ".." nothing below the starting stack is touched. */
  lemma {:induction false} PushWithoutDotDot(rooted: bool, stack: seq<string>, segs: seq<string>)
    requires ".." !in segs
    ensures PushAll(rooted, stack, segs) == stack + PushAll(true, [], segs)
    decreases |segs|
  {
    if segs == [] {
      assert stack + [] == stack;
    } else {
      assert segs[0] in segs && segs[0] != "..";
      assert forall x :: x in segs[1..] ==> x in segs;
      var kept := Push(true, [], segs[0]);
      PushOnTop(rooted, stack, segs[0]);
      PushWithoutDotDot(rooted, stack + kept, segs[1..]);
      PushWithoutDotDot(true, kept, segs[1..]);
      Associate(stack, kept, PushAll(true, [], segs[1..]));
    }
  }

  lemma PushOnTop(rooted: bool, stack: seq<string>, seg: string)
    requires seg != ".."
    ensures Push(rooted, stack, seg) == stack + Push(true, [], seg)
  {
  }

  // ---------- the name an archive entry gets ----------

  /** The segments of path.Clean("/" + name). */
  function Canon(name: string): (segs: seq<string>)
    ensures AllPlain(segs)
  {
    PushAllPlain([], Split(name));
    PushAll(true, [], Split(name))
  }

  /** strings.TrimPrefix(path.Clean("/" + name), "/"). */
  function EntryName(name: string): string {
    Join(Canon(name))
  }

  lemma CleanRooted(name: string)
    ensures Clean("/" + name) == "/" + EntryName(name)
  {
    SplitCons("", name);
    assert "" + "/" + name == "/" + name;
    assert ([""] + Split(name))[1..] == Split(name);
    assert PushAll(true, [], [""] + Split(name)) == PushAll(true, Push(true, [], ""), Split(name));
  }

  lemma CanonJoin(segs: seq<string>)
    requires AllPlain(segs)
    ensures Canon(Join(segs)) == segs
  {
    if segs == [] {
      assert Split("") == [""];
      assert PushAll(true, [], [""]) == PushAll(true, [], [""][1..]);
    } else {
      SplitJoin(segs);
      PushPlain(true, [], segs);
      assert [] + segs == segs;
    }
  }

  lemma PlainEntry(seg: string)
    requires Plain(seg)
    ensures Canon(seg) == [seg] && EntryName(seg) == seg
  {
    assert Join([seg]) == seg;
    CanonJoin([seg]);
  }

  /** Entry names are canonical: taking the entry name again changes nothing. */
  lemma EntryNameIsStable(name: string)
    ensures EntryName(EntryName(name)) == EntryName(name)
  {
    CanonJoin(Canon(name));
  }

  lemma JoinNonEmpty(segs: seq<string>)
    requires segs != [] && segs[0] != ""
    ensures Join(segs) != "" && Join(segs)[0] == segs[0][0]
  {
  }

  /** path.Clean leaves the relative path of a canonical name alone. */
  lemma CleanCanonical(segs: seq<string>)
    requires AllPlain(segs) && segs != []
    ensures Clean(Join(segs)) == Join(segs)
  {
    JoinNonEmpty(segs);
    assert segs[0][0] in segs[0];
    SplitJoin(segs);
    PushPlain(false, [], segs);
    assert [] + segs == segs;
  }

  lemma CleanRootedIsRoot(name: string)
    ensures Clean("/" + name) == "/" <==> Canon(name) == []
  {
    CleanRooted(name);
    if Canon(name) != [] {
      assert Plain(Canon(name)[0]);
      JoinNonEmpty(Canon(name));
    }
  }

  /** Clean is idempotent on rooted paths. */
  lemma CleanTwice(name: string)
    ensures Clean(Clean("/" + name)) == Clean("/" + name)
  {
    CleanRooted(name);
    CleanRooted(EntryName(name));
    EntryNameIsStable(name);
  }

  // ---------- the safety checks on a cleaned name ----------

  /** A joined path starts with ".." exactly when its first segment does. */
  lemma DotDotPrefix(segs: seq<string>)
    requires AllPlain(segs) && segs != []
    ensures HasPrefix(Join(segs), "..") <==> HasPrefix(segs[0], "..")
    ensures HasPrefix("/" + Join(segs), "/..") <==> HasPrefix(segs[0], "..")
    ensures !HasPrefix(Join(segs), "/")
  {
    JoinNonEmpty(segs);
    var s := Join(segs);
    assert segs[0][0] in segs[0];
    assert ("/" + s)[1..] == s;
    if |segs[0]| >= 2 {
      assert s[..2] == segs[0][..2];
    } else if |segs| > 1 {
      assert s[1] == '/';
    }
    assert HasPrefix("/" + s, "/..") <==> HasPrefix(s, "..") by {
      if |s| >= 2 { assert ("/" + s)[..3] == "/" + s[..2]; assert ("/" + s)[..3][1..] == s[..2]; assert "/.."[1..] == ".."; }
    }
  }

  /** A path that contains "/../" has ".." among its segments. */
  lemma {:induction false} DotDotInside(s: string, k: nat)
    requires OccursAt(s, "/../", k)
    ensures ".." in Split(s)
    decreases |s|
  {
    var i := FirstIndex(s, '/');
    assert s[k] == s[k..k + 4][0] == '/';
    var tail := s[i + 1..];
    if i == k {
      assert tail[0] == s[k..k + 4][1] && tail[1] == s[k..k + 4][2] && tail[2] == s[k..k + 4][3];
      assert tail == ".." + "/" + tail[3..];
      assert '/' !in "..";
      SplitCons("..", tail[3..]);
      assert Split(tail)[0] == "..";
      assert Split(s)[1] == "..";
    } else {
      assert tail[k - i - 1..k - i + 3] == s[k..k + 4];
      DotDotInside(tail, k - i - 1);
    }
  }

  lemma NoDotDotInside(segs: seq<string>)
    requires AllPlain(segs) && segs != []
    ensures !Contains(Join(segs), "/../")
  {
    SplitJoin(segs);
    var k := Find(Join(segs), "/../");
    if k.Some? {
      DotDotInside(Join(segs), k.value);
      assert false;
    }
  }

  // ---------- what cleaning does to a segment ----------

  lemma {:induction false} SplitConcat(a: string, b: string)
    ensures Split(a + "/" + b) == Split(a) + Split(b)
    decreases |a|
  {
    var i := FirstIndex(a, '/');
    if i == |a| {
      SplitCons(a, b);
    } else {
      AroundSlash(a, i);
      Associate(a[..i] + "/", a[i + 1..], "/" + b);
      assert a + "/" + b == a[..i] + "/" + (a[i + 1..] + "/" + b);
      SplitCons(a[..i], a[i + 1..] + "/" + b);
      SplitConcat(a[i + 1..], b);
      Associate([a[..i]], Split(a[i + 1..]), Split(b));
    }
  }

  lemma SplitThree(a: string, mid: string, b: string)
    ensures Split(a + "/" + mid + "/" + b) == Split(a) + Split(mid) + Split(b)
  {
    SplitConcat(a + "/" + mid, b);
    SplitConcat(a, mid);
  }

  /** Segments in the middle that leave every stack alone can be left out. */
  lemma MiddleGoes(rooted: bool, a: string, mid: string, b: string)
    requires PushAll(rooted, PushAll(rooted, [], Split(a)), Split(mid)) == PushAll(rooted, [], Split(a))
    ensures PushAll(rooted, [], Split(a + "/" + mid + "/" + b)) == PushAll(rooted, [], Split(a + "/" + b))
  {
    SplitThree(a, mid, b);
    SplitConcat(a, b);
    PushAllConcat(rooted, [], Split(a) + Split(mid), Split(b));
    PushAllConcat(rooted, [], Split(a), Split(mid));
    PushAllConcat(rooted, [], Split(a), Split(b));
  }

  lemma SameStack(p: string, q: string)
    requires p != "" && q != "" && p[0] == q[0] && PushAll(p[0] == '/', [], Split(p)) == PushAll(p[0] == '/', [], Split(q))
    ensures Clean(p) == Clean(q)
  {
  }

  lemma FirstOfRest(a: string, mid: string, b: string)
    ensures (a + "/" + mid + "/" + b)[0] == (a + "/" + b)[0]
  {
  }

  lemma CleanWithout(a: string, mid: string, b: string)
    requires var rooted := (a + "/" + b)[0] == '/';
      PushAll(rooted, PushAll(rooted, [], Split(a)), Split(mid)) == PushAll(rooted, [], Split(a))
    ensures Clean(a + "/" + mid + "/" + b) == Clean(a + "/" + b)
  {
    FirstOfRest(a, mid, b);
    MiddleGoes((a + "/" + b)[0] == '/', a, mid, b);
    SameStack(a + "/" + mid + "/" + b, a + "/" + b);
  }

  lemma PushUpAndDown(rooted: bool, stack: seq<string>, x: string)
    requires Plain(x)
    ensures PushAll(rooted, stack, [x, ".."]) == stack
  {
    assert [x, ".."][1..] == [".."] && [".."][1..] == [];
    assert PushAll(rooted, stack, [x, ".."]) == PushAll(rooted, stack + [x], [".."]);
    assert Push(rooted, stack + [x], "..") == (stack + [x])[..|stack|];
    assert PushAll(rooted, stack + [x], [".."]) == PushAll(rooted, stack, []);
  }

  lemma SplitUpAndDown(x: string)
    requires Plain(x)
    ensures Split(x + "/..") == [x, ".."]
  {
    SplitCons(x, "..");
    assert Split("..") == [".."];
    assert x + "/.." == x + "/" + "..";
  }

  /** ".." after a plain segment removes it, wherever it stands. */
  lemma ParentRemoves(a: string, x: string, b: string)
    requires Plain(x)
    ensures Clean(a + "/" + (x + "/..") + "/" + b) == Clean(a + "/" + b)
  {
    var rooted := (a + "/" + b)[0] == '/';
    SplitUpAndDown(x);
    PushUpAndDown(rooted, PushAll(rooted, [], Split(a)), x);
    CleanWithout(a, x + "/..", b);
  }

  /** Empty segments and "." do nothing, wherever they stand. */
  lemma DotsVanish(a: string, dot: string, b: string)
    requires dot == "" || dot == "."
    ensures Clean(a + "/" + dot + "/" + b) == Clean(a + "/" + b)
  {
    var rooted := (a + "/" + b)[0] == '/';
    assert Split(dot) == [dot];
    assert [dot][1..] == [];
    CleanWithout(a, dot, b);
  }

  /** There is nothing above the root. */
  lemma RootStays(b: string)
    ensures Clean("/../" + b) == Clean("/" + b)
  {
    assert Split("..") == [".."] && [".."][1..] == [] && Split("") == [""] && [""][1..] == [];
    assert PushAll(true, [], [""]) == [];
    assert PushAll(true, [], [".."]) == PushAll(true, Push(true, [], ".."), []) == [];
    assert "" + "/" + ".." + "/" + b == "/../" + b;
    CleanWithout("", "..", b);
  }

  lemma {:induction false} PushClimbs(stack: seq<string>, ups: seq<string>)
    requires (forall i :: 0 <= i < |ups| ==> ups[i] == "..") && (forall i :: 0 <= i < |stack| ==> stack[i] == "..")
    ensures PushAll(false, stack, ups) == stack + ups
    decreases |ups|
  {
    if ups == [] {
      assert stack + ups == stack;
    } else {
      PushClimbs(stack + [".."], ups[1..]);
      Associate(stack, [".."], ups[1..]);
      assert ups == [".."] + ups[1..];
    }
  }

  /** A relative path keeps what climbs in front, and is canonical when only plain segments follow. */
  lemma CleanClimbing(ups: seq<string>, segs: seq<string>)
    requires (forall i :: 0 <= i < |ups| ==> ups[i] == "..") && AllPlain(segs) && ups + segs != []
    ensures Clean(Join(ups + segs)) == Join(ups + segs)
  {
    var all := ups + segs;
    assert all[0] == ".." || Plain(all[0]);
    JoinNonEmpty(all);
    assert all[0][0] in all[0];
    assert forall i :: 0 <= i < |all| ==> '/' !in all[i];
    SplitJoin(all);
    PushClimbs([], ups);
    assert [] + ups == ups;
    PushPlain(false, ups, segs);
    PushAllConcat(false, [], ups, segs);
  }

  /** A leading "." and a trailing slash do nothing. */
  lemma EndsVanish(p: string)
    requires p != ""
    ensures p[0] != '/' ==> Clean("./" + p) == Clean(p)
    ensures Clean(p + "/") == Clean(p)
  {
    var rooted := p[0] == '/';
    assert Split(".") == ["."] && Split("") == [""] && ["."][1..] == [] && [""][1..] == [];
    SplitConcat(".", p);
    assert PushAll(false, [], ["."]) == PushAll(false, Push(false, [], "."), []) == [];
    PushAllConcat(false, [], ["."], Split(p));
    assert "." + "/" + p == "./" + p;
    SplitConcat(p, "");
    assert p + "/" + "" == p + "/";
    PushAllConcat(rooted, [], Split(p), [""]);
    var stack := PushAll(rooted, [], Split(p));
    assert PushAll(rooted, stack, [""]) == PushAll(rooted, Push(rooted, stack, ""), []) == stack;
    SameStack(p + "/", p);
  }
}
