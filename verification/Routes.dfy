/** Route matching: `resolve`, `match_route` and `prefix_of` of services/worker/src/loader.rs. */
module Routes {
  import opened Wrappers
  import opened Strings

  const WILDCARD := "/..."

  datatype HttpTrigger = HttpTrigger(route: string, component: string)

  /** The route up to its first "/...", or all of it. */
  function PrefixOf(route: string): string {
    var i := Find(route, WILDCARD);
    if i.Some? then route[..i.value] else route
  }

  function MatchRoute(route: string, path: string): Option<string> {
    if HasSuffix(route, WILDCARD) then
      var prefix := route[..|route| - 4];
      if prefix == "" || path == prefix || HasPrefix(path, prefix + "/") then
        var rest := if prefix == "" then path else path[|prefix|..];
        Some(if rest == "" then "/" else rest)
      else None
    else if route == path then Some("/")
    else None
  }

  // ---------- reference definition: the longest prefix, the earliest declared on ties ----------

  /** Sort keys: the length of each trigger's prefix. */
  function Weights(ts: seq<HttpTrigger>): seq<nat> {
    seq(|ts|, i requires 0 <= i < |ts| => |PrefixOf(ts[i].route)|)
  }

  /** Which triggers match the path. */
  function Hits(ts: seq<HttpTrigger>, path: string): seq<bool> {
    seq(|ts|, i requires 0 <= i < |ts| => MatchRoute(ts[i].route, path).Some?)
  }

  /** `i` is a hit and every other hit weighs less, or as much but comes later. */
  ghost predicate IsBest(weights: seq<nat>, hits: seq<bool>, i: nat)
    requires |weights| == |hits|
  {
    i < |hits| && hits[i] &&
    forall j :: 0 <= j < |hits| && hits[j] ==> weights[j] < weights[i] || (weights[j] == weights[i] && i <= j)
  }

  function BestIndex(weights: seq<nat>, hits: seq<bool>): (r: Option<nat>)
    requires |weights| == |hits|
    ensures r.Some? ==> IsBest(weights, hits, r.value)
    ensures r.None? <==> forall j :: 0 <= j < |hits| ==> !hits[j]
  {
    if hits == [] then None
    else
      var n := |hits| - 1;
      var r := BestIndex(weights[..n], hits[..n]);
      if hits[n] && (r.None? || weights[n] > weights[r.value]) then Some(n) else r
  }

  /** Component and remaining path of the best trigger. */
  function Answer(ts: seq<HttpTrigger>, path: string): Option<(string, string)> {
    var b := BestIndex(Weights(ts), Hits(ts, path));
    if b.None? then None
    else
      var t := ts[b.value];
      assert MatchRoute(t.route, path).Some?;
      Some((t.component, MatchRoute(t.route, path).value))
  }

  /** There is only one best trigger, so any search that finds a best one finds the answer. */
  lemma BestIsAnswer(ts: seq<HttpTrigger>, path: string, i: nat)
    requires IsBest(Weights(ts), Hits(ts, path), i)
    ensures MatchRoute(ts[i].route, path).Some?
    ensures Answer(ts, path) == Some((ts[i].component, MatchRoute(ts[i].route, path).value))
  {
    BestIsFound(Weights(ts), Hits(ts, path), i);
  }

  lemma BestIsFound(weights: seq<nat>, hits: seq<bool>, i: nat)
    requires |weights| == |hits| && IsBest(weights, hits, i)
    ensures BestIndex(weights, hits) == Some(i)
  {
    var b := BestIndex(weights, hits);
    assert hits[i] && b.Some?;
    assert hits[b.value];
  }

  // ---------- resolve: a stable sort, then the first match ----------

  /** The order a stable sort on the reversed weight leaves: heavier first, declaration order on ties. */
  ghost predicate InOrder(weights: seq<nat>, order: seq<nat>) {
    (forall k :: 0 <= k < |order| ==> order[k] < |weights|) &&
    (forall k, l :: 0 <= k < l < |order| ==>
      weights[order[k]] > weights[order[l]] || (weights[order[k]] == weights[order[l]] && order[k] < order[l]))
  }

  /** Behind everything at least as heavy. */
  method InsertionPoint(weights: seq<nat>, order: seq<nat>, w: nat) returns (k: nat)
    requires forall l :: 0 <= l < |order| ==> order[l] < |weights|
    ensures k <= |order| && forall l :: 0 <= l < k ==> weights[order[l]] >= w
    ensures k < |order| ==> weights[order[k]] < w
  {
    k := 0;
    while k < |order| && weights[order[k]] >= w
      invariant k <= |order| && forall l :: 0 <= l < k ==> weights[order[l]] >= w
    {
      k := k + 1;
    }
  }

  /** A stable sort of references into the trigger list; it compares weights only. */
  method SortByWeight(weights: seq<nat>) returns (order: seq<nat>)
    ensures InOrder(weights, order)
    ensures forall i :: i in order <==> 0 <= i < |weights|
  {
    order := [];
    for n := 0 to |weights|
      invariant InOrder(weights, order)
      invariant forall i :: i in order <==> 0 <= i < n
    {
      var k := InsertionPoint(weights, order, weights[n]);
      assert forall l :: 0 <= l < |order| ==> order[l] in order;
      Insertion(weights, order, n, k);
      InsertionElements(order, n, k);
      order := order[..k] + [n] + order[k..];
    }
  }

  lemma InsertionElements<T>(order: seq<T>, x: T, k: nat)
    requires k <= |order|
    ensures forall y :: y in order[..k] + [x] + order[k..] <==> y in order || y == x
  {
    assert order == order[..k] + order[k..];
    forall y
      ensures y in order[..k] + [x] + order[k..] <==> y in order || y == x
    {
      assert y in order <==> y in order[..k] || y in order[k..];
    }
  }

  lemma Insertion(weights: seq<nat>, order: seq<nat>, n: nat, k: nat)
    requires InOrder(weights, order) && n < |weights| && k <= |order|
    requires forall l :: 0 <= l < |order| ==> order[l] < n
    requires forall l :: 0 <= l < k ==> weights[order[l]] >= weights[n]
    requires k < |order| ==> weights[order[k]] < weights[n]
    ensures InOrder(weights, order[..k] + [n] + order[k..])
  {
    var a, b := order[..k], order[k..];
    forall l | 0 <= l < |b|
      ensures weights[b[l]] < weights[n]
    {
      assert b[l] == order[k + l];
    }
    var out := a + [n] + b;
    forall p, q | 0 <= p < q < |out|
      ensures weights[out[p]] > weights[out[q]] || (weights[out[p]] == weights[out[q]] && out[p] < out[q])
    {
      if p < k {
        assert out[p] == order[p];
        if q > k { assert out[q] == order[q - 1]; }
      } else if p > k {
        assert out[p] == order[p - 1] && out[q] == order[q - 1];
      } else {
        assert out[q] == b[q - k - 1];
      }
    }
  }

  /** None of the first `k` triggers in this order matches. */
  ghost predicate NoneBefore(ts: seq<HttpTrigger>, path: string, order: seq<nat>, k: nat) {
    k <= |order| && forall l :: 0 <= l < k ==> order[l] < |ts| && MatchRoute(ts[order[l]].route, path).None?
  }

  method Resolve(ts: seq<HttpTrigger>, path: string) returns (r: Option<(string, string)>)
    ensures r == Answer(ts, path)
  {
    var order := SortByWeight(Weights(ts));
    for k := 0 to |order|
      invariant NoneBefore(ts, path, order, k)
    {
      assert order[k] in order;
      var t := ts[order[k]];
      var rest := MatchRoute(t.route, path);
      if rest.Some? {
        FirstMatchIsAnswer(ts, path, order, k);
        return Some((t.component, rest.value));
      }
    }
    NoMatchIsNone(ts, path, order);
    return None;
  }

  lemma NoMatchIsNone(ts: seq<HttpTrigger>, path: string, order: seq<nat>)
    requires forall i :: i in order <==> 0 <= i < |ts|
    requires NoneBefore(ts, path, order, |order|)
    ensures Answer(ts, path) == None
  {
    forall j | 0 <= j < |ts|
      ensures !Hits(ts, path)[j]
    {
      assert j in order;
    }
  }

  lemma FirstMatchIsAnswer(ts: seq<HttpTrigger>, path: string, order: seq<nat>, k: nat)
    requires InOrder(Weights(ts), order) && forall i :: i in order <==> 0 <= i < |ts|
    requires k < |order| && NoneBefore(ts, path, order, k)
    requires order[k] < |ts| && MatchRoute(ts[order[k]].route, path).Some?
    ensures Answer(ts, path) == Some((ts[order[k]].component, MatchRoute(ts[order[k]].route, path).value))
  {
    var weights, hits := Weights(ts), Hits(ts, path);
    assert forall l :: 0 <= l < k ==> !hits[order[l]];
    FirstHitIsBest(weights, hits, order, k);
    BestIsAnswer(ts, path, order[k]);
  }

  lemma FirstHitIsBest(weights: seq<nat>, hits: seq<bool>, order: seq<nat>, k: nat)
    requires |weights| == |hits| && InOrder(weights, order) && k < |order|
    requires forall i :: i in order <==> 0 <= i < |weights|
    requires hits[order[k]] && forall l :: 0 <= l < k ==> !hits[order[l]]
    ensures IsBest(weights, hits, order[k])
  {
    forall j | 0 <= j < |hits| && hits[j]
      ensures weights[j] < weights[order[k]] || (weights[j] == weights[order[k]] && order[k] <= j)
    {
      assert j in order;
      var l :| 0 <= l < |order| && order[l] == j;
    }
  }

  // ---------- routes whose only "/..." is at the end ----------

  predicate WellFormed(route: string) {
    var i := Find(route, WILDCARD);
    i.None? || i.value == |route| - 4
  }

  lemma WellFormedShape(route: string)
    requires WellFormed(route)
    ensures HasSuffix(route, WILDCARD) ==> PrefixOf(route) + WILDCARD == route
    ensures !HasSuffix(route, WILDCARD) ==> PrefixOf(route) == route
  {
    if HasSuffix(route, WILDCARD) {
      assert OccursAt(route, WILDCARD, |route| - 4);
      assert route == route[..|route| - 4] + route[|route| - 4..];
    } else {
      var i := Find(route, WILDCARD);
      assert i.Some? ==> OccursAt(route, WILDCARD, i.value);
    }
  }

  /**
    The matched prefix and the remaining path rebuild the request path, except that the bare
    prefix hands the guest "/".
  */
  lemma MatchRebuildsPath(route: string, path: string)
    requires WellFormed(route) && MatchRoute(route, path).Some?
    ensures HasPrefix(path, PrefixOf(route))
    ensures var rest := MatchRoute(route, path).value;
      if path == PrefixOf(route) then rest == "/" else PrefixOf(route) + rest == path
    ensures !HasSuffix(route, WILDCARD) ==> path == PrefixOf(route)
  {
    WellFormedShape(route);
    if HasSuffix(route, WILDCARD) {
      var prefix := route[..|route| - 4];
      assert prefix == PrefixOf(route) by {
        assert route == PrefixOf(route) + WILDCARD;
      }
      if path != prefix && prefix != "" {
        assert HasPrefix(path, prefix + "/");
        assert path[..|prefix|] == (prefix + "/")[..|prefix|] == prefix;
        assert path == path[..|prefix|] + path[|prefix|..];
      }
    }
  }

  /** Whatever route matches a path that starts with '/', the guest path starts with '/'. */
  lemma GuestPathIsRooted(route: string, path: string)
    requires MatchRoute(route, path).Some? && HasPrefix(path, "/")
    ensures HasPrefix(MatchRoute(route, path).value, "/")
  {
    if HasSuffix(route, WILDCARD) {
      var prefix := route[..|route| - 4];
      if prefix != "" && path != prefix {
        assert path[|prefix|] == (prefix + "/")[|prefix|] == '/';
      }
    }
  }

  /** Every route matches the path that is its own prefix. */
  lemma MatchesOwnPrefix(route: string)
    requires WellFormed(route)
    ensures MatchRoute(route, PrefixOf(route)) == Some("/")
  {
    WellFormedShape(route);
  }

  /** Well-formed or not, what a route is sorted by is a prefix of every path it matches. */
  lemma MatchHasPrefix(route: string, path: string)
    requires MatchRoute(route, path).Some?
    ensures HasPrefix(path, PrefixOf(route))
  {
    var i := Find(route, WILDCARD);
    if HasSuffix(route, WILDCARD) {
      var prefix := route[..|route| - 4];
      assert OccursAt(route, WILDCARD, |route| - 4);
      assert i.Some? && i.value <= |prefix|;
      assert PrefixOf(route) == prefix[..i.value];
      if prefix != "" && path != prefix {
        assert path[..|prefix|] == (prefix + "/")[..|prefix|] == prefix;
      }
      assert path[..i.value] == prefix[..i.value];
    }
  }

  lemma SamePrefixSameRest(route1: string, route2: string, path: string)
    requires WellFormed(route1) && WellFormed(route2) && PrefixOf(route1) == PrefixOf(route2)
    requires MatchRoute(route1, path).Some? && MatchRoute(route2, path).Some?
    ensures MatchRoute(route1, path) == MatchRoute(route2, path)
  {
    MatchRebuildsPath(route1, path);
    MatchRebuildsPath(route2, path);
    var p := PrefixOf(route1);
    var r1, r2 := MatchRoute(route1, path).value, MatchRoute(route2, path).value;
    if path != p {
      assert r1 == (p + r1)[|p|..] && r2 == (p + r2)[|p|..];
    }
  }

  // ---------- when the declaration order matters ----------

  ghost predicate AllWellFormed(ts: seq<HttpTrigger>) {
    forall i :: 0 <= i < |ts| ==> WellFormed(ts[i].route)
  }

  /** Triggers with one prefix name one component. */
  ghost predicate Unambiguous(ts: seq<HttpTrigger>) {
    forall i, j :: 0 <= i < |ts| && 0 <= j < |ts| && PrefixOf(ts[i].route) == PrefixOf(ts[j].route) ==>
      ts[i].component == ts[j].component
  }

  ghost predicate OrderIrrelevant(ts: seq<HttpTrigger>) {
    forall us: seq<HttpTrigger>, path: string :: multiset(us) == multiset(ts) ==> Answer(us, path) == Answer(ts, path)
  }

  lemma SameElements(ts: seq<HttpTrigger>, us: seq<HttpTrigger>, i: nat) returns (j: nat)
    requires multiset(us) == multiset(ts) && i < |ts|
    ensures j < |us| && us[j] == ts[i]
  {
    assert ts[i] in multiset(us);
    j :| 0 <= j < |us| && us[j] == ts[i];
  }

  /** Matching routes of equal weight have the same prefix: both are prefixes of the path. */
  lemma EqualWeightEqualPrefix(t: HttpTrigger, u: HttpTrigger, path: string)
    requires MatchRoute(t.route, path).Some? && MatchRoute(u.route, path).Some?
    requires |PrefixOf(t.route)| == |PrefixOf(u.route)|
    ensures PrefixOf(t.route) == PrefixOf(u.route)
  {
    MatchHasPrefix(t.route, path);
    MatchHasPrefix(u.route, path);
  }

  lemma UnambiguousAnswers(ts: seq<HttpTrigger>, us: seq<HttpTrigger>, path: string)
    requires AllWellFormed(ts) && Unambiguous(ts) && multiset(us) == multiset(ts)
    ensures Answer(us, path) == Answer(ts, path)
  {
    var a, b := BestIndex(Weights(ts), Hits(ts, path)), BestIndex(Weights(us), Hits(us, path));
    if a.Some? {
      var i := SameElements(ts, us, a.value);
      assert Hits(us, path)[i];
      var j := SameElements(us, ts, b.value);
      assert Hits(ts, path)[j];
      EqualWeightEqualPrefix(ts[a.value], ts[j], path);
      SamePrefixSameRest(ts[a.value].route, ts[j].route, path);
    } else {
      forall j | 0 <= j < |us|
        ensures !Hits(us, path)[j]
      {
        var i := SameElements(us, ts, j);
        assert !Hits(ts, path)[i];
      }
    }
  }

  /** On the path that is a prefix, the winner is the first trigger declared with that prefix. */
  lemma FirstDeclaredWins(ts: seq<HttpTrigger>, k: nat)
    requires AllWellFormed(ts) && k < |ts|
    requires forall l :: 0 <= l < k ==> PrefixOf(ts[l].route) != PrefixOf(ts[k].route)
    ensures Answer(ts, PrefixOf(ts[k].route)) == Some((ts[k].component, "/"))
  {
    var p := PrefixOf(ts[k].route);
    var weights, hits := Weights(ts), Hits(ts, p);
    MatchesOwnPrefix(ts[k].route);
    forall j | 0 <= j < |hits| && hits[j]
      ensures weights[j] < weights[k] || (weights[j] == weights[k] && k <= j)
    {
      MatchRebuildsPath(ts[j].route, p);
      if weights[j] == weights[k] { EqualWeightEqualPrefix(ts[j], ts[k], p); }
    }
    assert IsBest(weights, hits, k);
    BestIsAnswer(ts, p, k);
  }

  /** The same triggers with trigger `k` declared first. */
  function Promote(ts: seq<HttpTrigger>, k: nat): (us: seq<HttpTrigger>)
    requires k < |ts|
    ensures multiset(us) == multiset(ts) && us[0] == ts[k]
  {
    assert ts == ts[..k] + [ts[k]] + ts[k + 1..];
    [ts[k]] + ts[..k] + ts[k + 1..]
  }

  lemma PromotedWins(ts: seq<HttpTrigger>, k: nat)
    requires AllWellFormed(ts) && k < |ts|
    ensures Answer(Promote(ts, k), PrefixOf(ts[k].route)) == Some((ts[k].component, "/"))
  {
    var us := Promote(ts, k);
    forall l | 0 <= l < |us|
      ensures WellFormed(us[l].route)
    {
      var _ := SameElements(us, ts, l);
    }
    FirstDeclaredWins(us, 0);
  }

  lemma AmbiguityShows(ts: seq<HttpTrigger>, i: nat, j: nat)
    requires AllWellFormed(ts) && i < |ts| && j < |ts|
    requires PrefixOf(ts[i].route) == PrefixOf(ts[j].route) && ts[i].component != ts[j].component
    ensures !OrderIrrelevant(ts)
  {
    PromotedWins(ts, i);
    PromotedWins(ts, j);
  }

  /**
    For well-formed routes the answer is the same for every declaration order and every path
    exactly when triggers with one prefix name one component.
  */
  lemma OrderIrrelevantIff(ts: seq<HttpTrigger>)
    requires AllWellFormed(ts)
    ensures OrderIrrelevant(ts) <==> Unambiguous(ts)
  {
    if Unambiguous(ts) {
      forall us: seq<HttpTrigger>, path: string | multiset(us) == multiset(ts)
        ensures Answer(us, path) == Answer(ts, path)
      {
        UnambiguousAnswers(ts, us, path);
      }
    } else {
      var i, j :| 0 <= i < |ts| && 0 <= j < |ts| && PrefixOf(ts[i].route) == PrefixOf(ts[j].route)
        && ts[i].component != ts[j].component;
      AmbiguityShows(ts, i, j);
    }
  }

  // ---------- the same for routes of any shape ----------

  /** Trigger `i` matches and no match weighs more. */
  predicate Heaviest(ts: seq<HttpTrigger>, path: string, i: nat) {
    i < |ts| && MatchRoute(ts[i].route, path).Some? &&
    forall j :: 0 <= j < |ts| && MatchRoute(ts[j].route, path).Some? ==> |PrefixOf(ts[j].route)| <= |PrefixOf(ts[i].route)|
  }

  /** What the trigger answers with: its component and what is left of the path. */
  function Given(t: HttpTrigger, path: string): (string, string)
    requires MatchRoute(t.route, path).Some?
  {
    (t.component, MatchRoute(t.route, path).value)
  }

  /** On every path the matches of maximal weight give one answer. */
  ghost predicate TiesAgree(ts: seq<HttpTrigger>) {
    forall path, i: nat, j: nat :: Heaviest(ts, path, i) && Heaviest(ts, path, j) ==> Given(ts[i], path) == Given(ts[j], path)
  }

  lemma BestIsHeaviest(ts: seq<HttpTrigger>, path: string, i: nat)
    requires IsBest(Weights(ts), Hits(ts, path), i)
    ensures Heaviest(ts, path, i)
  {
    forall j | 0 <= j < |ts| && MatchRoute(ts[j].route, path).Some?
      ensures |PrefixOf(ts[j].route)| <= |PrefixOf(ts[i].route)|
    {
      assert Hits(ts, path)[j];
    }
  }

  lemma AnswerIsHeaviest(ts: seq<HttpTrigger>, path: string) returns (i: nat)
    requires Answer(ts, path).Some?
    ensures Heaviest(ts, path, i) && Answer(ts, path) == Some(Given(ts[i], path))
  {
    i := BestIndex(Weights(ts), Hits(ts, path)).value;
    BestIsHeaviest(ts, path, i);
  }

  lemma HeaviestIsAnswered(ts: seq<HttpTrigger>, path: string, i: nat)
    requires Heaviest(ts, path, i)
    ensures Answer(ts, path).Some?
  {
    assert Hits(ts, path)[i];
  }

  lemma HeaviestMoves(ts: seq<HttpTrigger>, us: seq<HttpTrigger>, path: string, i: nat) returns (j: nat)
    requires multiset(us) == multiset(ts) && Heaviest(ts, path, i)
    ensures Heaviest(us, path, j) && us[j] == ts[i]
  {
    j := SameElements(ts, us, i);
    forall k | 0 <= k < |us| && MatchRoute(us[k].route, path).Some?
      ensures |PrefixOf(us[k].route)| <= |PrefixOf(us[j].route)|
    {
      var l := SameElements(us, ts, k);
    }
  }

  lemma PermutedAgree(ts: seq<HttpTrigger>, us: seq<HttpTrigger>, path: string)
    requires TiesAgree(ts) && multiset(us) == multiset(ts)
    ensures Answer(us, path) == Answer(ts, path)
  {
    if Answer(us, path).Some? {
      var j := AnswerIsHeaviest(us, path);
      var l := HeaviestMoves(us, ts, path, j);
      HeaviestIsAnswered(ts, path, l);
      var i := AnswerIsHeaviest(ts, path);
      assert Given(ts[i], path) == Given(ts[l], path);
    } else if Answer(ts, path).Some? {
      var i := AnswerIsHeaviest(ts, path);
      var k := HeaviestMoves(ts, us, path, i);
      HeaviestIsAnswered(us, path, k);
    }
  }

  /** Declared first, a trigger of maximal weight wins. */
  lemma PromotedHeaviestWins(ts: seq<HttpTrigger>, path: string, i: nat)
    requires Heaviest(ts, path, i)
    ensures Answer(Promote(ts, i), path) == Some(Given(ts[i], path))
  {
    var us := Promote(ts, i);
    var weights, hits := Weights(us), Hits(us, path);
    forall j | 0 <= j < |hits| && hits[j]
      ensures weights[j] <= weights[0]
    {
      var l := SameElements(us, ts, j);
    }
    assert IsBest(weights, hits, 0);
    BestIsAnswer(us, path, 0);
  }

  /** For routes of any shape the answers are independent of the declaration order exactly when ties agree on every path. */
  lemma AnyRoutesOrderIrrelevantIff(ts: seq<HttpTrigger>)
    ensures OrderIrrelevant(ts) <==> TiesAgree(ts)
  {
    if TiesAgree(ts) {
      forall us: seq<HttpTrigger>, path: string | multiset(us) == multiset(ts)
        ensures Answer(us, path) == Answer(ts, path)
      {
        PermutedAgree(ts, us, path);
      }
    } else {
      var path, i: nat, j: nat :| Heaviest(ts, path, i) && Heaviest(ts, path, j) && Given(ts[i], path) != Given(ts[j], path);
      PromotedHeaviestWins(ts, path, i);
      PromotedHeaviestWins(ts, path, j);
      assert multiset(Promote(ts, i)) == multiset(ts) && multiset(Promote(ts, j)) == multiset(ts);
    }
  }

  /** Distinct routes without a pair p, p/... have distinct prefixes, so their order never matters. */
  lemma DistinctRoutesAnyOrder(ts: seq<HttpTrigger>)
    requires AllWellFormed(ts)
    requires forall i, j :: 0 <= i < j < |ts| ==> ts[i].route != ts[j].route
    requires forall i, j :: 0 <= i < |ts| && 0 <= j < |ts| ==> ts[i].route != ts[j].route + WILDCARD
    ensures OrderIrrelevant(ts)
  {
    forall i, j | 0 <= i < |ts| && 0 <= j < |ts| && PrefixOf(ts[i].route) == PrefixOf(ts[j].route)
      ensures ts[i].component == ts[j].component
    {
      WellFormedShape(ts[i].route);
      WellFormedShape(ts[j].route);
      assert i == j;
    }
    OrderIrrelevantIff(ts);
  }

  // ---------- the match of longest prefix ----------

  /** How much of the path a route matches by: the route itself, or what comes before its final "/...". */
  function Reach(route: string): nat {
    if HasSuffix(route, WILDCARD) then |route| - 4 else |route|
  }

  /** What a route is sorted by is no more than it matches by, and no less exactly when it is well formed. */
  lemma ReachIsPrefixIff(route: string)
    ensures |PrefixOf(route)| <= Reach(route)
    ensures |PrefixOf(route)| == Reach(route) <==> WellFormed(route)
  {
    var i := Find(route, WILDCARD);
    if HasSuffix(route, WILDCARD) {
      assert OccursAt(route, WILDCARD, |route| - 4);
    } else if i.Some? {
      assert OccursAt(route, WILDCARD, i.value);
      assert i.value + 4 == |route| ==> HasSuffix(route, WILDCARD);
    }
  }

  function Pair(first: string, second: string): seq<HttpTrigger> {
    [HttpTrigger(first, "first"), HttpTrigger(second, "second")]
  }

  /** Both routes match the path, this one by more of it, and still the other one, declared before it, is chosen. */
  ghost predicate LosesTo(route: string, other: string, path: string) {
    && MatchRoute(route, path).Some? && MatchRoute(other, path).Some? && Reach(other) < Reach(route)
    && Answer(Pair(other, route), path) == Some(("first", MatchRoute(other, path).value))
  }

  lemma WellFormedNeverLoses(route: string, other: string, path: string)
    requires WellFormed(route)
    ensures !LosesTo(route, other, path)
  {
    if LosesTo(route, other, path) {
      var ts := Pair(other, route);
      var i := AnswerIsHeaviest(ts, path);
      assert i == 0 && ts[1].route == route;
      ReachIsPrefixIff(route);
      ReachIsPrefixIff(other);
      assert false;
    }
  }

  /** The route that an ill-formed one is sorted like. */
  function Shorter(route: string): string {
    PrefixOf(route) + WILDCARD
  }

  /** The shortest path a route matches. */
  function OwnPath(route: string): string {
    route[..Reach(route)]
  }

  lemma ShorterIsSortedAlike(route: string)
    requires !WellFormed(route)
    ensures PrefixOf(Shorter(route)) == PrefixOf(route) && Reach(Shorter(route)) == |PrefixOf(route)|
  {
    var p, q := PrefixOf(route), Shorter(route);
    var i := Find(route, WILDCARD).value;
    assert OccursAt(route, WILDCARD, i);
    assert q == route[..i + 4];
    assert q[|p|..|p| + 4] == WILDCARD;
    var j := Find(q, WILDCARD);
    assert OccursAt(q, WILDCARD, |p|);
    if j.value < |p| {
      assert OccursAt(q, WILDCARD, j.value);
      assert route[j.value..j.value + 4] == q[j.value..j.value + 4];
      assert OccursAt(route, WILDCARD, j.value);
    }
    assert q[|q| - 4..] == WILDCARD;
  }

  lemma BothMatchOwnPath(route: string)
    requires !WellFormed(route)
    ensures MatchRoute(route, OwnPath(route)).Some? && MatchRoute(Shorter(route), OwnPath(route)).Some?
  {
    var p, q, path := PrefixOf(route), Shorter(route), OwnPath(route);
    var i := Find(route, WILDCARD).value;
    assert OccursAt(route, WILDCARD, i);
    assert route[i..i + 4][0] == route[i];
    assert route[i] == '/' && i < |path|;
    assert path[..i + 1] == p + "/";
    assert q[|q| - 4..] == WILDCARD && q[..|q| - 4] == p;
  }

  lemma IllFormedLoses(route: string)
    requires !WellFormed(route)
    ensures LosesTo(route, Shorter(route), OwnPath(route))
  {
    var ts, path := Pair(Shorter(route), route), OwnPath(route);
    ShorterIsSortedAlike(route);
    BothMatchOwnPath(route);
    ReachIsPrefixIff(route);
    FirstOfTwoWins(ts, path);
  }

  lemma FirstOfTwoWins(ts: seq<HttpTrigger>, path: string)
    requires |ts| == 2 && MatchRoute(ts[0].route, path).Some? && |PrefixOf(ts[1].route)| <= |PrefixOf(ts[0].route)|
    ensures Answer(ts, path) == Some(Given(ts[0], path))
  {
    FirstIsBest(Weights(ts), Hits(ts, path));
    BestIsAnswer(ts, path, 0);
  }

  lemma FirstIsBest(weights: seq<nat>, hits: seq<bool>)
    requires |weights| == |hits| == 2 && hits[0] && weights[1] <= weights[0]
    ensures IsBest(weights, hits, 0)
  {
  }

  /** A route never loses to a shorter match, whatever is declared before it, exactly when it is well formed. */
  lemma NeverLosesIff(route: string)
    ensures (forall other, path :: !LosesTo(route, other, path)) <==> WellFormed(route)
  {
    if WellFormed(route) {
      forall other, path
        ensures !LosesTo(route, other, path)
      {
        WellFormedNeverLoses(route, other, path);
      }
    } else {
      IllFormedLoses(route);
    }
  }

  // ---------- finitely many paths show whether the order matters ----------

  function Longest(ts: seq<HttpTrigger>): (n: nat)
    ensures forall i :: 0 <= i < |ts| ==> |ts[i].route| <= n
  {
    if ts == [] then 0
    else
      var n := Longest(ts[1..]);
      assert forall i :: 0 < i < |ts| ==> ts[i] == ts[1..][i - 1];
      if n < |ts[0].route| then |ts[0].route| else n
  }

  /** A segment longer than every route. */
  function FreshSegment(ts: seq<HttpTrigger>): (s: string)
    ensures |s| == Longest(ts) + 1 && forall i :: 0 <= i < |s| ==> s[i] == 'x'
  {
    seq(Longest(ts) + 1, i => 'x')
  }

  /** The path that is one fresh segment longer than what the route matches by. */
  function Beyond(ts: seq<HttpTrigger>, route: string): string {
    OwnPath(route) + "/" + FreshSegment(ts)
  }

  predicate TiesAgreeOn(ts: seq<HttpTrigger>, path: string) {
    forall i, j :: 0 <= i < |ts| && 0 <= j < |ts| && Heaviest(ts, path, i) && Heaviest(ts, path, j) ==>
      Given(ts[i], path) == Given(ts[j], path)
  }

  /** What can be checked of a list of triggers: on the shortest path of each route and on the path just beyond it, ties agree. */
  predicate OrderCheck(ts: seq<HttpTrigger>) {
    forall k :: 0 <= k < |ts| ==> TiesAgreeOn(ts, OwnPath(ts[k].route)) && TiesAgreeOn(ts, Beyond(ts, ts[k].route))
  }

  /** The path goes on below what the route matches by. */
  predicate Below(route: string, path: string) {
    HasSuffix(route, WILDCARD) && (OwnPath(route) == "" || HasPrefix(path, OwnPath(route) + "/"))
  }

  lemma MatchIff(route: string, path: string)
    ensures MatchRoute(route, path).Some? <==> path == OwnPath(route) || Below(route, path)
    ensures Below(route, path) && path != "" ==> MatchRoute(route, path) == Some(path[|OwnPath(route)|..])
  {
    if HasSuffix(route, WILDCARD) && HasPrefix(path, OwnPath(route) + "/") {
      assert |path| > |OwnPath(route)|;
    }
  }

  lemma BeyondIsBelow(ts: seq<HttpTrigger>, route: string)
    requires HasSuffix(route, WILDCARD)
    ensures Below(route, Beyond(ts, route)) && Beyond(ts, route) != ""
  {
    var own, path := OwnPath(route), Beyond(ts, route);
    assert path[..|own| + 1] == own + "/";
  }

  /** Prefixes that end in a slash of a path with one more segment are prefixes of the path before it. */
  lemma SlashPrefix(own: string, seg: string, p: string)
    requires '/' !in seg && HasPrefix(own + "/" + seg, p + "/")
    ensures HasPrefix(own + "/", p + "/")
  {
    var path := own + "/" + seg;
    assert path[|p|] == (p + "/")[|p|] == '/';
    assert forall i :: |own| < i < |path| ==> path[i] == seg[i - |own| - 1];
    assert path[..|own| + 1] == own + "/";
    assert (own + "/")[..|p| + 1] == path[..|p| + 1];
  }

  lemma PrefixOfPrefix(a: string, b: string, s: string)
    requires HasPrefix(b, a) && HasPrefix(s, b)
    ensures HasPrefix(s, a)
  {
    assert s[..|a|] == b[..|a|];
  }

  /** What matches just beyond a route matches everything below it. */
  lemma BeyondHitsBelow(ts: seq<HttpTrigger>, k: nat, route: string, path: string)
    requires k < |ts| && Below(route, path) && MatchRoute(ts[k].route, Beyond(ts, route)).Some?
    ensures MatchRoute(ts[k].route, path).Some?
  {
    var other := ts[k].route;
    MatchIff(other, Beyond(ts, route));
    MatchIff(other, path);
    assert |OwnPath(other)| <= |other| < |FreshSegment(ts)|;
    assert OwnPath(other) != Beyond(ts, route);
    if OwnPath(other) != "" {
      SlashPrefix(OwnPath(route), FreshSegment(ts), OwnPath(other));
      assert |OwnPath(other)| <= |OwnPath(route)|;
      PrefixOfPrefix(OwnPath(other) + "/", OwnPath(route) + "/", path);
    }
  }

  /** Of two routes that match the path further down, the one of smaller reach matches just beyond the other. */
  lemma BelowBoth(ts: seq<HttpTrigger>, long: string, short: string, path: string)
    requires Below(long, path) && Below(short, path) && Reach(short) <= Reach(long)
    ensures Below(short, Beyond(ts, long))
  {
    var own, p, beyond := OwnPath(long), OwnPath(short), Beyond(ts, long);
    if p != "" {
      assert beyond[..|own| + 1] == own + "/";
      assert path[..|own| + 1] == own + "/" && path[..|p| + 1] == p + "/";
      assert (own + "/")[..|p| + 1] == path[..|own| + 1][..|p| + 1] == p + "/";
      PrefixOfPrefix(p + "/", own + "/", beyond);
    }
  }

  lemma BeyondIsHeaviest(ts: seq<HttpTrigger>, path: string, i: nat, route: string)
    requires Heaviest(ts, path, i) && Below(route, path) && MatchRoute(ts[i].route, Beyond(ts, route)).Some?
    ensures Heaviest(ts, Beyond(ts, route), i)
  {
    forall k | 0 <= k < |ts| && MatchRoute(ts[k].route, Beyond(ts, route)).Some?
      ensures |PrefixOf(ts[k].route)| <= |PrefixOf(ts[i].route)|
    {
      BeyondHitsBelow(ts, k, route, path);
    }
  }

  /** Ties that disagree on a path further down disagree just beyond the longer route. */
  lemma DisagreeBeyond(ts: seq<HttpTrigger>, path: string, i: nat, j: nat)
    requires Heaviest(ts, path, i) && Heaviest(ts, path, j) && Given(ts[i], path) != Given(ts[j], path)
    requires Below(ts[i].route, path) && Below(ts[j].route, path) && path != "" && Reach(ts[j].route) <= Reach(ts[i].route)
    ensures !TiesAgreeOn(ts, Beyond(ts, ts[i].route))
  {
    var long, short := ts[i].route, ts[j].route;
    var beyond := Beyond(ts, long);
    BeyondIsBelow(ts, long);
    BelowBoth(ts, long, short, path);
    MatchIff(long, path);
    MatchIff(short, path);
    MatchIff(long, beyond);
    MatchIff(short, beyond);
    BeyondIsHeaviest(ts, path, i, long);
    BeyondIsHeaviest(ts, path, j, long);
    assert |MatchRoute(long, beyond).value| == |beyond| - Reach(long) && |MatchRoute(short, beyond).value| == |beyond| - Reach(short);
    assert Given(ts[i], beyond) != Given(ts[j], beyond);
  }

  lemma LongerOf(ts: seq<HttpTrigger>, path: string, i: nat, j: nat)
    requires Heaviest(ts, path, i) && Heaviest(ts, path, j) && Given(ts[i], path) != Given(ts[j], path)
    requires Reach(ts[j].route) <= Reach(ts[i].route)
    ensures !TiesAgreeOn(ts, OwnPath(ts[i].route)) || !TiesAgreeOn(ts, Beyond(ts, ts[i].route))
  {
    var long, short := ts[i].route, ts[j].route;
    MatchIff(long, path);
    MatchIff(short, path);
    if path == OwnPath(long) {
      assert !TiesAgreeOn(ts, path);
    } else {
      assert |path| > Reach(long);
      DisagreeBeyond(ts, path, i, j);
    }
  }

  lemma CheckCoversAllPaths(ts: seq<HttpTrigger>)
    ensures TiesAgree(ts) <==> OrderCheck(ts)
  {
    if !TiesAgree(ts) {
      var path, i: nat, j: nat :| Heaviest(ts, path, i) && Heaviest(ts, path, j) && Given(ts[i], path) != Given(ts[j], path);
      if Reach(ts[j].route) <= Reach(ts[i].route) { LongerOf(ts, path, i, j); } else { LongerOf(ts, path, j, i); }
    }
  }

  /** For routes of any shape the answers are independent of the declaration order exactly when the check passes. */
  lemma OrderCheckIff(ts: seq<HttpTrigger>)
    ensures OrderIrrelevant(ts) <==> OrderCheck(ts)
  {
    AnyRoutesOrderIrrelevantIff(ts);
    CheckCoversAllPaths(ts);
  }
}
