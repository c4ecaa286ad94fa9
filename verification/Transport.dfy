/**
  How a path given to the invoke endpoint reaches a guest: `invokeWorker` of
  internal/httpapi/invoke.go, the URL it makes, and the two routes of services/worker/src/server.rs.
*/
module Transport {
  import opened Wrappers
  import opened Strings
  import opened Routes
  import opened Loader
  import ImageRef

  /** The handler's normalisation: never empty, always rooted. */
  function Normalised(path: string): string {
    if path == "" then "/" else if HasPrefix(path, "/") then path else "/" + path
  }

  /** The URL after the worker's address, without the query the handler may append. */
  function Target(app: string, path: string): string {
    "/apps/" + app + if Normalised(path) == "/" then "" else Normalised(path)
  }

  // ---------- the URL on its way ----------

  predicate Control(c: char) {
    c < ' ' || c == 0x7f as char
  }

  predicate NoControl(s: string) {
    forall i :: 0 <= i < |s| ==> !Control(s[i])
  }

  function Cut(s: string, c: char): string {
    s[..FirstIndex(s, c)]
  }

  function HexValue(c: char): Option<int> {
    if '0' <= c <= '9' then Some(c as int - '0' as int)
    else if 'a' <= c <= 'f' then Some(c as int - 'a' as int + 10)
    else if 'A' <= c <= 'F' then Some(c as int - 'A' as int + 10)
    else None
  }

  /** Percent-decoding; malformed escapes are an error. */
  function Unescape(s: string): Option<string> {
    if s == "" then Some("")
    else if s[0] == '%' then
      if |s| < 3 || HexValue(s[1]).None? || HexValue(s[2]).None? then None
      else
        var rest := Unescape(s[3..]);
        if rest.None? then None else Some([(HexValue(s[1]).value * 16 + HexValue(s[2]).value) as char] + rest.value)
    else
      var rest := Unescape(s[1..]);
      if rest.None? then None else Some([s[0]] + rest.value)
  }

  /** The path the worker's server sees: fragment and query cut off, escapes decoded. */
  function ServerPath(target: string, query: string): Option<string> {
    var url := target + if query != "" then "?" + query else "";
    if !NoControl(url) then None
    else Unescape(Cut(Cut(url, '#'), '?'))
  }

  /** The routes /apps/{app} and /apps/{app}/{*rest}; the wildcard needs at least one character. */
  function InnerPath(app: string, served: string): Option<string> {
    var root := "/apps/" + app;
    if served == root then Some("/")
    else if HasPrefix(served, root + "/") && |served| > |root| + 1 then Some(served[|root|..])
    else None
  }

  /** The inner path `dispatch` is called with, if the request gets there. */
  function Delivered(app: string, path: string, query: string): Option<string> {
    var p := ServerPath(Target(app, path), query);
    if p.None? then None else InnerPath(app, p.value)
  }

  // ---------- which paths arrive ----------

  predicate Transparent(c: char) {
    c != '?' && c != '#' && c != '%' && !Control(c)
  }

  predicate AllTransparent(s: string) {
    forall i :: 0 <= i < |s| ==> Transparent(s[i])
  }

  /** url.Values.Encode yields none of these. */
  predicate EncodedQuery(q: string) {
    NoControl(q) && '#' !in q
  }

  lemma {:induction false} UnescapeShrinks(s: string)
    ensures Unescape(s).Some? ==> |Unescape(s).value| <= |s|
    ensures Unescape(s).Some? && |Unescape(s).value| == |s| ==> '%' !in s && Unescape(s).value == s
    ensures '%' !in s ==> Unescape(s) == Some(s)
  {
    if s != "" {
      assert s == [s[0]] + s[1..];
      if s[0] == '%' {
        if |s| >= 3 { UnescapeShrinks(s[3..]); }
      } else {
        UnescapeShrinks(s[1..]);
      }
    }
  }

  lemma CutShrinks(s: string, c: char)
    ensures |Cut(s, c)| <= |s| && (|Cut(s, c)| == |s| <==> c !in s)
    ensures c !in s ==> Cut(s, c) == s
  {
  }

  lemma CutAt(a: string, c: char, b: string)
    requires c !in a
    ensures Cut(a + [c] + b, c) == a
  {
    var s := a + [c] + b;
    assert s[|a|] == c;
    assert forall i :: 0 <= i < |a| ==> s[i] == a[i];
  }

  lemma NameIsTransparent(app: string)
    requires ImageRef.Dns1123(app)
    ensures AllTransparent("/apps/" + app)
  {
    assert AllTransparent("/apps/");
  }

  lemma TargetIsTransparent(app: string, path: string)
    requires ImageRef.Dns1123(app)
    ensures AllTransparent(Target(app, path)) <==> AllTransparent(path)
  {
    NameIsTransparent(app);
    var root := "/apps/" + app;
    var t := Target(app, path);
    if Normalised(path) != "/" {
      assert t == root + Normalised(path);
      if AllTransparent(t) {
        forall i | 0 <= i < |path|
          ensures Transparent(path[i])
        {
          assert path[i] == t[|t| - |path| + i];
        }
      }
    }
  }

  lemma {:induction false} Chars(s: string)
    ensures AllTransparent(s) <==> '?' !in s && '#' !in s && '%' !in s && NoControl(s)
  {
  }

  /** A transparent target reaches the server as it is, whatever the query. */
  lemma TransparentArrives(target: string, query: string)
    requires AllTransparent(target) && EncodedQuery(query)
    ensures ServerPath(target, query) == Some(target)
  {
    Chars(target);
    var tail := if query != "" then "?" + query else "";
    var url := target + tail;
    assert forall i :: 0 <= i < |tail| ==> tail[i] != '#' && !Control(tail[i]);
    assert forall i :: 0 <= i < |url| ==> url[i] == if i < |target| then target[i] else tail[i - |target|];
    assert '#' !in url;
    CutShrinks(url, '#');
    if query == "" {
      assert url == target;
      CutShrinks(url, '?');
    } else {
      assert url == target + ['?'] + query;
      CutAt(target, '?', query);
    }
    UnescapeShrinks(target);
  }

  /** Only a transparent target reaches the server as it is. */
  lemma OnlyTransparentArrives(target: string, query: string)
    requires ServerPath(target, query) == Some(target)
    ensures AllTransparent(target)
  {
    Chars(target);
    var url := target + if query != "" then "?" + query else "";
    assert forall i :: 0 <= i < |target| ==> url[i] == target[i];
    var a := Cut(url, '#');
    var b := Cut(a, '?');
    UnescapeShrinks(b);
    assert b == url[..|b|];
    assert query != "" ==> url[|target|] == '?';
    assert '#' !in a && '?' !in b;
    assert |b| <= |target|;
    assert forall i :: 0 <= i < |b| ==> b[i] == a[i];
    assert b == target;
    assert forall i :: 0 <= i < |target| ==> !Control(target[i]);
  }

  lemma TransparentIsDelivered(app: string, path: string, query: string)
    requires ImageRef.Dns1123(app) && EncodedQuery(query) && AllTransparent(path)
    ensures Delivered(app, path, query) == Some(Normalised(path))
  {
    TargetIsTransparent(app, path);
    TransparentArrives(Target(app, path), query);
    var root, rest := "/apps/" + app, Normalised(path);
    if rest != "/" {
      assert rest[0] == '/';
      assert (root + rest)[|root|..] == rest;
      assert (root + rest)[..|root| + 1] == root + "/";
    }
  }

  /** What the inner path is cut from. */
  lemma InnerPathRebuilds(app: string, served: string, rest: string)
    requires InnerPath(app, served) == Some(rest) && rest != "/"
    ensures served == "/apps/" + app + rest
  {
    var root := "/apps/" + app;
    assert served[..|root|] == (root + "/")[..|root|] == root;
    assert served == served[..|root|] + served[|root|..];
  }

  lemma DeliveredIsTransparent(app: string, path: string, query: string)
    requires ImageRef.Dns1123(app)
    requires Delivered(app, path, query) == Some(Normalised(path))
    ensures AllTransparent(path)
  {
    if Normalised(path) == "/" {
      assert path == "" || path == "/";
    } else {
      InnerPathRebuilds(app, ServerPath(Target(app, path), query).value, Normalised(path));
      OnlyTransparentArrives(Target(app, path), query);
      TargetIsTransparent(app, path);
    }
  }

  /** The path asked for, rooted: the empty path is "/". */
  function Rooted(path: string): string {
    if HasPrefix(path, "/") then path else "/" + path
  }

  /** The inner path is the rooted path exactly when the path has no '?', '#', '%' and no control character. */
  lemma PathArrivesIff(app: string, path: string, query: string)
    requires ImageRef.Dns1123(app) && EncodedQuery(query)
    ensures Delivered(app, path, query) == Some(Rooted(path)) <==> AllTransparent(path)
  {
    assert Normalised(path) == Rooted(path);
    if AllTransparent(path) {
      TransparentIsDelivered(app, path, query);
    } else if Delivered(app, path, query) == Some(Rooted(path)) {
      DeliveredIsTransparent(app, path, query);
    }
  }

  /**
    End to end: such a path is dispatched as the one that was asked for. A guest that is called is the compiled
    component of the trigger that has the longest prefix among those that match, the first of these on ties; it sees a
    rooted path, and behind a well-formed route the prefix followed by it is the path asked for; the bare prefix is "/".
  */
  lemma GuestSeesTheRest(table: map<string, AppEntry>, app: string, path: string, query: string)
    requires ImageRef.Dns1123(app) && EncodedQuery(query) && AllTransparent(path) && app in table && Whole(table[app])
    ensures Delivered(app, path, query) == Some(Rooted(path)) && HasPrefix(Rooted(path), "/")
    ensures var d := Dispatch(table, app, Delivered(app, path, query).value);
      Answers(table[app].app, Rooted(path), d) && (d.Invoke? ==> HasPrefix(d.guestPath, "/"))
  {
    PathArrivesIff(app, path, query);
    DispatchServesIff(table, app, Rooted(path), Dispatch(table, app, Rooted(path)));
  }
}
