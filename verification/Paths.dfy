/** Path splitting in the callback handler against path parsing in the route handler. */
module Paths {
  import opened Kube
  import opened Backends

  predicate SlashFree(s: string) { Lacks(s, '/') }

  lemma Assoc<T>(a: seq<T>, b: seq<T>, c: seq<T>)
    ensures a + (b + c) == a + b + c
  {
  }

  lemma JoinCut(s: string, i: nat)
    requires i < |s|
    ensures s == s[..i] + [s[i]] + s[i + 1..]
  {
  }

  /** The pieces between slashes; always at least one. */
  function Split(s: string): (pieces: seq<string>)
    ensures |pieces| >= 1
  {
    if s == "" then [""]
    else
      Grow(Split(s[..|s| - 1]), s[|s| - 1])
  }

  /** One more character: a slash opens a new piece, anything else extends the last one. */
  function Grow(pieces: seq<string>, c: char): (grown: seq<string>)
    requires |pieces| >= 1
    ensures |grown| >= 1
  {
    if c == '/' then pieces + [""]
    else pieces[..|pieces| - 1] + [pieces[|pieces| - 1] + [c]]
  }

  function Join(pieces: seq<string>): string
    requires |pieces| >= 1
  {
    if |pieces| == 1 then pieces[0]
    else Join(pieces[..|pieces| - 1]) + "/" + pieces[|pieces| - 1]
  }

  /** After `i` characters: the closed pieces, and where the open one starts. */
  ghost predicate Scanned(s: string, i: nat, start: nat, parts: seq<string>) {
    start <= i <= |s| && Split(s[..i]) == parts + [s[start..i]]
  }

  lemma ScanNext(s: string, i: nat, start: nat, parts: seq<string>)
    requires Scanned(s, i, start, parts) && i < |s|
    ensures if s[i] == '/' then Scanned(s, i + 1, i + 1, parts + [s[start..i]]) else Scanned(s, i + 1, start, parts)
  {
    var pieces := parts + [s[start..i]];
    assert s[..i + 1][..i] == s[..i];
    assert pieces[..|pieces| - 1] == parts && pieces[|pieces| - 1] == s[start..i];
    if s[i] == '/' {
      assert s[i + 1..i + 1] == "";
    } else {
      assert s[start..i + 1] == s[start..i] + [s[i]];
    }
  }

  lemma ScanEnd(s: string, start: nat, parts: seq<string>)
    requires Scanned(s, |s|, start, parts)
    ensures Split(s) == parts + [s[start..]]
  {
    assert s[..|s|] == s && s[start..|s|] == s[start..];
  }

  method SplitSlash(s: string) returns (parts: seq<string>)
    ensures parts == Split(s)
  {
    parts := [];
    var start := 0;
    for i := 0 to |s|
      invariant Scanned(s, i, start, parts)
    {
      ScanNext(s, i, start, parts);
      if s[i] == '/' {
        parts := parts + [s[start..i]];
        start := i + 1;
      }
    }
    ScanEnd(s, start, parts);
    parts := parts + [s[start..]];
  }

  function NonEmpty(pieces: seq<string>): seq<string> {
    if pieces == [] then []
    else NonEmpty(pieces[..|pieces| - 1]) + if pieces[|pieces| - 1] == "" then [] else [pieces[|pieces| - 1]]
  }

  method SplitPath(path: string) returns (parts: seq<string>)
    ensures parts == NonEmpty(Split(path))
  {
    var pieces := SplitSlash(path);
    parts := [];
    for i := 0 to |pieces|
      invariant parts == NonEmpty(pieces[..i])
    {
      assert pieces[..i + 1][..i] == pieces[..i];
      if pieces[i] != "" {
        parts := parts + [pieces[i]];
      }
    }
    assert pieces[..|pieces|] == pieces;
  }

  lemma JoinSlash(pieces: seq<string>)
    requires |pieces| >= 1
    ensures Join(Grow(pieces, '/')) == Join(pieces) + ['/']
  {
    assert Grow(pieces, '/')[..|pieces|] == pieces;
  }

  lemma JoinChar(pieces: seq<string>, c: char)
    requires |pieces| >= 1 && c != '/'
    ensures Join(Grow(pieces, c)) == Join(pieces) + [c]
  {
    var n := |pieces| - 1;
    assert Grow(pieces, c)[..n] == pieces[..n];
    if n > 0 {
      Assoc(Join(pieces[..n]) + "/", pieces[n], [c]);
    }
  }

  lemma GrowSlashFree(pieces: seq<string>, c: char)
    requires |pieces| >= 1 && forall i | 0 <= i < |pieces| :: SlashFree(pieces[i])
    ensures forall i | 0 <= i < |Grow(pieces, c)| :: SlashFree(Grow(pieces, c)[i])
  {
  }

  lemma JoinGrow(pieces: seq<string>, c: char)
    requires |pieces| >= 1
    ensures Join(Grow(pieces, c)) == Join(pieces) + [c]
  {
    if c == '/' {
      JoinSlash(pieces);
    } else {
      JoinChar(pieces, c);
    }
  }

  lemma SplitSnoc(s: string, c: char)
    ensures Split(s + [c]) == Grow(Split(s), c)
  {
    assert (s + [c])[..|s|] == s;
  }

  ghost predicate PiecesOf(s: string, pieces: seq<string>) {
    |pieces| >= 1 && Join(pieces) == s && forall i | 0 <= i < |pieces| :: SlashFree(pieces[i])
  }

  lemma PiecesNext(front: string, c: char)
    requires PiecesOf(front, Split(front))
    ensures PiecesOf(front + [c], Split(front + [c]))
  {
    SplitSnoc(front, c);
    JoinGrow(Split(front), c);
    GrowSlashFree(Split(front), c);
  }

  lemma Snoc<T>(s: seq<T>)
    requires s != []
    ensures s == s[..|s| - 1] + [s[|s| - 1]]
  {
  }

  /** Joining the pieces gives the path back, and no piece holds a slash. */
  lemma {:induction false} JoinSplit(s: string)
    ensures Join(Split(s)) == s
    ensures forall i | 0 <= i < |Split(s)| :: SlashFree(Split(s)[i])
  {
    if s != "" {
      JoinSplit(s[..|s| - 1]);
      PiecesNext(s[..|s| - 1], s[|s| - 1]);
      Snoc(s);
    }
  }

  lemma {:induction false} SplitSlashFree(s: string)
    requires SlashFree(s)
    ensures Split(s) == [s]
  {
    if s != "" {
      SplitSlashFree(s[..|s| - 1]);
      assert s == s[..|s| - 1] + [s[|s| - 1]];
    }
  }

  lemma GrowAppend(xs: seq<string>, ys: seq<string>, c: char)
    requires |ys| >= 1
    ensures Grow(xs + ys, c) == xs + Grow(ys, c)
  {
    assert (xs + ys)[|xs + ys| - 1] == ys[|ys| - 1];
    assert (xs + ys)[..|xs + ys| - 1] == xs + ys[..|ys| - 1];
  }

  lemma SplitAppendNext(a: string, front: string, c: char)
    requires a != "" && Split(a + front) == Split(a[..|a| - 1]) + Split(front)
    ensures Split(a + (front + [c])) == Split(a[..|a| - 1]) + Split(front + [c])
  {
    SplitSnoc(a + front, c);
    SplitSnoc(front, c);
    GrowAppend(Split(a[..|a| - 1]), Split(front), c);
    Assoc(a, front, [c]);
  }

  lemma {:induction false} SplitAppend(a: string, b: string)
    ensures Split(a + "/" + b) == Split(a) + Split(b)
  {
    var slashed := a + "/";
    assert slashed[..|slashed| - 1] == a;
    if b == "" {
      SplitSnoc(a, '/');
      assert slashed + b == a + ['/'];
    } else {
      var front, c := b[..|b| - 1], b[|b| - 1];
      SplitAppend(a, front);
      SplitAppendNext(slashed, front, c);
      assert b == front + [c];
    }
  }

  lemma SplitLast(a: string, b: string)
    requires SlashFree(b)
    ensures Split(a + "/" + b) == Split(a) + [b]
  {
    SplitSlashFree(b);
    SplitAppend(a, b);
  }

  lemma SplitFirst(a: string, b: string)
    requires SlashFree(a)
    ensures Split(a + "/" + b) == [a] + Split(b)
  {
    SplitSlashFree(a);
    SplitAppend(a, b);
  }

  /** Splitting undoes joining of slash-free pieces: the two are inverse to each other. */
  lemma {:induction false} SplitJoin(pieces: seq<string>)
    requires |pieces| >= 1 && forall i | 0 <= i < |pieces| :: SlashFree(pieces[i])
    ensures Split(Join(pieces)) == pieces
  {
    var n := |pieces| - 1;
    if n > 0 {
      SplitJoin(pieces[..n]);
      SplitLast(Join(pieces[..n]), pieces[n]);
      Snoc(pieces);
    } else {
      SplitSlashFree(pieces[0]);
      assert pieces == [pieces[0]];
    }
  }

  // --------------------------------------------------------------- the route handler

  function TrimSlash(path: string): string {
    if path != "" && path[0] == '/' then path[1..] else path
  }

  /** `strings.SplitN(s, "/", 3)`. */
  function SplitThree(s: string): seq<string> {
    var i := FirstIndex(s, '/');
    if i == |s| then [s] else [s[..i]] + SplitTwo(s[i + 1..])
  }

  function SplitTwo(s: string): seq<string> {
    var i := FirstIndex(s, '/');
    if i == |s| then [s] else [s[..i], s[i + 1..]]
  }

  datatype Target = Target(key: Key, tail: string)

  /** The Routemap key and tail a request path names, if it has the right shape. */
  function ParseRoute(path: string): Option<Target> {
    var parts := SplitThree(TrimSlash(path));
    if |parts| < 2 || parts[0] == "" || parts[1] == "" then None
    else Some(Target(Key(parts[0], parts[1]), if |parts| == 3 then parts[2] else ""))
  }

  datatype Decision = NotFound | Callback(key: Key) | Login(key: Key) | Endpoints(key: Key) | Dashboard(key: Key)

  /**
   * What `routeHandler` does: `views` says which keys are stored and whether they demand a login, `oidc`
   * whether login is configured, `session` whether the request carries a valid session for the key.
   */
  function Dispatch(path: string, views: map<Key, bool>, oidc: bool, session: bool): Decision {
    match ParseRoute(path)
    case None => NotFound
    case Some(Target(key, tail)) =>
      if key !in views then NotFound
      else if tail == "callback" && oidc then Callback(key)
      else if views[key] && oidc && !session then Login(key)
      else if tail == "api/endpoints" then Endpoints(key)
      else Dashboard(key)
  }

  /** The namespace and name the callback derives, empty when the path has fewer than two pieces. */
  function CallbackKey(path: string): Key {
    var parts := NonEmpty(Split(path));
    if |parts| >= 2 then Key(parts[0], parts[1]) else Key("", "")
  }

  function DashPath(path: string): string {
    var key := CallbackKey(path);
    if key.ns != "" && key.name != "" then "/" + key.ns + "/" + key.name else "/"
  }

  lemma SplitThreeFrom(s: string, a: string, b: string)
    requires |a| < |s| && s[|a|] == '/' && s[..|a|] == a && s[|a| + 1..] == b && SlashFree(a)
    ensures SplitThree(s) == [a] + SplitTwo(b)
  {
    assert forall k | 0 <= k < |a| :: s[k] == a[k];
    FirstIndexIs(s, '/', |a|);
  }

  lemma SplitThreeAt(a: string, b: string)
    requires SlashFree(a)
    ensures SplitThree(a + "/" + b) == [a] + SplitTwo(b)
  {
    CutJoined(a, '/', b);
    SplitThreeFrom(a + ['/'] + b, a, b);
  }

  /** A path that spells a namespace and a name, and perhaps a tail, is accepted. */
  lemma ParseSpelled(ns: string, name: string)
    requires ns != "" && name != "" && SlashFree(ns) && SlashFree(name)
    ensures ParseRoute("/" + ns + "/" + name) == Some(Target(Key(ns, name), ""))
  {
    Assoc("/", ns, "/");
    Assoc("/", ns + "/", name);
    SpelledParses("/" + (ns + "/" + name), Key(ns, name), "");
  }

  lemma ParseSpelledTail(ns: string, name: string, tail: string)
    requires ns != "" && name != "" && SlashFree(ns) && SlashFree(name)
    ensures ParseRoute("/" + (ns + "/" + (name + "/" + tail))) == Some(Target(Key(ns, name), tail))
  {
    SpelledParses("/" + Spelled(Key(ns, name), tail), Key(ns, name), tail);
  }

  lemma CutAt(s: string, c: char)
    ensures var i := FirstIndex(s, c);
      Lacks(s[..i], c) && if i < |s| then s == s[..i] + [c] + s[i + 1..] else s[..i] == s
  {
    if FirstIndex(s, c) < |s| {
      JoinCut(s, FirstIndex(s, c));
    }
  }

  lemma SplitThreeJoins(s: string)
    requires |SplitThree(s)| >= 2
    ensures var parts := SplitThree(s);
      && SlashFree(parts[0]) && SlashFree(parts[1])
      && s == parts[0] + "/" + (if |parts| == 3 then parts[1] + "/" + parts[2] else parts[1])
  {
    CutAt(s, '/');
    CutAt(s[FirstIndex(s, '/') + 1..], '/');
  }

  lemma {:induction false} NonEmptyStart(first: string, pieces: seq<string>)
    ensures NonEmpty([first] + pieces) == (if first == "" then [] else [first]) + NonEmpty(pieces)
  {
    if pieces == [] {
      assert [first] + pieces == [first] && [first][..0] == [];
    } else {
      var n := |pieces| - 1;
      NonEmptyStart(first, pieces[..n]);
      assert ([first] + pieces)[..n + 1] == [first] + pieces[..n];
    }
  }

  lemma NonEmptyPair(ns: string, name: string, more: seq<string>)
    requires ns != "" && name != ""
    ensures NonEmpty([ns] + ([name] + more)) == [ns, name] + NonEmpty(more)
  {
    NonEmptyStart(ns, [name] + more);
    NonEmptyStart(name, more);
  }

  lemma ThreePieces(a: string, b: string, c: string)
    requires SlashFree(a) && SlashFree(b)
    ensures Split(a + "/" + (b + "/" + c)) == [a] + ([b] + Split(c))
  {
    SplitFirst(a, b + "/" + c);
    SplitFirst(b, c);
  }

  lemma TwoPieces(a: string, b: string)
    requires SlashFree(a) && SlashFree(b)
    ensures Split(a + "/" + b) == [a] + ([b] + [])
  {
    SplitFirst(a, b);
    SplitSlashFree(b);
  }

  /** The pieces of an accepted path, less its leading slash: the namespace, the name, and the tail's. */
  lemma TrimmedPieces(path: string) returns (more: seq<string>)
    requires ParseRoute(path).Some?
    ensures var key := ParseRoute(path).value.key;
      && key.ns != "" && key.name != "" && SlashFree(key.ns) && SlashFree(key.name)
      && Split(TrimSlash(path)) == [key.ns] + ([key.name] + more)
  {
    var s := TrimSlash(path);
    var parts := SplitThree(s);
    SplitThreeJoins(s);
    if |parts| == 3 {
      ThreePieces(parts[0], parts[1], parts[2]);
      more := Split(parts[2]);
    } else {
      TwoPieces(parts[0], parts[1]);
      more := [];
    }
  }

  /** The leading slash adds an empty piece, which does not count. */
  lemma LeadingSlash(path: string)
    ensures NonEmpty(Split(path)) == NonEmpty(Split(TrimSlash(path)))
  {
    var s := TrimSlash(path);
    if s != path {
      assert path == "" + "/" + s;
      SplitAppend("", s);
      NonEmptyStart("", Split(s));
    }
  }

  /**
   * Login round trip on paths: for every path the route handler accepts, the callback derives the same key,
   * and the path it redirects to is accepted again with that key and an empty tail.
   */
  lemma CallbackAgrees(path: string)
    requires ParseRoute(path).Some?
    ensures CallbackKey(path) == ParseRoute(path).value.key
    ensures ParseRoute(DashPath(path)) == Some(Target(ParseRoute(path).value.key, ""))
  {
    var key := ParseRoute(path).value.key;
    var more := TrimmedPieces(path);
    LeadingSlash(path);
    NonEmptyPair(key.ns, key.name, more);
    assert CallbackKey(path) == key;
    ParseSpelled(key.ns, key.name);
  }

  /** The path spells the key, with one slash in front or none, and then the tail, or nothing for an empty one. */
  predicate Spells(path: string, key: Key, tail: string) {
    && key.ns != "" && key.name != "" && SlashFree(key.ns) && SlashFree(key.name)
    && (path == Spelled(key, tail) || path == "/" + Spelled(key, tail)
        || (tail == "" && (path == key.ns + "/" + key.name || path == "/" + (key.ns + "/" + key.name))))
  }

  function Spelled(key: Key, tail: string): string { key.ns + "/" + (key.name + "/" + tail) }

  lemma TrimKeeps(first: string, rest: string)
    requires first != "" && SlashFree(first)
    ensures TrimSlash(first + rest) == first + rest && TrimSlash("/" + (first + rest)) == first + rest
  {
    assert (first + rest)[0] == first[0];
  }

  lemma ThreeParts(key: Key, tail: string)
    requires SlashFree(key.ns) && SlashFree(key.name)
    ensures SplitThree(Spelled(key, tail)) == [key.ns, key.name, tail]
    ensures SplitThree(key.ns + "/" + key.name) == [key.ns, key.name]
  {
    SplitThreeAt(key.ns, key.name + "/" + tail);
    FirstJoined(key.name, '/', tail);
    CutJoined(key.name, '/', tail);
    SplitThreeAt(key.ns, key.name);
    FirstIndexIs(key.name, '/', |key.name|);
  }

  /** Parsing goes by the three parts of the path without its leading slash. */
  lemma ParseByParts(path: string, s: string, key: Key, tail: string)
    requires TrimSlash(path) == s && key.ns != "" && key.name != ""
    requires SplitThree(s) == [key.ns, key.name, tail] || (tail == "" && SplitThree(s) == [key.ns, key.name])
    ensures ParseRoute(path) == Some(Target(key, tail))
  {
  }

  lemma TrimsTo(path: string, first: string, rest: string)
    requires first != "" && SlashFree(first)
    requires path == first + "/" + rest || path == "/" + (first + "/" + rest)
    ensures TrimSlash(path) == first + "/" + rest
  {
    Assoc(first, "/", rest);
    TrimKeeps(first, "/" + rest);
  }

  lemma SpelledParses(path: string, key: Key, tail: string)
    requires Spells(path, key, tail)
    ensures ParseRoute(path) == Some(Target(key, tail))
  {
    ThreeParts(key, tail);
    if path == Spelled(key, tail) || path == "/" + Spelled(key, tail) {
      TrimsTo(path, key.ns, key.name + "/" + tail);
      ParseByParts(path, Spelled(key, tail), key, tail);
    } else {
      TrimsTo(path, key.ns, key.name);
      ParseByParts(path, key.ns + "/" + key.name, key, tail);
    }
  }

  lemma ParsedSpells(path: string)
    requires ParseRoute(path).Some?
    ensures Spells(path, ParseRoute(path).value.key, ParseRoute(path).value.tail)
  {
    var s := TrimSlash(path);
    SplitThreeJoins(s);
    assert path == s || path == "/" + s;
  }

  /** The route handler accepts exactly the paths that spell a namespace and a name, and reads them that way. */
  lemma ParseExactly(path: string, key: Key, tail: string)
    ensures ParseRoute(path) == Some(Target(key, tail)) <==> Spells(path, key, tail)
  {
    if ParseRoute(path) == Some(Target(key, tail)) {
      ParsedSpells(path);
    }
    if Spells(path, key, tail) {
      SpelledParses(path, key, tail);
    }
  }

  /**
   * The decision for a path that spells a key: each of the five is taken exactly when its condition on the tail,
   * the stored views, the configuration and the session holds.
   */
  lemma DispatchExactly(path: string, key: Key, tail: string, views: map<Key, bool>, oidc: bool, session: bool)
    requires Spells(path, key, tail)
    ensures var d := Dispatch(path, views, oidc, session);
      && (d == NotFound <==> key !in views)
      && (d == Callback(key) <==> key in views && tail == "callback" && oidc)
      && (d == Login(key) <==>
            key in views && !(tail == "callback" && oidc) && views[key] && oidc && !session)
      && (d == Endpoints(key) <==>
            && key in views && !(tail == "callback" && oidc) && (views[key] && oidc ==> session)
            && tail == "api/endpoints")
      && (d == Dashboard(key) <==>
            && key in views && !(tail == "callback" && oidc) && (views[key] && oidc ==> session)
            && tail != "api/endpoints")
  {
    SpelledParses(path, key, tail);
  }

  /** Any other path is not found. */
  lemma OtherwiseNotFound(path: string, views: map<Key, bool>, oidc: bool, session: bool)
    requires forall key, tail :: !Spells(path, key, tail)
    ensures Dispatch(path, views, oidc, session) == NotFound
  {
    if ParseRoute(path).Some? {
      ParsedSpells(path);
    }
  }

  /** The callback goes back to the first two pieces of its path, or to the root when there are fewer. */
  lemma DashPathIs(path: string)
    ensures var pieces := NonEmpty(Split(path));
      && (|pieces| < 2 ==> DashPath(path) == "/")
      && (|pieces| >= 2 ==> DashPath(path) == "/" + pieces[0] + "/" + pieces[1])
  {
    NonEmptyOnly(Split(path));
  }

  lemma {:induction false} NonEmptyOnly(pieces: seq<string>)
    ensures forall i | 0 <= i < |NonEmpty(pieces)| :: NonEmpty(pieces)[i] != ""
    ensures multiset(NonEmpty(pieces)) == multiset(pieces)["" := 0]
  {
    if pieces != [] {
      var n := |pieces| - 1;
      NonEmptyOnly(pieces[..n]);
      assert pieces == pieces[..n] + [pieces[n]];
    }
  }

  /** With an empty tail the request is for the dashboard itself, behind a login if the view demands one. */
  lemma EmptyTail(path: string, views: map<Key, bool>, key: Key, session: bool)
    requires ParseRoute(path) == Some(Target(key, "")) && key in views
    ensures Dispatch(path, views, true, session) == if views[key] && !session then Login(key) else Dashboard(key)
  {
    assert |"callback"| == 8 && |"api/endpoints"| == 13;
  }
}
