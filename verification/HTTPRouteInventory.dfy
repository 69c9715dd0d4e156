/** internal/inventory/httproute.go: one HTTPRoute becomes rules x matches x hostnames. */
module HTTPRouteInventory {
  import opened Kube
  import opened Decimal
  import opened Backends

  datatype PathMatch = PathMatch(value: Option<string>, kind: Option<string>)
  datatype RouteMatch = RouteMatch(path: Option<PathMatch>)
  datatype BackendRef = BackendRef(name: string, port: Option<int32>)
  datatype RouteRule = RouteRule(matches: seq<RouteMatch>, backendRefs: seq<BackendRef>)
  datatype HTTPRoute = HTTPRoute(
    ref: Key,
    annotations: map<string, string>,
    hostnames: seq<string>,
    rules: seq<RouteRule>)

  const DEFAULT_PATH_TYPE := "Prefix"

  function MatchPath(m: RouteMatch): (string, string) {
    match m.path
    case None => ("/", DEFAULT_PATH_TYPE)
    case Some(p) =>
      ((match p.value case Some(v) => v case None => "/"),
       (match p.kind case Some(t) => t case None => DEFAULT_PATH_TYPE))
  }

  function RuleBackend(rule: RouteRule): string {
    if rule.backendRefs == [] then ""
    else
      var ref := rule.backendRefs[0];
      match ref.port
      case Some(n) => ref.name + ":" + Printed(n)
      case None => ref.name
  }

  method BackendFromRule(rule: RouteRule) returns (backend: string)
    ensures backend == RuleBackend(rule)
  {
    if |rule.backendRefs| == 0 {
      return "";
    }
    var ref := rule.backendRefs[0];
    if ref.port.Some? {
      var port := IntToStr(ref.port.value);
      return ref.name + ":" + port;
    }
    return ref.name;
  }

  /** What one match of one rule selects; a rule without matches selects every path once. */
  datatype Selection = Selection(backend: string, path: string, pathType: string)

  function SelectionCount(rule: RouteRule): nat {
    if |rule.matches| > 1 then |rule.matches| else 1
  }

  function RuleSelection(rule: RouteRule, m: nat): Selection
    requires m < SelectionCount(rule)
  {
    if rule.matches == [] then Selection(RuleBackend(rule), "/", DEFAULT_PATH_TYPE)
    else Selection(RuleBackend(rule), MatchPath(rule.matches[m]).0, MatchPath(rule.matches[m]).1)
  }

  function RuleSelections(rule: RouteRule): (ss: seq<Selection>) {
    seq(SelectionCount(rule), m requires 0 <= m < SelectionCount(rule) => RuleSelection(rule, m))
  }

  function SelectionsUpTo(rules: seq<RouteRule>, n: nat): seq<Selection>
    requires n <= |rules|
  {
    if n == 0 then [] else SelectionsUpTo(rules, n - 1) + RuleSelections(rules[n - 1])
  }

  function SelectionEndpoint(route: HTTPRoute, key: Key, annotationKey: string, s: Selection, host: string): Endpoint {
    Endpoint(key, HTTPRouteKind, route.ref, host, s.path, s.pathType, s.backend, false,
      Annotation(route.annotations, annotationKey), Unknown)
  }

  /** One endpoint per hostname, in order. */
  function PerHost(route: HTTPRoute, key: Key, annotationKey: string, s: Selection): (eps: seq<Endpoint>)
    ensures |eps| == |route.hostnames|
  {
    seq(|route.hostnames|, h requires 0 <= h < |route.hostnames| =>
      SelectionEndpoint(route, key, annotationKey, s, route.hostnames[h]))
  }

  /** Every selection for every hostname, hostnames varying fastest. */
  function Product(route: HTTPRoute, key: Key, annotationKey: string, ss: seq<Selection>): seq<Endpoint> {
    if ss == [] then []
    else Product(route, key, annotationKey, ss[..|ss| - 1]) + PerHost(route, key, annotationKey, ss[|ss| - 1])
  }

  function RouteEndpoints(route: HTTPRoute, key: Key, annotationKey: string): seq<Endpoint> {
    Product(route, key, annotationKey, SelectionsUpTo(route.rules, |route.rules|))
  }

  lemma ProductOneMore(route: HTTPRoute, key: Key, annotationKey: string, ss: seq<Selection>, s: Selection)
    ensures Product(route, key, annotationKey, ss + [s])
         == Product(route, key, annotationKey, ss) + PerHost(route, key, annotationKey, s)
  {
    assert (ss + [s])[..|ss|] == ss;
  }

  lemma NextMatch(route: HTTPRoute, key: Key, annotationKey: string, earlier: seq<Selection>, rule: RouteRule, m: nat)
    requires m < |rule.matches|
    ensures var (path, pathType) := MatchPath(rule.matches[m]);
      Product(route, key, annotationKey, earlier + RuleSelections(rule)[..m + 1])
      == Product(route, key, annotationKey, earlier + RuleSelections(rule)[..m])
         + PerHost(route, key, annotationKey, Selection(RuleBackend(rule), path, pathType))
  {
    var s := RuleSelections(rule)[m];
    ProductOneMore(route, key, annotationKey, earlier + RuleSelections(rule)[..m], s);
    assert earlier + RuleSelections(rule)[..m] + [s] == earlier + RuleSelections(rule)[..m + 1];
  }

  lemma NoMatches(route: HTTPRoute, key: Key, annotationKey: string, earlier: seq<Selection>, rule: RouteRule)
    requires rule.matches == []
    ensures Product(route, key, annotationKey, earlier + RuleSelections(rule))
         == Product(route, key, annotationKey, earlier)
            + PerHost(route, key, annotationKey, Selection(RuleBackend(rule), "/", DEFAULT_PATH_TYPE))
  {
    var s := Selection(RuleBackend(rule), "/", DEFAULT_PATH_TYPE);
    ProductOneMore(route, key, annotationKey, earlier, s);
    assert RuleSelections(rule) == [s];
  }

  /** The innermost loop of the source, which writes it out once for each of its two callers below. */
  method AppendPerHost(
    endpoints: seq<Endpoint>, route: HTTPRoute, key: Key, annotationKey: string,
    backend: string, path: string, pathType: string) returns (out: seq<Endpoint>)
    ensures out == endpoints + PerHost(route, key, annotationKey, Selection(backend, path, pathType))
  {
    var healthPath := Annotation(route.annotations, annotationKey);
    var hosts := route.hostnames;
    ghost var block := PerHost(route, key, annotationKey, Selection(backend, path, pathType));
    out := endpoints;
    for h := 0 to |hosts|
      invariant out == endpoints + block[..h]
    {
      var ep := Endpoint(key, HTTPRouteKind, route.ref, hosts[h], path, pathType, backend, false, healthPath, Unknown);
      assert ep == block[h];
      out := out + [ep];
    }
  }

  method HTTPRouteToEndpoints(route: HTTPRoute, routemapKey: Key, annotationKey: string)
    returns (endpoints: seq<Endpoint>)
    ensures endpoints == RouteEndpoints(route, routemapKey, annotationKey)
  {
    endpoints := [];
    for r := 0 to |route.rules|
      invariant endpoints == Product(route, routemapKey, annotationKey, SelectionsUpTo(route.rules, r))
    {
      var rule := route.rules[r];
      var backend := BackendFromRule(rule);
      var matches := rule.matches;
      ghost var earlier := SelectionsUpTo(route.rules, r);
      if |matches| == 0 {
        endpoints := AppendPerHost(endpoints, route, routemapKey, annotationKey, backend, "/", DEFAULT_PATH_TYPE);
        NoMatches(route, routemapKey, annotationKey, earlier, rule);
        continue;
      }
      assert earlier + RuleSelections(rule)[..0] == earlier;
      for m := 0 to |matches|
        invariant endpoints == Product(route, routemapKey, annotationKey, earlier + RuleSelections(rule)[..m])
      {
        var (path, pathType) := MatchPath(matches[m]);
        endpoints := AppendPerHost(endpoints, route, routemapKey, annotationKey, backend, path, pathType);
        NextMatch(route, routemapKey, annotationKey, earlier, rule, m);
      }
      assert RuleSelections(rule)[..|matches|] == RuleSelections(rule);
    }
  }

  /** The number of path selections of the first `n` rules: a rule without matches still selects once. */
  function SelectionOffset(rules: seq<RouteRule>, n: nat): nat
    requires n <= |rules|
  {
    if n == 0 then 0
    else SelectionOffset(rules, n - 1) + SelectionCount(rules[n - 1])
  }

  lemma {:induction false} SelectionsLength(rules: seq<RouteRule>, n: nat)
    requires n <= |rules|
    ensures |SelectionsUpTo(rules, n)| == SelectionOffset(rules, n)
  {
    if n > 0 {
      SelectionsLength(rules, n - 1);
    }
  }

  lemma {:induction false} SelectionAt(rules: seq<RouteRule>, n: nat, r: nat, m: nat)
    requires r < n <= |rules| && m < |RuleSelections(rules[r])|
    ensures SelectionOffset(rules, r) + m < |SelectionsUpTo(rules, n)|
    ensures SelectionsUpTo(rules, n)[SelectionOffset(rules, r) + m] == RuleSelections(rules[r])[m]
  {
    SelectionsLength(rules, n - 1);
    if r < n - 1 {
      SelectionAt(rules, n - 1, r, m);
    }
  }

  /** How many endpoints `s` selections take: `s` times the number of hostnames. */
  function Span(s: nat, hosts: nat): nat {
    if s == 0 then 0 else Span(s - 1, hosts) + hosts
  }

  lemma {:induction false} SpanIsProduct(s: nat, hosts: nat)
    ensures Span(s, hosts) == s * hosts
  {
    if s > 0 {
      SpanIsProduct(s - 1, hosts);
      assert s * hosts == (s - 1) * hosts + hosts;
    }
  }

  lemma {:induction false} ProductLength(route: HTTPRoute, key: Key, annotationKey: string, ss: seq<Selection>)
    ensures |Product(route, key, annotationKey, ss)| == Span(|ss|, |route.hostnames|)
  {
    if ss != [] {
      ProductLength(route, key, annotationKey, ss[..|ss| - 1]);
    }
  }

  lemma {:induction false} ProductEntry(
    route: HTTPRoute, key: Key, annotationKey: string, ss: seq<Selection>, s: nat, h: nat)
    requires s < |ss| && h < |route.hostnames|
    ensures Span(s, |route.hostnames|) + h < |Product(route, key, annotationKey, ss)|
    ensures Product(route, key, annotationKey, ss)[Span(s, |route.hostnames|) + h]
         == SelectionEndpoint(route, key, annotationKey, ss[s], route.hostnames[h])
  {
    var front := ss[..|ss| - 1];
    ProductLength(route, key, annotationKey, front);
    if s < |front| {
      ProductEntry(route, key, annotationKey, front, s, h);
    }
  }

  lemma SelectionIs(rules: seq<RouteRule>, r: nat, m: nat) returns (s: nat)
    requires r < |rules| && m < SelectionCount(rules[r])
    ensures s == SelectionOffset(rules, r) + m && s < |SelectionsUpTo(rules, |rules|)|
    ensures SelectionsUpTo(rules, |rules|)[s] == RuleSelection(rules[r], m)
  {
    s := SelectionOffset(rules, r) + m;
    SelectionAt(rules, |rules|, r, m);
  }

  lemma EntryAt(route: HTTPRoute, key: Key, annotationKey: string, r: nat, m: nat, h: nat)
    returns (s: nat, at: nat)
    requires r < |route.rules| && m < SelectionCount(route.rules[r]) && h < |route.hostnames|
    ensures s == SelectionOffset(route.rules, r) + m && at == Span(s, |route.hostnames|) + h
    ensures at < |RouteEndpoints(route, key, annotationKey)|
    ensures RouteEndpoints(route, key, annotationKey)[at]
         == SelectionEndpoint(route, key, annotationKey, RuleSelection(route.rules[r], m), route.hostnames[h])
  {
    var ss := SelectionsUpTo(route.rules, |route.rules|);
    s := SelectionIs(route.rules, r, m);
    ProductEntry(route, key, annotationKey, ss, s, h);
    at := Span(s, |route.hostnames|) + h;
  }

  /** The path and path type a match gives, each with its own default; a rule without matches gives none. */
  predicate SpellsPath(ep: Endpoint, rule: RouteRule, m: nat) {
    if rule.matches == [] then ep.path == "/" && ep.pathType == "Prefix"
    else
      && m < |rule.matches|
      && match rule.matches[m].path
         case None => ep.path == "/" && ep.pathType == "Prefix"
         case Some(p) =>
           && (p.value.Some? ==> ep.path == p.value.value) && (p.value.None? ==> ep.path == "/")
           && (p.kind.Some? ==> ep.pathType == p.kind.value) && (p.kind.None? ==> ep.pathType == "Prefix")
  }

  /** The text of a backend: nothing without a reference, else the first one's name, and its port if it has one. */
  predicate SpellsBackend(text: string, refs: seq<BackendRef>) {
    && (refs == [] ==> text == "")
    && (refs != [] && refs[0].port.None? ==> text == refs[0].name)
    && (refs != [] && refs[0].port.Some? ==> text == refs[0].name + ":" + Printed(refs[0].port.value))
  }

  /** An endpoint stands for match `m` of a rule and one hostname: every field, from the route itself. */
  predicate StandsFor(
    ep: Endpoint, route: HTTPRoute, rule: RouteRule, m: nat, host: string, key: Key, annotationKey: string)
  {
    && ep.routemapKey == key && ep.sourceKind == HTTPRouteKind && ep.sourceRef == route.ref && ep.health == Unknown
    && ep.host == host && !ep.tls
    && SpellsPath(ep, rule, m) && SpellsBackend(ep.backend, rule.backendRefs)
    && LooksUp(route.annotations, annotationKey, ep.healthPath)
  }

  lemma SelectionFields(route: HTTPRoute, key: Key, annotationKey: string, rule: RouteRule, m: nat, host: string)
    requires m < SelectionCount(rule)
    ensures var ep := SelectionEndpoint(route, key, annotationKey, RuleSelection(rule, m), host);
      StandsFor(ep, route, rule, m, host, key, annotationKey)
  {
  }

  /** A rule selects as often as it has matches, and once if it has none. */
  predicate Selects(rule: RouteRule, m: nat) { m < |rule.matches| || (m == 0 && rule.matches == []) }

  /**
   * The expansion is a positional product: with H hostnames, the entry at (offset of rule r + m) * H + h
   * stands for match m of rule r (or for "every path" of a rule without matches) and hostname h.
   */
  lemma RouteEntry(route: HTTPRoute, key: Key, annotationKey: string, r: nat, m: nat, h: nat)
    returns (s: nat, at: nat)
    requires r < |route.rules| && Selects(route.rules[r], m) && h < |route.hostnames|
    ensures s == SelectionOffset(route.rules, r) + m && at == s * |route.hostnames| + h
    ensures at < |RouteEndpoints(route, key, annotationKey)|
    ensures StandsFor(
      RouteEndpoints(route, key, annotationKey)[at], route, route.rules[r], m, route.hostnames[h], key, annotationKey)
  {
    s, at := EntryAt(route, key, annotationKey, r, m, h);
    SpanIsProduct(s, |route.hostnames|);
    SelectionFields(route, key, annotationKey, route.rules[r], m, route.hostnames[h]);
  }

  /** The offsets count, for each earlier rule, its matches, or one if it has none. */
  lemma OffsetCounts(rules: seq<RouteRule>, n: nat)
    requires n < |rules|
    ensures SelectionOffset(rules, 0) == 0
    ensures rules[n].matches == [] ==> SelectionOffset(rules, n + 1) == SelectionOffset(rules, n) + 1
    ensures rules[n].matches != [] ==>
      SelectionOffset(rules, n + 1) == SelectionOffset(rules, n) + |rules[n].matches|
  {
  }

  /** The backend is that of the first reference, service name and port recoverable from the text. */
  lemma RuleBackendReadsBack(rule: RouteRule)
    requires rule.backendRefs != [] && ColonFree(rule.backendRefs[0].name)
    ensures ReadBackend(RuleBackend(rule))
         == (rule.backendRefs[0].name,
             match rule.backendRefs[0].port case Some(n) => Numbered(n) case None => Unset)
  {
    var ref := rule.backendRefs[0];
    RouteBackendReadsBack(ref.name, match ref.port case Some(n) => n case None => 0);
  }

  /** The length: hostnames times the sum, over the rules, of the larger of one and the number of matches. */
  lemma RouteLength(route: HTTPRoute, key: Key, annotationKey: string)
    ensures |RouteEndpoints(route, key, annotationKey)|
         == SelectionOffset(route.rules, |route.rules|) * |route.hostnames|
  {
    SelectionsLength(route.rules, |route.rules|);
    ProductLength(route, key, annotationKey, SelectionsUpTo(route.rules, |route.rules|));
    SpanIsProduct(SelectionOffset(route.rules, |route.rules|), |route.hostnames|);
  }

  lemma {:induction false} LocateSelection(rules: seq<RouteRule>, n: nat, s: nat) returns (r: nat, m: nat)
    requires n <= |rules| && s < SelectionOffset(rules, n)
    ensures r < n && m < |RuleSelections(rules[r])| && s == SelectionOffset(rules, r) + m
  {
    if s < SelectionOffset(rules, n - 1) {
      r, m := LocateSelection(rules, n - 1, s);
    } else {
      r, m := n - 1, s - SelectionOffset(rules, n - 1);
    }
  }

  lemma {:induction false} LocateProduct(
    route: HTTPRoute, key: Key, annotationKey: string, ss: seq<Selection>, at: nat) returns (s: nat, h: nat)
    requires at < |Product(route, key, annotationKey, ss)|
    ensures s < |ss| && h < |route.hostnames| && at == Span(s, |route.hostnames|) + h
  {
    var front := ss[..|ss| - 1];
    ProductLength(route, key, annotationKey, front);
    if at < |Product(route, key, annotationKey, front)| {
      s, h := LocateProduct(route, key, annotationKey, front, at);
    } else {
      s, h := |front|, at - Span(|front|, |route.hostnames|);
    }
  }

  /** Nothing else is in the list. */
  lemma RouteEntryOrigin(route: HTTPRoute, key: Key, annotationKey: string, at: nat)
    returns (r: nat, m: nat, s: nat, h: nat)
    requires at < |RouteEndpoints(route, key, annotationKey)|
    ensures r < |route.rules| && Selects(route.rules[r], m) && h < |route.hostnames|
    ensures s == SelectionOffset(route.rules, r) + m && at == s * |route.hostnames| + h
    ensures StandsFor(
      RouteEndpoints(route, key, annotationKey)[at], route, route.rules[r], m, route.hostnames[h], key, annotationKey)
  {
    r, m, s, h := Position(route, key, annotationKey, at);
    var s', at' := RouteEntry(route, key, annotationKey, r, m, h);
  }

  lemma Position(route: HTTPRoute, key: Key, annotationKey: string, at: nat)
    returns (r: nat, m: nat, s: nat, h: nat)
    requires at < |RouteEndpoints(route, key, annotationKey)|
    ensures r < |route.rules| && m < SelectionCount(route.rules[r]) && h < |route.hostnames|
    ensures s == SelectionOffset(route.rules, r) + m && at == s * |route.hostnames| + h
  {
    var ss := SelectionsUpTo(route.rules, |route.rules|);
    s, h := LocateProduct(route, key, annotationKey, ss, at);
    SelectionsLength(route.rules, |route.rules|);
    r, m := LocateSelection(route.rules, |route.rules|, s);
    SpanIsProduct(s, |route.hostnames|);
  }

  /** All endpoints of one route carry its reference and start without a known health. */
  lemma RouteEndpointsAreFresh(route: HTTPRoute, key: Key, annotationKey: string)
    ensures forall ep | ep in RouteEndpoints(route, key, annotationKey) ::
      ep.sourceRef == route.ref && ep.routemapKey == key && ep.health == Unknown
  {
    var eps := RouteEndpoints(route, key, annotationKey);
    forall at | 0 <= at < |eps|
      ensures eps[at].sourceRef == route.ref && eps[at].routemapKey == key && eps[at].health == Unknown
    {
      var r, m, s, h := RouteEntryOrigin(route, key, annotationKey, at);
    }
  }
}
