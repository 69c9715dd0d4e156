/**
 * What a Routemap selects (internal/inventory/namespace.go) and what one reconcile lists for it
 * (collect* and map* of internal/controller/routemap_controller.go), against full recomputation.
 */
module Discovery {
  import opened Kube
  import opened Sums
  import I = IngressInventory
  import R = HTTPRouteInventory

  /** What a reconcile reports; `degraded` stands for the conditions, which follow from it. */
  datatype Status = Status(generation: nat, discovered: nat, healthy: nat, dashboard: string, degraded: bool)

  datatype Routemap = Routemap(
    spec: RoutemapSpec, finalizers: seq<string>, deleting: bool, generation: nat, status: Option<Status>, version: nat)

  /** The informer cache, apart from the Routemaps. */
  datatype Cluster = Cluster(
    namespaces: map<string, Labels>,
    ingresses: map<Key, I.Ingress>,
    routes: map<Key, R.HTTPRoute>)

  /** Fixed for the life of the process; what a selector selects is left open. */
  datatype Config = Config(
    httpRouteAvailable: bool,
    dashboardAddress: string,
    selects: (Selector, Labels) -> bool,
    invalid: Selector -> bool)

  function AnnotationKey(spec: RoutemapSpec): string {
    match spec.healthCheck
    case Some(hc) => if hc.annotationKey != "" then hc.annotationKey else "routemap.github.com/healthcheck"
    case None => "routemap.github.com/healthcheck"
  }

  function EffectiveSources(sources: seq<SourceKind>): seq<SourceKind> {
    if sources == [] then [IngressKind, HTTPRouteKind] else sources
  }

  /** The kinds a reconcile lists: an HTTPRoute source counts only when the CRD was found at start-up. */
  predicate Lists(cfg: Config, spec: RoutemapSpec, kind: SourceKind) {
    kind in EffectiveSources(spec.sources) && (kind == IngressKind || cfg.httpRouteAvailable)
  }

  /** `namespaceMatchesRoutemap`: does a change in `ns` requeue this Routemap? */
  predicate Matches(ns: string, key: Key, spec: RoutemapSpec) {
    spec.namespaces.watchAll || ns in spec.namespaces.names || spec.namespaces.selector.Some? || ns == key.ns
  }

  // ---------------------------------------------------------------- namespaces

  ghost function Selected(cfg: Config, c: Cluster, selector: Selector): set<string> {
    set n | n in c.namespaces && cfg.selects(selector, c.namespaces[n])
  }

  /** `names` is a namespace list Reconcile may compute; a selector lists its namespaces in any order. */
  ghost predicate Resolves(cfg: Config, c: Cluster, key: Key, spec: RoutemapSpec, names: seq<string>) {
    var sel := spec.namespaces;
    if sel.watchAll then names == []
    else if sel.names != [] then names == sel.names
    else match sel.selector
      case Some(selector) => !cfg.invalid(selector) && Enumerates(names, Selected(cfg, c, selector))
      case None => names == [key.ns]
  }

  /** The spec resolves unless it leaves the choice to an invalid selector. */
  predicate Resolvable(cfg: Config, spec: RoutemapSpec) {
    var sel := spec.namespaces;
    sel.watchAll || sel.names != [] || sel.selector.None? || !cfg.invalid(sel.selector.value)
  }

  datatype NamespaceObject = NamespaceObject(name: string, labels: Labels)

  function NamesOf(items: seq<NamespaceObject>): seq<string> {
    seq(|items|, i requires 0 <= i < |items| => items[i].name)
  }

  /** `response` is the answer to the one List call, made only in the selector case. */
  method ResolveNamespaces(cfg: Config, sel: NamespaceSelector, response: Option<seq<NamespaceObject>>)
    returns (names: Option<seq<string>>)
    ensures sel.watchAll ==> names == Some([])
    ensures !sel.watchAll && sel.names != [] ==> names == Some(sel.names)
    ensures !sel.watchAll && sel.names == [] && sel.selector.None? ==> names == Some([])
    ensures !sel.watchAll && sel.names == [] && sel.selector.Some? ==>
      if cfg.invalid(sel.selector.value) || response.None? then names == None else
        names.Some? && |names.value| == |response.value|
        && forall i | 0 <= i < |names.value| :: names.value[i] == response.value[i].name
  {
    if sel.watchAll {
      return Some([]);
    }
    if |sel.names| > 0 {
      return Some(sel.names);
    }
    if sel.selector.Some? {
      if cfg.invalid(sel.selector.value) || response.None? {
        return None;
      }
      var items := response.value;
      var out: seq<string> := [];
      for i := 0 to |items|
        invariant |out| == i && forall j | 0 <= j < i :: out[j] == items[j].name
      {
        out := out + [items[i].name];
      }
      return Some(out);
    }
    return Some([]);
  }

  /** The namespaces a reconcile goes through, given the answer of the namespace List. */
  function Scanned(cfg: Config, key: Key, spec: RoutemapSpec, response: Option<seq<NamespaceObject>>)
    : Option<seq<string>>
  {
    var sel := spec.namespaces;
    if sel.watchAll then Some([])
    else if sel.names != [] then Some(sel.names)
    else match sel.selector
      case Some(selector) =>
        if cfg.invalid(selector) || response.None? then None
        else Some(NamesOf(response.value))
      case None => Some([key.ns])
  }

  /** The selector decides, so the namespaces are listed. */
  predicate BySelector(spec: RoutemapSpec) {
    !spec.namespaces.watchAll && spec.namespaces.names == [] && spec.namespaces.selector.Some?
  }

  /** Namespace resolution with the caller's default; a faithful List answer makes it a resolution. */
  method NamespacesToScan(
    cfg: Config, ghost c: Cluster, key: Key, spec: RoutemapSpec, response: Option<seq<NamespaceObject>>)
    returns (names: Option<seq<string>>)
    requires spec.namespaces.selector.Some? && response.Some? ==>
      Enumerates(NamesOf(response.value), Selected(cfg, c, spec.namespaces.selector.value))
    ensures names == Scanned(cfg, key, spec, response)
    ensures names.Some? ==> Resolves(cfg, c, key, spec, names.value)
    ensures names.None? <==> !Resolvable(cfg, spec) || (BySelector(spec) && response.None?)
  {
    names := ResolveNamespaces(cfg, spec.namespaces, response);
    if names.None? {
      return;
    }
    if !spec.namespaces.watchAll && |names.value| == 0 && spec.namespaces.selector.None? {
      names := Some([key.ns]);
    }
    if !spec.namespaces.watchAll && spec.namespaces.names == [] && spec.namespaces.selector.Some? {
      assert names.value == NamesOf(response.value);
    }
  }

  /** How often objects of namespace `ns` count for a Routemap, read off its spec and the namespace labels. */
  ghost function Weight(cfg: Config, c: Cluster, key: Key, spec: RoutemapSpec, ns: string): nat {
    var sel := spec.namespaces;
    if sel.watchAll then 1
    else if sel.names != [] then Count(sel.names, ns)
    else match sel.selector
      case Some(selector) => if ns in Selected(cfg, c, selector) then 1 else 0
      case None => if ns == key.ns then 1 else 0
  }

  lemma {:induction false} CountAbsent(xs: seq<string>, x: string)
    requires x !in xs
    ensures Count(xs, x) == 0
  {
    if xs != [] {
      CountAbsent(xs[..|xs| - 1], x);
    }
  }

  lemma {:induction false} CountDistinct(xs: seq<string>, x: string)
    requires forall i, j | 0 <= i < j < |xs| :: xs[i] != xs[j]
    ensures Count(xs, x) == if x in xs then 1 else 0
  {
    if xs != [] {
      CountDistinct(xs[..|xs| - 1], x);
    }
  }

  /** A namespace that does not trigger a Routemap contributes nothing to it. */
  lemma UnmatchedHasNoWeight(cfg: Config, c: Cluster, key: Key, spec: RoutemapSpec, ns: string)
    requires !Matches(ns, key, spec)
    ensures Weight(cfg, c, key, spec, ns) == 0
  {
    CountAbsent(spec.namespaces.names, ns);
  }

  lemma WeightIsCount(cfg: Config, c: Cluster, key: Key, spec: RoutemapSpec, names: seq<string>, ns: string)
    requires Resolves(cfg, c, key, spec, names) && !spec.namespaces.watchAll
    ensures Weight(cfg, c, key, spec, ns) == Count(names, ns)
  {
    if spec.namespaces.names == [] {
      CountDistinct(names, ns);
    }
  }

  // ------------------------------------------------------------- full rediscovery

  function IngressMapper(key: Key, annotationKey: string): I.Ingress -> seq<Endpoint> {
    (ing: I.Ingress) => I.IngressEndpoints(ing, key, annotationKey)
  }

  function RouteMapper(key: Key, annotationKey: string): R.HTTPRoute -> seq<Endpoint> {
    (route: R.HTTPRoute) => R.RouteEndpoints(route, key, annotationKey)
  }

  function EndpointsOf<T>(objects: map<Key, T>, f: T -> seq<Endpoint>): (m: map<Key, seq<Endpoint>>)
    ensures m.Keys == objects.Keys
  {
    map o | o in objects :: f(objects[o])
  }

  /** All endpoints of a kind, object by object. */
  function KindEndpoints(c: Cluster, kind: SourceKind, key: Key, spec: RoutemapSpec): map<Key, seq<Endpoint>> {
    match kind
    case IngressKind => EndpointsOf(c.ingresses, IngressMapper(key, AnnotationKey(spec)))
    case HTTPRouteKind => EndpointsOf(c.routes, RouteMapper(key, AnnotationKey(spec)))
  }

  ghost function Contribution(cfg: Config, c: Cluster, key: Key, spec: RoutemapSpec, kind: SourceKind)
    : map<Key, seq<Endpoint>>
  {
    map o | o in KindEndpoints(c, kind, key, spec) ::
      Repeat(KindEndpoints(c, kind, key, spec)[o], Weight(cfg, c, key, spec, o.ns))
  }

  ghost function RediscoverKind(cfg: Config, c: Cluster, key: Key, spec: RoutemapSpec, kind: SourceKind)
    : multiset<Endpoint>
  {
    if Lists(cfg, spec, kind) then SumOver(Contribution(cfg, c, key, spec, kind)) else multiset{}
  }

  /**
   * Full recomputation, without lists or order: every object of a listed kind contributes its endpoints
   * as often as its namespace counts for the Routemap.
   */
  ghost function Rediscover(cfg: Config, c: Cluster, key: Key, spec: RoutemapSpec): multiset<Endpoint> {
    RediscoverKind(cfg, c, key, spec, IngressKind) + RediscoverKind(cfg, c, key, spec, HTTPRouteKind)
  }

  /** Two clusters that differ at most in the Ingresses and HTTPRoutes of one namespace. */
  ghost predicate DifferOnlyIn(c: Cluster, c': Cluster, ns: string) {
    && c.namespaces == c'.namespaces
    && (forall o: Key | o.ns != ns :: o in c.ingresses <==> o in c'.ingresses)
    && (forall o: Key | o.ns != ns && o in c.ingresses && o in c'.ingresses :: c.ingresses[o] == c'.ingresses[o])
    && (forall o: Key | o.ns != ns :: o in c.routes <==> o in c'.routes)
    && (forall o: Key | o.ns != ns && o in c.routes && o in c'.routes :: c.routes[o] == c'.routes[o])
  }

  lemma KindAgrees(c: Cluster, c': Cluster, key: Key, spec: RoutemapSpec, ns: string, kind: SourceKind, o: Key)
    requires DifferOnlyIn(c, c', ns) && o.ns != ns
    ensures var m, m' := KindEndpoints(c, kind, key, spec), KindEndpoints(c', kind, key, spec);
      (o in m <==> o in m') && (o in m ==> m[o] == m'[o])
  {
  }

  lemma ContributionAgrees(
    cfg: Config, c: Cluster, c': Cluster, key: Key, spec: RoutemapSpec, ns: string, kind: SourceKind, o: Key)
    requires !Matches(ns, key, spec) && DifferOnlyIn(c, c', ns)
    requires o in Contribution(cfg, c, key, spec, kind) && Contribution(cfg, c, key, spec, kind)[o] != []
    ensures var m, m' := Contribution(cfg, c, key, spec, kind), Contribution(cfg, c', key, spec, kind);
      o in m' && m'[o] == m[o]
  {
    UnmatchedHasNoWeight(cfg, c, key, spec, ns);
    assert o.ns != ns;
    KindAgrees(c, c', key, spec, ns, kind, o);
    assert Weight(cfg, c, key, spec, o.ns) == Weight(cfg, c', key, spec, o.ns);
  }

  lemma UnmatchedKind(cfg: Config, c: Cluster, c': Cluster, key: Key, spec: RoutemapSpec, ns: string, kind: SourceKind)
    requires !Matches(ns, key, spec) && DifferOnlyIn(c, c', ns)
    ensures SumOver(Contribution(cfg, c, key, spec, kind)) == SumOver(Contribution(cfg, c', key, spec, kind))
  {
    var m, m' := Contribution(cfg, c, key, spec, kind), Contribution(cfg, c', key, spec, kind);
    forall o: Key | o in m && m[o] != [] ensures o in m' && m'[o] == m[o] {
      ContributionAgrees(cfg, c, c', key, spec, ns, kind, o);
    }
    forall o: Key | o in m' && m'[o] != [] ensures o in m && m[o] == m'[o] {
      ContributionAgrees(cfg, c', c, key, spec, ns, kind, o);
    }
    SumAgree(m, m');
  }

  /**
   * No missed trigger: when a change in `ns` does not requeue the Routemap, any set of additions, changes
   * and removals of Ingresses and HTTPRoutes in `ns` leaves its full rediscovery as it was.
   */
  lemma NoMissedTrigger(cfg: Config, c: Cluster, c': Cluster, key: Key, spec: RoutemapSpec, ns: string)
    requires !Matches(ns, key, spec) && DifferOnlyIn(c, c', ns)
    ensures Rediscover(cfg, c, key, spec) == Rediscover(cfg, c', key, spec)
  {
    UnmatchedKind(cfg, c, c', key, spec, ns, IngressKind);
    UnmatchedKind(cfg, c, c', key, spec, ns, HTTPRouteKind);
  }

  // ---------------------------------------------------------------- list calls

  datatype Scope = Everywhere | In(ns: string)
  datatype ListCall = ListCall(kind: SourceKind, scope: Scope)

  predicate InScope(o: Key, scope: Scope) { scope == Everywhere || o.ns == scope.ns }

  function KindCalls(kind: SourceKind, watchAll: bool, names: seq<string>): seq<ListCall> {
    if watchAll then [ListCall(kind, Everywhere)]
    else seq(|names|, i requires 0 <= i < |names| => ListCall(kind, In(names[i])))
  }

  /** The List calls one reconcile makes, in order. */
  function Plan(cfg: Config, spec: RoutemapSpec, names: seq<string>): seq<ListCall> {
    (if Lists(cfg, spec, IngressKind) then KindCalls(IngressKind, spec.namespaces.watchAll, names) else [])
    + (if Lists(cfg, spec, HTTPRouteKind) then KindCalls(HTTPRouteKind, spec.namespaces.watchAll, names) else [])
  }

  /** What one List call finds in the cache, as endpoints. */
  function CallEndpoints(c: Cluster, call: ListCall, key: Key, spec: RoutemapSpec): map<Key, seq<Endpoint>> {
    var all := KindEndpoints(c, call.kind, key, spec);
    map o | o in all && InScope(o, call.scope) :: all[o]
  }

  ghost function Finds(c: Cluster, key: Key, spec: RoutemapSpec): ListCall -> multiset<Endpoint> {
    call => SumOver(CallEndpoints(c, call, key, spec))
  }

  ghost function CallsSum(c: Cluster, calls: seq<ListCall>, key: Key, spec: RoutemapSpec): multiset<Endpoint> {
    Total(calls, Finds(c, key, spec))
  }

  lemma NamespaceCallsSum(c: Cluster, kind: SourceKind, names: seq<string>, key: Key, spec: RoutemapSpec)
    ensures CallsSum(c, KindCalls(kind, false, names), key, spec)
         == SumByNamespace(KindEndpoints(c, kind, key, spec), names)
  {
    var calls := KindCalls(kind, false, names);
    var all := KindEndpoints(c, kind, key, spec);
    forall i | 0 <= i < |names| ensures CallEndpoints(c, calls[i], key, spec) == InNamespace(all, names[i]) {
    }
    TotalAgree(calls, Finds(c, key, spec), names, ns => SumOver(InNamespace(all, ns)));
  }

  lemma WatchAllContribution(cfg: Config, c: Cluster, key: Key, spec: RoutemapSpec, kind: SourceKind)
    requires spec.namespaces.watchAll
    ensures Contribution(cfg, c, key, spec, kind) == KindEndpoints(c, kind, key, spec)
  {
    var all := KindEndpoints(c, kind, key, spec);
    forall o | o in all ensures Repeat(all[o], 1) == all[o] {
      assert Repeat(all[o], 0) == [];
    }
  }

  lemma ListedContributionIsWeighted(
    cfg: Config, c: Cluster, kind: SourceKind, names: seq<string>, key: Key, spec: RoutemapSpec)
    requires Resolves(cfg, c, key, spec, names) && !spec.namespaces.watchAll
    ensures Contribution(cfg, c, key, spec, kind) == Weighted(KindEndpoints(c, kind, key, spec), names)
  {
    forall o | o in KindEndpoints(c, kind, key, spec) ensures Weight(cfg, c, key, spec, o.ns) == Count(names, o.ns) {
      WeightIsCount(cfg, c, key, spec, names, o.ns);
    }
  }

  /** The List calls of one kind find exactly that kind's contribution. */
  lemma KindCallsAreContribution(
    cfg: Config, c: Cluster, kind: SourceKind, names: seq<string>, key: Key, spec: RoutemapSpec)
    requires Resolves(cfg, c, key, spec, names)
    ensures CallsSum(c, KindCalls(kind, spec.namespaces.watchAll, names), key, spec)
         == SumOver(Contribution(cfg, c, key, spec, kind))
  {
    var all := KindEndpoints(c, kind, key, spec);
    if spec.namespaces.watchAll {
      WatchAllContribution(cfg, c, key, spec, kind);
      EverywhereCall(c, kind, names, key, spec);
    } else {
      NamespaceCallsSum(c, kind, names, key, spec);
      SumByNamespaceIsWeighted(all, names);
      ListedContributionIsWeighted(cfg, c, kind, names, key, spec);
    }
  }

  lemma EverywhereCall(c: Cluster, kind: SourceKind, names: seq<string>, key: Key, spec: RoutemapSpec)
    ensures CallsSum(c, KindCalls(kind, true, names), key, spec) == SumOver(KindEndpoints(c, kind, key, spec))
  {
    var calls := KindCalls(kind, true, names);
    assert calls[..0] == [] && Total(calls[..0], Finds(c, key, spec)) == multiset{};
    assert CallEndpoints(c, calls[0], key, spec) == KindEndpoints(c, kind, key, spec);
  }

  /** On a cluster that stands still, the planned List calls find exactly the full rediscovery. */
  lemma PlanIsRediscovery(cfg: Config, c: Cluster, names: seq<string>, key: Key, spec: RoutemapSpec)
    requires Resolves(cfg, c, key, spec, names)
    ensures CallsSum(c, Plan(cfg, spec, names), key, spec) == Rediscover(cfg, c, key, spec)
  {
    var watchAll := spec.namespaces.watchAll;
    KindCallsAreContribution(cfg, c, IngressKind, names, key, spec);
    KindCallsAreContribution(cfg, c, HTTPRouteKind, names, key, spec);
    TotalAppend(
      if Lists(cfg, spec, IngressKind) then KindCalls(IngressKind, watchAll, names) else [],
      if Lists(cfg, spec, HTTPRouteKind) then KindCalls(HTTPRouteKind, watchAll, names) else [],
      Finds(c, key, spec));
  }

  lemma CallIgnores(c: Cluster, c': Cluster, call: ListCall, key: Key, spec: RoutemapSpec, ns: string)
    requires DifferOnlyIn(c, c', ns) && call.scope.In? && call.scope.ns != ns
    ensures CallEndpoints(c, call, key, spec) == CallEndpoints(c', call, key, spec)
  {
    var m, m' := CallEndpoints(c, call, key, spec), CallEndpoints(c', call, key, spec);
    forall o: Key ensures o in m <==> o in m'
                  ensures o in m ==> m[o] == m'[o]
    {
      if o.ns != ns {
        KindAgrees(c, c', key, spec, ns, call.kind, o);
      }
    }
  }

  /** A List call for another namespace does not see a change in `ns`. */
  lemma CallsIgnore(c: Cluster, c': Cluster, calls: seq<ListCall>, key: Key, spec: RoutemapSpec, ns: string)
    requires DifferOnlyIn(c, c', ns)
    requires forall i | 0 <= i < |calls| :: calls[i].scope.In? && calls[i].scope.ns != ns
    ensures CallsSum(c, calls, key, spec) == CallsSum(c', calls, key, spec)
  {
    forall i | 0 <= i < |calls|
      ensures CallEndpoints(c, calls[i], key, spec) == CallEndpoints(c', calls[i], key, spec)
    {
      CallIgnores(c, c', calls[i], key, spec, ns);
    }
    TotalAgree(calls, Finds(c, key, spec), calls, Finds(c', key, spec));
  }

  /** The calls planned for a Routemap that `ns` does not trigger never look into `ns`. */
  lemma PlanAvoids(cfg: Config, c: Cluster, names: seq<string>, key: Key, spec: RoutemapSpec, ns: string)
    requires Resolves(cfg, c, key, spec, names) && !Matches(ns, key, spec)
    ensures forall i | 0 <= i < |Plan(cfg, spec, names)| ::
      Plan(cfg, spec, names)[i].scope.In? && Plan(cfg, spec, names)[i].scope.ns != ns
  {
    assert ns !in names;
  }
}
