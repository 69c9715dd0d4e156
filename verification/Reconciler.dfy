/**
 * One reconcile as the source writes it, over the store on the heap. The answers of the API are parameters, any
 * of which may be an error; where they are not, each describes the cluster at its own moment.
 */
module Reconciler {
  import opened Kube
  import opened Sums
  import opened Discovery
  import opened Contents
  import opened Collect
  import opened Finalizers
  import opened Health
  import opened Operator
  import S = Store
  import I = IngressInventory
  import R = HTTPRouteInventory

  /** What the API answered one reconcile after its first Get. */
  datatype Answers = Answers(
    namespaces: Option<seq<NamespaceObject>>,   // the List of namespaces, made in the selector case
    ingresses: seq<Option<seq<I.Ingress>>>,     // each List of Ingresses, in order
    routes: seq<Option<seq<R.HTTPRoute>>>,      // each List of HTTPRoutes, in order
    updated: bool,                              // the finalizer update went through
    refetched: Option<int>,                     // the generation the second Get returned
    reported: bool)                             // the status update went through

  /** Where an error came from; every error requeues the key. */
  datatype Stage = FirstGet | AddFinalizer | RemoveFinalizer | FindRoutes | SecondGet | StatusUpdate

  datatype Outcome =
    | Failed(at: Stage)
    | Gone
    | FinalizersWritten(finalizers: seq<string>)
    | StatusWritten(observedGeneration: int, discovered: nat, healthy: nat)

  method CountHealthy(endpoints: array<Endpoint>) returns (n: nat)
    ensures n == HealthyCount(endpoints[..])
  {
    n := 0;
    for i := 0 to endpoints.Length
      invariant n == HealthyCount(endpoints[..i])
    {
      assert endpoints[..i + 1][..i] == endpoints[..i];
      if endpoints[i].health == Healthy {
        n := n + 1;
      }
    }
    assert endpoints[..endpoints.Length] == endpoints[..];
  }

  predicate AllAnswered<T>(lists: seq<Option<seq<T>>>) {
    forall i | 0 <= i < |lists| :: lists[i].Some?
  }

  /** The cluster at the moment of each read; a reconcile does not stop it from changing in between. */
  datatype Moments = Moments(namespaces: Cluster, ingresses: seq<Cluster>, routes: seq<Cluster>)

  /** The objects in the scope of List call `i`. */
  function ScopeOf<T>(objects: map<Key, T>, spec: RoutemapSpec, names: seq<string>, i: nat): map<Key, T>
    requires spec.namespaces.watchAll || i < |names|
  {
    if spec.namespaces.watchAll then objects else InNamespace(objects, names[i])
  }

  /** Each List call that succeeded returned the objects in its scope at its moment, in any order. */
  ghost predicate FaithfulLists<T>(
    objects: seq<map<Key, T>>, spec: RoutemapSpec, names: seq<string>, lists: seq<Option<seq<T>>>)
  {
    && |lists| == |objects| == (if spec.namespaces.watchAll then 1 else |names|)
    && forall i | 0 <= i < |lists| && lists[i].Some? :: ListingOf(lists[i].value, ScopeOf(objects[i], spec, names, i))
  }

  function IngressesAt(at: seq<Cluster>): seq<map<Key, I.Ingress>> {
    seq(|at|, i requires 0 <= i < |at| => at[i].ingresses)
  }

  function RoutesAt(at: seq<Cluster>): seq<map<Key, R.HTTPRoute>> {
    seq(|at|, i requires 0 <= i < |at| => at[i].routes)
  }

  /** What List calls find, each in the cluster of its own moment. */
  ghost function Observed(at: seq<Cluster>, calls: seq<ListCall>, key: Key, spec: RoutemapSpec): multiset<Endpoint>
    requires |at| == |calls|
  {
    if calls == [] then multiset{}
    else
      var n := |calls| - 1;
      Observed(at[..n], calls[..n], key, spec) + SumOver(CallEndpoints(at[n], calls[n], key, spec))
  }

  /** The mapped answers are what the calls find, in any listing order. */
  lemma {:induction false} ListsObserve<T>(
    lists: seq<Option<seq<T>>>, scopes: seq<map<Key, T>>, f: T -> seq<Endpoint>,
    at: seq<Cluster>, calls: seq<ListCall>, key: Key, spec: RoutemapSpec)
    requires |lists| == |scopes| == |at| == |calls|
    requires forall i | 0 <= i < |lists| :: lists[i].Some? && ListingOf(lists[i].value, scopes[i])
    requires forall i | 0 <= i < |lists| :: EndpointsOf(scopes[i], f) == CallEndpoints(at[i], calls[i], key, spec)
    ensures multiset(MapLists(lists, f)) == Observed(at, calls, key, spec)
  {
    if lists != [] {
      var n := |lists| - 1;
      ListsObserve(lists[..n], scopes[..n], f, at[..n], calls[..n], key, spec);
      ListingSum(lists[n].value, scopes[n], f);
    }
  }

  /** In a cluster that stands still the calls find what they find there all at once. */
  lemma {:induction false} ObservedStill(
    at: seq<Cluster>, c: Cluster, calls: seq<ListCall>, key: Key, spec: RoutemapSpec)
    requires |at| == |calls| && forall i | 0 <= i < |at| :: at[i] == c
    ensures Observed(at, calls, key, spec) == CallsSum(c, calls, key, spec)
  {
    if calls != [] {
      ObservedStill(at[..|calls| - 1], c, calls[..|calls| - 1], key, spec);
    }
  }

  ghost predicate FindsUnknown<T(!new)>(f: T -> seq<Endpoint>) {
    forall item :: AllUnknown(f(item))
  }

  lemma {:induction false} MapAllUnknown<T(!new)>(items: seq<T>, f: T -> seq<Endpoint>)
    requires FindsUnknown(f)
    ensures AllUnknown(MapAll(items, f))
  {
    if items != [] {
      MapAllUnknown(items[..|items| - 1], f);
    }
  }

  lemma {:induction false} MapListsUnknown<T(!new)>(lists: seq<Option<seq<T>>>, f: T -> seq<Endpoint>)
    requires FindsUnknown(f) && forall i | 0 <= i < |lists| :: lists[i].Some?
    ensures AllUnknown(MapLists(lists, f))
  {
    if lists != [] {
      MapListsUnknown(lists[..|lists| - 1], f);
      MapAllUnknown(lists[|lists| - 1].value, f);
    }
  }

  /** The List calls of a kind, if the Routemap lists it. */
  function CallsOf(cfg: Config, spec: RoutemapSpec, kind: SourceKind, names: seq<string>): seq<ListCall> {
    if Lists(cfg, spec, kind) then KindCalls(kind, spec.namespaces.watchAll, names) else []
  }

  lemma ListedIngresses(
    cfg: Config, at: seq<Cluster>, key: Key, spec: RoutemapSpec, names: seq<string>, lists: seq<Option<seq<I.Ingress>>>)
    requires Lists(cfg, spec, IngressKind) && FaithfulLists(IngressesAt(at), spec, names, lists) && AllAnswered(lists)
    ensures DiscoveredKind(
      cfg, at, key, spec, IngressKind, names, MapLists(lists, IngressMapper(key, AnnotationKey(spec))))
  {
    var f := IngressMapper(key, AnnotationKey(spec));
    var calls := CallsOf(cfg, spec, IngressKind, names);
    var scopes := seq(|at|, i requires 0 <= i < |at| => ScopeOf(at[i].ingresses, spec, names, i));
    forall i | 0 <= i < |at| ensures EndpointsOf(scopes[i], f) == CallEndpoints(at[i], calls[i], key, spec) {
    }
    ListsObserve(lists, scopes, f, at, calls, key, spec);
    forall ing ensures AllUnknown(f(ing)) {
      I.IngressEndpointsAreFresh(ing, key, AnnotationKey(spec));
    }
    MapListsUnknown(lists, f);
  }

  lemma ListedHTTPRoutes(
    cfg: Config, at: seq<Cluster>, key: Key, spec: RoutemapSpec, names: seq<string>,
    lists: seq<Option<seq<R.HTTPRoute>>>)
    requires Lists(cfg, spec, HTTPRouteKind) && FaithfulLists(RoutesAt(at), spec, names, lists) && AllAnswered(lists)
    ensures DiscoveredKind(
      cfg, at, key, spec, HTTPRouteKind, names, MapLists(lists, RouteMapper(key, AnnotationKey(spec))))
  {
    var f := RouteMapper(key, AnnotationKey(spec));
    var calls := CallsOf(cfg, spec, HTTPRouteKind, names);
    var scopes := seq(|at|, i requires 0 <= i < |at| => ScopeOf(at[i].routes, spec, names, i));
    forall i | 0 <= i < |at| ensures EndpointsOf(scopes[i], f) == CallEndpoints(at[i], calls[i], key, spec) {
    }
    ListsObserve(lists, scopes, f, at, calls, key, spec);
    forall route ensures AllUnknown(f(route)) {
      R.RouteEndpointsAreFresh(route, key, AnnotationKey(spec));
    }
    MapListsUnknown(lists, f);
  }

  ghost predicate DiscoveredKind(
    cfg: Config, at: seq<Cluster>, key: Key, spec: RoutemapSpec, kind: SourceKind, names: seq<string>,
    found: seq<Endpoint>)
  {
    && AllUnknown(found)
    && if Lists(cfg, spec, kind)
       then |at| == |CallsOf(cfg, spec, kind, names)|
            && multiset(found) == Observed(at, CallsOf(cfg, spec, kind, names), key, spec)
       else found == []
  }

  /** What the List calls of both kinds find, each at its moment, in some order, with no health known yet. */
  ghost predicate Discovered(
    cfg: Config, w: Moments, key: Key, spec: RoutemapSpec, names: seq<string>, found: seq<Endpoint>)
  {
    exists ingresses, routes ::
      && found == ingresses + routes
      && DiscoveredKind(cfg, w.ingresses, key, spec, IngressKind, names, ingresses)
      && DiscoveredKind(cfg, w.routes, key, spec, HTTPRouteKind, names, routes)
  }

  /** All reads saw the same cluster. */
  ghost predicate StandsStill(w: Moments, c: Cluster) {
    && w.namespaces == c
    && (forall i | 0 <= i < |w.ingresses| :: w.ingresses[i] == c)
    && (forall i | 0 <= i < |w.routes| :: w.routes[i] == c)
  }

  lemma KindStandsStill(
    cfg: Config, at: seq<Cluster>, c: Cluster, key: Key, spec: RoutemapSpec, kind: SourceKind, names: seq<string>,
    found: seq<Endpoint>)
    requires DiscoveredKind(cfg, at, key, spec, kind, names, found) && Resolves(cfg, c, key, spec, names)
    requires forall i | 0 <= i < |at| :: at[i] == c
    ensures multiset(found) == RediscoverKind(cfg, c, key, spec, kind)
  {
    if Lists(cfg, spec, kind) {
      ObservedStill(at, c, CallsOf(cfg, spec, kind, names), key, spec);
      KindCallsAreContribution(cfg, c, kind, names, key, spec);
    }
  }

  /** In a cluster that stands still a reconcile discovers the full rediscovery. */
  lemma DiscoveredStill(
    cfg: Config, w: Moments, c: Cluster, key: Key, spec: RoutemapSpec, names: seq<string>, found: seq<Endpoint>)
    requires Discovered(cfg, w, key, spec, names, found) && StandsStill(w, c) && Resolves(cfg, c, key, spec, names)
    ensures multiset(found) == Rediscover(cfg, c, key, spec) && AllUnknown(found)
  {
    var ingresses, routes :|
      && found == ingresses + routes
      && DiscoveredKind(cfg, w.ingresses, key, spec, IngressKind, names, ingresses)
      && DiscoveredKind(cfg, w.routes, key, spec, HTTPRouteKind, names, routes);
    KindStandsStill(cfg, w.ingresses, c, key, spec, IngressKind, names, ingresses);
    KindStandsStill(cfg, w.routes, c, key, spec, HTTPRouteKind, names, routes);
  }

  ghost predicate FaithfulNamespaces(cfg: Config, c: Cluster, spec: RoutemapSpec, a: Answers) {
    spec.namespaces.selector.Some? && a.namespaces.Some? ==>
      Enumerates(NamesOf(a.namespaces.value), Selected(cfg, c, spec.namespaces.selector.value))
  }

  /** Each answer that is not an error describes the cluster at its moment. */
  ghost predicate Faithful(cfg: Config, w: Moments, key: Key, spec: RoutemapSpec, a: Answers) {
    && FaithfulNamespaces(cfg, w.namespaces, spec, a)
    && var names := Scanned(cfg, key, spec, a.namespaces);
       names.Some? ==>
         && (Lists(cfg, spec, IngressKind) ==> FaithfulLists(IngressesAt(w.ingresses), spec, names.value, a.ingresses))
         && (Lists(cfg, spec, HTTPRouteKind) ==> FaithfulLists(RoutesAt(w.routes), spec, names.value, a.routes))
  }

  /** Every read the discovery makes succeeds: the namespaces resolve and each List call is answered. */
  predicate ReadsSucceed(cfg: Config, key: Key, spec: RoutemapSpec, a: Answers) {
    && Scanned(cfg, key, spec, a.namespaces).Some?
    && (Lists(cfg, spec, IngressKind) ==> AllAnswered(a.ingresses))
    && (Lists(cfg, spec, HTTPRouteKind) ==> AllAnswered(a.routes))
  }

  /** The reads of a discovery, told from the spec: the namespaces if a selector decides, then each kind asked for. */
  lemma ReadsSucceedMeans(cfg: Config, key: Key, spec: RoutemapSpec, a: Answers)
    ensures ReadsSucceed(cfg, key, spec, a) <==>
      && (!spec.namespaces.watchAll && spec.namespaces.names == [] && spec.namespaces.selector.Some? ==>
            !cfg.invalid(spec.namespaces.selector.value) && a.namespaces.Some?)
      && (Requests(cfg, spec, IngressKind) ==> forall i | 0 <= i < |a.ingresses| :: a.ingresses[i].Some?)
      && (Requests(cfg, spec, HTTPRouteKind) ==> forall i | 0 <= i < |a.routes| :: a.routes[i].Some?)
  {
  }

  /** The call finds the endpoint in the cluster of its moment. */
  ghost predicate FindsIn(c: Cluster, call: ListCall, key: Key, spec: RoutemapSpec, ep: Endpoint) {
    exists o :: o in CallEndpoints(c, call, key, spec) && ep in CallEndpoints(c, call, key, spec)[o]
  }

  /** The endpoint is among those call `i` finds. */
  ghost predicate FoundBy(at: seq<Cluster>, calls: seq<ListCall>, i: nat, key: Key, spec: RoutemapSpec, ep: Endpoint)
    requires i < |at| == |calls|
  {
    ep in SumOver(CallEndpoints(at[i], calls[i], key, spec))
  }

  lemma ObservedNext(at: seq<Cluster>, calls: seq<ListCall>, n: nat, key: Key, spec: RoutemapSpec, ep: Endpoint)
    requires n < |at| == |calls|
    ensures ep in Observed(at[..n + 1], calls[..n + 1], key, spec)
      <==> ep in Observed(at[..n], calls[..n], key, spec) || FoundBy(at, calls, n, key, spec, ep)
  {
    assert at[..n + 1][..n] == at[..n] && calls[..n + 1][..n] == calls[..n];
  }

  ghost predicate FoundBefore(
    at: seq<Cluster>, calls: seq<ListCall>, n: nat, key: Key, spec: RoutemapSpec, ep: Endpoint)
    requires n <= |at| == |calls|
  {
    exists i | 0 <= i < n :: FoundBy(at, calls, i, key, spec, ep)
  }

  lemma FoundBeforeNext(at: seq<Cluster>, calls: seq<ListCall>, n: nat, key: Key, spec: RoutemapSpec, ep: Endpoint)
    requires n < |at| == |calls|
    ensures FoundBefore(at, calls, n + 1, key, spec, ep)
      <==> FoundBefore(at, calls, n, key, spec, ep) || FoundBy(at, calls, n, key, spec, ep)
  {
  }

  lemma NothingObserved(at: seq<Cluster>, calls: seq<ListCall>, key: Key, spec: RoutemapSpec)
    requires |at| == |calls| == 0
    ensures Observed(at, calls, key, spec) == multiset{}
  {
  }

  lemma {:induction false} InObservedUpTo(
    at: seq<Cluster>, calls: seq<ListCall>, n: nat, key: Key, spec: RoutemapSpec, ep: Endpoint)
    requires n <= |at| == |calls|
    ensures ep in Observed(at[..n], calls[..n], key, spec) <==> FoundBefore(at, calls, n, key, spec, ep)
  {
    if n == 0 {
      NothingObserved(at[..0], calls[..0], key, spec);
    } else {
      InObservedUpTo(at, calls, n - 1, key, spec, ep);
      ObservedNext(at, calls, n - 1, key, spec, ep);
      FoundBeforeNext(at, calls, n - 1, key, spec, ep);
    }
  }

  lemma InObserved(at: seq<Cluster>, calls: seq<ListCall>, key: Key, spec: RoutemapSpec, ep: Endpoint)
    requires |at| == |calls|
    ensures ep in Observed(at, calls, key, spec)
      <==> exists i | 0 <= i < |at| :: FindsIn(at[i], calls[i], key, spec, ep)
  {
    InObservedUpTo(at, calls, |at|, key, spec, ep);
    assert at[..|at|] == at && calls[..|at|] == calls;
    forall i | 0 <= i < |at|
      ensures FoundBy(at, calls, i, key, spec, ep) <==> FindsIn(at[i], calls[i], key, spec, ep)
    {
      InSum(CallEndpoints(at[i], calls[i], key, spec), ep);
    }
  }

  /** The object is in the scope of List call `i`. */
  predicate InCall(spec: RoutemapSpec, names: seq<string>, i: nat, o: Key) {
    spec.namespaces.watchAll || (i < |names| && o.ns == names[i])
  }

  ghost predicate IngressListed(
    c: Cluster, key: Key, spec: RoutemapSpec, names: seq<string>, i: nat, annotationKey: string, ep: Endpoint)
  {
    exists o ::
      && o in c.ingresses && InCall(spec, names, i, o)
      && ep in I.IngressEndpoints(c.ingresses[o], key, annotationKey)
  }

  ghost predicate RouteListed(
    c: Cluster, key: Key, spec: RoutemapSpec, names: seq<string>, i: nat, annotationKey: string, ep: Endpoint)
  {
    exists o ::
      && o in c.routes && InCall(spec, names, i, o)
      && ep in R.RouteEndpoints(c.routes[o], key, annotationKey)
  }

  lemma IngressInScope(
    c: Cluster, key: Key, spec: RoutemapSpec, names: seq<string>, i: nat, annotationKey: string, ep: Endpoint)
    requires ReadsAnnotation(spec, annotationKey)
    ensures HasInScope(c, key, spec, IngressKind, names, i, ep)
      <==> IngressListed(c, key, spec, names, i, annotationKey, ep)
  {
    var all := KindEndpoints(c, IngressKind, key, spec);
    assert AnnotationKey(spec) == annotationKey && all.Keys == c.ingresses.Keys;
    assert forall o | o in all :: all[o] == I.IngressEndpoints(c.ingresses[o], key, annotationKey);
  }

  lemma RouteInScope(
    c: Cluster, key: Key, spec: RoutemapSpec, names: seq<string>, i: nat, annotationKey: string, ep: Endpoint)
    requires ReadsAnnotation(spec, annotationKey)
    ensures HasInScope(c, key, spec, HTTPRouteKind, names, i, ep)
      <==> RouteListed(c, key, spec, names, i, annotationKey, ep)
  {
    var all := KindEndpoints(c, HTTPRouteKind, key, spec);
    assert AnnotationKey(spec) == annotationKey && all.Keys == c.routes.Keys;
    assert forall o | o in all :: all[o] == R.RouteEndpoints(c.routes[o], key, annotationKey);
  }

  /** The object of the kind is in the scope of List call `i`, and has the endpoint. */
  ghost predicate HasInScope(
    c: Cluster, key: Key, spec: RoutemapSpec, kind: SourceKind, names: seq<string>, i: nat, ep: Endpoint)
  {
    exists o ::
      && o in KindEndpoints(c, kind, key, spec) && InCall(spec, names, i, o)
      && ep in KindEndpoints(c, kind, key, spec)[o]
  }

  lemma CallFinds(
    c: Cluster, cfg: Config, key: Key, spec: RoutemapSpec, kind: SourceKind, names: seq<string>, i: nat, ep: Endpoint)
    requires Lists(cfg, spec, kind) && i < |CallsOf(cfg, spec, kind, names)|
    ensures FindsIn(c, CallsOf(cfg, spec, kind, names)[i], key, spec, ep)
      <==> HasInScope(c, key, spec, kind, names, i, ep)
  {
    var call := CallsOf(cfg, spec, kind, names)[i];
    if o :| o in CallEndpoints(c, call, key, spec) && ep in CallEndpoints(c, call, key, spec)[o] {
      assert o in KindEndpoints(c, kind, key, spec) && InCall(spec, names, i, o);
    }
    if o :|
      && o in KindEndpoints(c, kind, key, spec) && InCall(spec, names, i, o)
      && ep in KindEndpoints(c, kind, key, spec)[o]
    {
      assert o in CallEndpoints(c, call, key, spec);
    }
  }

  lemma KindHolds(
    cfg: Config, at: seq<Cluster>, key: Key, spec: RoutemapSpec, kind: SourceKind, names: seq<string>,
    found: seq<Endpoint>, ep: Endpoint)
    requires DiscoveredKind(cfg, at, key, spec, kind, names, found)
    ensures ep in found <==>
      Requests(cfg, spec, kind) && exists i | 0 <= i < |at| :: HasInScope(at[i], key, spec, kind, names, i, ep)
  {
    assert Lists(cfg, spec, kind) <==> Requests(cfg, spec, kind);
    if Lists(cfg, spec, kind) {
      var calls := CallsOf(cfg, spec, kind, names);
      InObserved(at, calls, key, spec, ep);
      assert ep in found <==> ep in multiset(found);
      forall i | 0 <= i < |at|
        ensures FindsIn(at[i], calls[i], key, spec, ep) <==> HasInScope(at[i], key, spec, kind, names, i, ep)
      {
        CallFinds(at[i], cfg, key, spec, kind, names, i, ep);
      }
    }
  }

  /**
   * What is discovered, told from the spec and the objects: the endpoints of each Ingress and HTTPRoute of a kind
   * asked for, in the scope of the List call that saw it, and nothing else.
   */
  lemma DiscoveredHolds(
    cfg: Config, w: Moments, key: Key, spec: RoutemapSpec, names: seq<string>, found: seq<Endpoint>,
    annotationKey: string, ep: Endpoint)
    requires Discovered(cfg, w, key, spec, names, found) && ReadsAnnotation(spec, annotationKey)
    ensures ep in found <==>
      || (Requests(cfg, spec, IngressKind)
          && exists i | 0 <= i < |w.ingresses| :: IngressListed(w.ingresses[i], key, spec, names, i, annotationKey, ep))
      || (Requests(cfg, spec, HTTPRouteKind)
          && exists i | 0 <= i < |w.routes| :: RouteListed(w.routes[i], key, spec, names, i, annotationKey, ep))
  {
    var ingresses, routes :|
      && found == ingresses + routes
      && DiscoveredKind(cfg, w.ingresses, key, spec, IngressKind, names, ingresses)
      && DiscoveredKind(cfg, w.routes, key, spec, HTTPRouteKind, names, routes);
    KindHolds(cfg, w.ingresses, key, spec, IngressKind, names, ingresses, ep);
    KindHolds(cfg, w.routes, key, spec, HTTPRouteKind, names, routes, ep);
    forall i | 0 <= i < |w.ingresses|
      ensures HasInScope(w.ingresses[i], key, spec, IngressKind, names, i, ep)
        <==> IngressListed(w.ingresses[i], key, spec, names, i, annotationKey, ep)
    {
      IngressInScope(w.ingresses[i], key, spec, names, i, annotationKey, ep);
    }
    forall i | 0 <= i < |w.routes|
      ensures HasInScope(w.routes[i], key, spec, HTTPRouteKind, names, i, ep)
        <==> RouteListed(w.routes[i], key, spec, names, i, annotationKey, ep)
    {
      RouteInScope(w.routes[i], key, spec, names, i, annotationKey, ep);
    }
  }

  /** Endpoints of Ingresses come before those of HTTPRoutes. */
  lemma IngressesFirst(
    cfg: Config, w: Moments, key: Key, spec: RoutemapSpec, names: seq<string>, found: seq<Endpoint>, i: nat, j: nat)
    requires Discovered(cfg, w, key, spec, names, found) && i < j < |found|
    ensures found[i].sourceKind == HTTPRouteKind ==> found[j].sourceKind == HTTPRouteKind
  {
    var ingresses, routes := KindByKind(cfg, w, key, spec, names, found);
  }

  lemma KindByKind(
    cfg: Config, w: Moments, key: Key, spec: RoutemapSpec, names: seq<string>, found: seq<Endpoint>)
    returns (ingresses: seq<Endpoint>, routes: seq<Endpoint>)
    requires Discovered(cfg, w, key, spec, names, found)
    ensures found == ingresses + routes
    ensures forall i | 0 <= i < |ingresses| :: ingresses[i].sourceKind == IngressKind
    ensures forall i | 0 <= i < |routes| :: routes[i].sourceKind == HTTPRouteKind
  {
    ingresses, routes :|
      && found == ingresses + routes
      && DiscoveredKind(cfg, w.ingresses, key, spec, IngressKind, names, ingresses)
      && DiscoveredKind(cfg, w.routes, key, spec, HTTPRouteKind, names, routes);
    forall i | 0 <= i < |ingresses| ensures ingresses[i].sourceKind == IngressKind {
      OfKind(cfg, w.ingresses, key, spec, IngressKind, names, ingresses, i);
    }
    forall i | 0 <= i < |routes| ensures routes[i].sourceKind == HTTPRouteKind {
      OfKind(cfg, w.routes, key, spec, HTTPRouteKind, names, routes, i);
    }
  }

  lemma OfKind(
    cfg: Config, at: seq<Cluster>, key: Key, spec: RoutemapSpec, kind: SourceKind, names: seq<string>,
    found: seq<Endpoint>, i: nat)
    requires DiscoveredKind(cfg, at, key, spec, kind, names, found) && i < |found|
    ensures found[i].sourceKind == kind
  {
    KindHolds(cfg, at, key, spec, kind, names, found, found[i]);
    var call :| 0 <= call < |at| && HasInScope(at[call], key, spec, kind, names, call, found[i]);
    var o :| o in KindEndpoints(at[call], kind, key, spec) && found[i] in KindEndpoints(at[call], kind, key, spec)[o];
    match kind
    case IngressKind => IngressKinds(at[call].ingresses[o], key, AnnotationKey(spec), found[i]);
    case HTTPRouteKind => RouteKinds(at[call].routes[o], key, AnnotationKey(spec), found[i]);
  }

  method FindIngresses(
    cfg: Config, ghost at: seq<Cluster>, key: Key, spec: RoutemapSpec, names: seq<string>,
    lists: seq<Option<seq<I.Ingress>>>)
    returns (found: Option<seq<Endpoint>>)
    requires Lists(cfg, spec, IngressKind) ==> FaithfulLists(IngressesAt(at), spec, names, lists)
    ensures found.Some? <==> (Lists(cfg, spec, IngressKind) ==> AllAnswered(lists))
    ensures found.Some? ==> DiscoveredKind(cfg, at, key, spec, IngressKind, names, found.value)
  {
    if !Lists(cfg, spec, IngressKind) {
      return Some([]);
    }
    found := CollectIngresses(lists, key, names, AnnotationKey(spec), spec.namespaces.watchAll);
    if found.Some? {
      ListedIngresses(cfg, at, key, spec, names, lists);
    }
  }

  method FindHTTPRoutes(
    cfg: Config, ghost at: seq<Cluster>, key: Key, spec: RoutemapSpec, names: seq<string>,
    lists: seq<Option<seq<R.HTTPRoute>>>)
    returns (found: Option<seq<Endpoint>>)
    requires Lists(cfg, spec, HTTPRouteKind) ==> FaithfulLists(RoutesAt(at), spec, names, lists)
    ensures found.Some? <==> (Lists(cfg, spec, HTTPRouteKind) ==> AllAnswered(lists))
    ensures found.Some? ==> DiscoveredKind(cfg, at, key, spec, HTTPRouteKind, names, found.value)
  {
    if !Lists(cfg, spec, HTTPRouteKind) {
      return Some([]);
    }
    found := CollectHTTPRoutes(lists, key, names, AnnotationKey(spec), spec.namespaces.watchAll);
    if found.Some? {
      ListedHTTPRoutes(cfg, at, key, spec, names, lists);
    }
  }

  /**
   * Lines 99 to 133 of Reconcile: resolve the namespaces, then list Ingresses and HTTPRoutes. It succeeds if and
   * only if every read does, and then finds what each List call finds at its moment.
   */
  method Discover(cfg: Config, ghost w: Moments, key: Key, spec: RoutemapSpec, a: Answers)
    returns (found: Option<seq<Endpoint>>)
    requires Faithful(cfg, w, key, spec, a)
    ensures found.Some? <==> ReadsSucceed(cfg, key, spec, a)
    ensures found.Some? ==>
      var names := Scanned(cfg, key, spec, a.namespaces).value;
      Resolves(cfg, w.namespaces, key, spec, names) && Discovered(cfg, w, key, spec, names, found.value)
  {
    var names := NamespacesToScan(cfg, w.namespaces, key, spec, a.namespaces);
    if names.None? {
      return None;
    }
    var ingresses := FindIngresses(cfg, w.ingresses, key, spec, names.value, a.ingresses);
    if ingresses.None? {
      return None;
    }
    var routes := FindHTTPRoutes(cfg, w.routes, key, spec, names.value, a.routes);
    if routes.None? {
      return None;
    }
    return Some(ingresses.value + routes.value);
  }

  /** `handleDeletion`: the view goes first, then the finalizer, whose removal may fail. */
  method HandleDeletion(s: S.Store, key: Key, rm: Routemap, updated: bool) returns (outcome: Outcome)
    requires s.Valid()
    modifies s
    ensures s.Valid() && s.Contents() == old(s.Contents()) - {key}
    ensures outcome == if updated then FinalizersWritten(Without(rm.finalizers, FINALIZER))
                       else Failed(RemoveFinalizer)
  {
    s.Delete(key);
    var list := new string[|rm.finalizers|](i requires 0 <= i < |rm.finalizers| => rm.finalizers[i]);
    assert list[..] == rm.finalizers;
    var kept := RemoveString(list, FINALIZER);
    if !updated {
      return Failed(RemoveFinalizer);
    }
    return FinalizersWritten(list[..kept]);
  }

  /** What a reconcile of a live Routemap publishes: what it discovered, with the stored health merged in. */
  ghost predicate PublishedFor(
    cfg: Config, w: Moments, key: Key, spec: RoutemapSpec, a: Answers, before: map<Key, View>, after: map<Key, View>)
  {
    && Scanned(cfg, key, spec, a.namespaces).Some?
    && var names := Scanned(cfg, key, spec, a.namespaces).value;
       && Resolves(cfg, w.namespaces, key, spec, names)
       && exists found ::
            Discovered(cfg, w, key, spec, names, found) && after == S.PublishView(before, key, spec, found)
  }

  lemma PublishesFor(
    cfg: Config, w: Moments, key: Key, spec: RoutemapSpec, a: Answers, before: map<Key, View>, after: map<Key, View>,
    found: seq<Endpoint>)
    requires Scanned(cfg, key, spec, a.namespaces).Some?
    requires var names := Scanned(cfg, key, spec, a.namespaces).value;
      Resolves(cfg, w.namespaces, key, spec, names) && Discovered(cfg, w, key, spec, names, found)
    requires after == S.PublishView(before, key, spec, found)
    ensures PublishedFor(cfg, w, key, spec, a, before, after) && key in after
  {
  }

  /** What the caller learns once a view is published: its counts, unless the second Get or the status fails. */
  function Reported(view: View, a: Answers): Outcome {
    if a.refetched.None? then Failed(SecondGet)
    else if !a.reported then Failed(StatusUpdate)
    else StatusWritten(a.refetched.value, |view.endpoints|, HealthyCount(view.endpoints))
  }

  /** Lines 144 to 167: count, fetch again, write the status. */
  method ReportStatus(s: S.Store, key: Key, a: Answers) returns (outcome: Outcome)
    requires s.Valid() && key in s.Contents()
    ensures outcome == Reported(s.Contents()[key], a)
  {
    var endpoints := s.data[key].endpoints;
    var healthy := CountHealthy(endpoints);
    if a.refetched.None? {
      return Failed(SecondGet);
    }
    if !a.reported {
      return Failed(StatusUpdate);
    }
    return StatusWritten(a.refetched.value, endpoints.Length, healthy);
  }

  /**
   * Lines 99 to 168: discover, merge, publish, report. The store is left alone exactly when a read of the
   * discovery fails; an error after that leaves the new view published.
   */
  method Refresh(cfg: Config, ghost w: Moments, s: S.Store, key: Key, spec: RoutemapSpec, a: Answers)
    returns (outcome: Outcome)
    requires s.Valid() && Faithful(cfg, w, key, spec, a)
    modifies s
    ensures s.Valid()
    ensures outcome == Failed(FindRoutes) <==> !ReadsSucceed(cfg, key, spec, a)
    ensures outcome == Failed(FindRoutes) ==> s.Contents() == old(s.Contents())
    ensures outcome != Failed(FindRoutes) ==>
      && PublishedFor(cfg, w, key, spec, a, old(s.Contents()), s.Contents()) && key in s.Contents()
      && outcome == Reported(s.Contents()[key], a)
  {
    var found := Discover(cfg, w, key, spec, a);
    if found.None? {
      return Failed(FindRoutes);
    }
    ghost var before := s.Contents();
    S.MergeAndPublish(s, key, spec, found.value);
    PublishesFor(cfg, w, key, spec, a, before, s.Contents(), found.value);
    outcome := ReportStatus(s, key, a);
  }

  /** The new store after an outcome: untouched, without the key, or with a fresh view of it. */
  ghost predicate StoreAfter(
    cfg: Config, w: Moments, key: Key, rm: Routemap, a: Answers, before: map<Key, View>, after: map<Key, View>,
    outcome: Outcome)
  {
    match outcome
    case Failed(SecondGet) => PublishedFor(cfg, w, key, rm.spec, a, before, after)
    case Failed(StatusUpdate) => PublishedFor(cfg, w, key, rm.spec, a, before, after)
    case StatusWritten(_, _, _) => PublishedFor(cfg, w, key, rm.spec, a, before, after)
    case Failed(RemoveFinalizer) => after == before - {key}
    case FinalizersWritten(_) => after == if rm.deleting then before - {key} else before
    case _ => after == before
  }

  /** The outcome of reconciling an object that was found. */
  ghost predicate OutcomeFor(
    cfg: Config, key: Key, rm: Routemap, a: Answers, after: map<Key, View>, outcome: Outcome)
  {
    if rm.deleting then
      outcome == if a.updated then FinalizersWritten(Without(rm.finalizers, FINALIZER)) else Failed(RemoveFinalizer)
    else if FINALIZER !in rm.finalizers then
      outcome == if a.updated then FinalizersWritten(rm.finalizers + [FINALIZER]) else Failed(AddFinalizer)
    else if !ReadsSucceed(cfg, key, rm.spec, a) then
      outcome == Failed(FindRoutes)
    else
      key in after && outcome == Reported(after[key], a)
  }

  /**
   * One reconcile. `fetched` is the answer of the first Get: an error, no such object, or the object; `a` are
   * the later answers, used as far as the reconcile gets.
   */
  method Reconcile(
    cfg: Config, ghost w: Moments, s: S.Store, key: Key, fetched: Option<Option<Routemap>>, a: Answers)
    returns (outcome: Outcome)
    requires s.Valid()
    requires fetched.Some? && fetched.value.Some? && Live(fetched.value.value) ==>
      Faithful(cfg, w, key, fetched.value.value.spec, a)
    modifies s
    ensures s.Valid()
    ensures fetched == None ==> outcome == Failed(FirstGet) && s.Contents() == old(s.Contents())
    ensures fetched == Some(None) ==> outcome == Gone && s.Contents() == old(s.Contents()) - {key}
    ensures fetched.Some? && fetched.value.Some? ==>
      var rm := fetched.value.value;
      && OutcomeFor(cfg, key, rm, a, s.Contents(), outcome)
      && StoreAfter(cfg, w, key, rm, a, old(s.Contents()), s.Contents(), outcome)
  {
    if fetched.None? {
      return Failed(FirstGet);
    }
    if fetched.value.None? {
      s.Delete(key);
      return Gone;
    }
    var rm := fetched.value.value;
    if rm.deleting {
      outcome := HandleDeletion(s, key, rm, a.updated);
      return;
    }
    if FINALIZER !in rm.finalizers {
      return if a.updated then FinalizersWritten(rm.finalizers + [FINALIZER]) else Failed(AddFinalizer);
    }
    outcome := Refresh(cfg, w, s, key, rm.spec, a);
  }

  /** The endpoints that were merged and published. */
  lemma WasFound(
    cfg: Config, w: Moments, c: Cluster, key: Key, spec: RoutemapSpec, a: Answers,
    before: map<Key, View>, after: map<Key, View>)
    returns (found: seq<Endpoint>)
    requires PublishedFor(cfg, w, key, spec, a, before, after)
    ensures after == S.PublishView(before, key, spec, found) && AllUnknown(found)
    ensures StandsStill(w, c) ==> multiset(found) == Rediscover(cfg, c, key, spec)
  {
    var names := Scanned(cfg, key, spec, a.namespaces).value;
    found :| Discovered(cfg, w, key, spec, names, found) && after == S.PublishView(before, key, spec, found);
    if StandsStill(w, c) {
      DiscoveredStill(cfg, w, c, key, spec, names, found);
    }
  }

  /** The number of healthy endpoints of a view. */
  ghost function HealthyIn(view: View): nat {
    |set i | 0 <= i < |view.endpoints| && view.endpoints[i].health == Healthy|
  }

  /**
   * What each outcome means for an object that was found, told from the object, the answers and the new store:
   * the finalizers written, the generation and the two counts reported, and exactly when each failure occurs.
   */
  lemma OutcomeMeans(cfg: Config, key: Key, rm: Routemap, a: Answers, after: map<Key, View>, outcome: Outcome)
    requires OutcomeFor(cfg, key, rm, a, after, outcome)
    ensures var ours := "routemaps.github.com/finalizer";
      var live := !rm.deleting && ours in rm.finalizers;
      var found := live && ReadsSucceed(cfg, key, rm.spec, a);
      && (outcome.FinalizersWritten? <==> a.updated && !live)
      && (outcome.FinalizersWritten? && !rm.deleting ==> outcome.finalizers == rm.finalizers + [ours])
      && (outcome.FinalizersWritten? && rm.deleting ==>
            && ours !in outcome.finalizers
            && multiset(outcome.finalizers) == multiset(rm.finalizers)[ours := 0])
      && (outcome == Failed(RemoveFinalizer) <==> !a.updated && rm.deleting)
      && (outcome == Failed(AddFinalizer) <==> !a.updated && !rm.deleting && ours !in rm.finalizers)
      && (outcome == Failed(FindRoutes) <==> live && !ReadsSucceed(cfg, key, rm.spec, a))
      && (outcome == Failed(SecondGet) <==> found && a.refetched.None?)
      && (outcome == Failed(StatusUpdate) <==> found && a.refetched.Some? && !a.reported)
      && (outcome.StatusWritten? <==> found && a.refetched.Some? && a.reported)
      && (outcome.StatusWritten? ==>
            && key in after && a.refetched == Some(outcome.observedGeneration)
            && outcome.discovered == |after[key].endpoints| && outcome.healthy == HealthyIn(after[key]))
  {
    WithoutKeepsTheRest(rm.finalizers, FINALIZER);
    if outcome.StatusWritten? {
      HealthyIsCount(after[key].endpoints);
    }
  }

  /**
   * What is published carries the stored health of each reference, whatever the cluster does meanwhile; and if it
   * stood still, it is, health aside, the full rediscovery.
   */
  lemma PublishedIsRediscovery(
    cfg: Config, w: Moments, c: Cluster, key: Key, spec: RoutemapSpec, a: Answers,
    before: map<Key, View>, after: map<Key, View>)
    requires PublishedFor(cfg, w, key, spec, a, before, after)
    ensures key in after && after[key].spec == spec
    ensures StandsStill(w, c) ==> multiset(Erase(after[key].endpoints)) == Rediscover(cfg, c, key, spec)
    ensures forall i | 0 <= i < |after[key].endpoints| :: CarriedOver(before, key, after[key].endpoints[i])
    ensures after - {key} == before - {key}
  {
    var found := WasFound(cfg, w, c, key, spec, a, before, after);
    PublishErases(before, key, spec, found);
    forall i | 0 <= i < |after[key].endpoints| ensures CarriedOver(before, key, after[key].endpoints[i]) {
      PublishCarries(before, key, spec, found, i);
    }
  }

  /** Unknown for a reference that was not in the view, else the state of the last endpoint of that reference. */
  ghost predicate CarriedOver(before: map<Key, View>, key: Key, ep: Endpoint) {
    if key in before && ep.sourceRef in Refs(before[key].endpoints)
    then IsLastHealth(before[key].endpoints, ep.sourceRef, ep.health)
    else ep.health == Unknown
  }

  ghost predicate IsLastHealth(eps: seq<Endpoint>, r: Key, h: HealthState) {
    exists i | 0 <= i < |eps| ::
      && eps[i].sourceRef == r && eps[i].health == h
      && forall j | i < j < |eps| :: eps[j].sourceRef != r
  }

  lemma PublishErases(before: map<Key, View>, key: Key, spec: RoutemapSpec, found: seq<Endpoint>)
    requires AllUnknown(found)
    ensures Erase(S.PublishView(before, key, spec, found)[key].endpoints) == found
  {
  }

  lemma PublishCarries(before: map<Key, View>, key: Key, spec: RoutemapSpec, found: seq<Endpoint>, i: nat)
    requires AllUnknown(found) && i < |found|
    ensures CarriedOver(before, key, S.PublishView(before, key, spec, found)[key].endpoints[i])
  {
    var r := found[i].sourceRef;
    if key in before {
      PrevMapKeys(before[key].endpoints);
      if r in Refs(before[key].endpoints) {
        var j := PrevMapSource(before[key].endpoints, r);
      }
    }
  }

  // ------------------------------------------------------------- the watch handlers

  /** `items` are the cached Routemaps with their keys. */
  method EnqueueAffectedRoutemaps(items: seq<(Key, Routemap)>, ns: string, ghost cache: map<Key, Routemap>)
    returns (requests: seq<Key>)
    requires forall k, rm :: (k, rm) in items <==> k in cache && cache[k] == rm
    ensures forall k :: k in requests <==> k in Affected(cache, ns)
  {
    requests := [];
    for i := 0 to |items|
      invariant forall k :: k in requests <==>
        exists j | 0 <= j < i :: items[j].0 == k && Matches(ns, k, items[j].1.spec)
    {
      if Matches(ns, items[i].0, items[i].1.spec) {
        requests := requests + [items[i].0];
      }
    }
    forall k ensures k in requests <==> k in Affected(cache, ns) {
      if k in Affected(cache, ns) {
        assert (k, cache[k]) in items;
      }
      if k in requests {
        var j :| 0 <= j < |items| && items[j].0 == k && Matches(ns, k, items[j].1.spec);
        assert (k, items[j].1) in items;
      }
    }
  }
}
