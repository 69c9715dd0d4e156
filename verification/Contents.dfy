/** What full rediscovery holds, told from the Routemap's spec and the cluster's objects alone. */
module Contents {
  import opened Kube
  import opened Sums
  import opened Discovery
  import I = IngressInventory
  import R = HTTPRouteInventory

  /** The kinds a spec asks for: those it names, or both; HTTPRoutes only where their CRD was found. */
  predicate Requests(cfg: Config, spec: RoutemapSpec, kind: SourceKind) {
    (spec.sources == [] || kind in spec.sources) && (kind == HTTPRouteKind ==> cfg.httpRouteAvailable)
  }

  /** The namespaces a spec selects: all, those named, those with matching labels, or the Routemap's own. */
  predicate Selects(cfg: Config, c: Cluster, key: Key, spec: RoutemapSpec, ns: string) {
    var sel := spec.namespaces;
    || sel.watchAll
    || (sel.names != [] && ns in sel.names)
    || (sel.names == [] && sel.selector.Some?
        && ns in c.namespaces && cfg.selects(sel.selector.value, c.namespaces[ns]))
    || (sel.names == [] && sel.selector.None? && ns == key.ns)
  }

  /** The annotation that holds health paths: the spec's own, or the default. */
  predicate ReadsAnnotation(spec: RoutemapSpec, annotationKey: string) {
    if spec.healthCheck.Some? && spec.healthCheck.value.annotationKey != ""
    then annotationKey == spec.healthCheck.value.annotationKey
    else annotationKey == "routemap.github.com/healthcheck"
  }

  /** The endpoint is one of an Ingress that the Routemap selects. */
  ghost predicate FromIngress(
    cfg: Config, c: Cluster, key: Key, spec: RoutemapSpec, annotationKey: string, ep: Endpoint)
  {
    && Requests(cfg, spec, IngressKind)
    && exists o :: o in c.ingresses && Selects(cfg, c, key, spec, o.ns)
                   && ep in I.IngressEndpoints(c.ingresses[o], key, annotationKey)
  }

  /** The endpoint is one of an HTTPRoute that the Routemap selects. */
  ghost predicate FromRoute(
    cfg: Config, c: Cluster, key: Key, spec: RoutemapSpec, annotationKey: string, ep: Endpoint)
  {
    && Requests(cfg, spec, HTTPRouteKind)
    && exists o :: o in c.routes && Selects(cfg, c, key, spec, o.ns)
                   && ep in R.RouteEndpoints(c.routes[o], key, annotationKey)
  }

  lemma WeightSelects(cfg: Config, c: Cluster, key: Key, spec: RoutemapSpec, ns: string)
    ensures Weight(cfg, c, key, spec, ns) > 0 <==> Selects(cfg, c, key, spec, ns)
  {
    CountsNamed(spec.namespaces.names, ns);
  }

  lemma InContribution(cfg: Config, c: Cluster, key: Key, spec: RoutemapSpec, kind: SourceKind, ep: Endpoint)
    ensures ep in SumOver(Contribution(cfg, c, key, spec, kind))
      <==> exists o :: o in KindEndpoints(c, kind, key, spec) && Selects(cfg, c, key, spec, o.ns)
                       && ep in KindEndpoints(c, kind, key, spec)[o]
  {
    var all, m := KindEndpoints(c, kind, key, spec), Contribution(cfg, c, key, spec, kind);
    InSum(m, ep);
    forall o | o in all ensures ep in m[o] <==> Selects(cfg, c, key, spec, o.ns) && ep in all[o] {
      InRepeat(all[o], Weight(cfg, c, key, spec, o.ns), ep);
      WeightSelects(cfg, c, key, spec, o.ns);
    }
    if o :| o in all && Selects(cfg, c, key, spec, o.ns) && ep in all[o] {
      assert o in m && ep in m[o];
    }
  }

  lemma InIngresses(cfg: Config, c: Cluster, key: Key, spec: RoutemapSpec, annotationKey: string, ep: Endpoint)
    requires ReadsAnnotation(spec, annotationKey)
    ensures ep in RediscoverKind(cfg, c, key, spec, IngressKind) <==> FromIngress(cfg, c, key, spec, annotationKey, ep)
  {
    InContribution(cfg, c, key, spec, IngressKind, ep);
    assert AnnotationKey(spec) == annotationKey;
    assert Lists(cfg, spec, IngressKind) <==> Requests(cfg, spec, IngressKind);
    var all := KindEndpoints(c, IngressKind, key, spec);
    assert forall o | o in all :: o in c.ingresses && all[o] == I.IngressEndpoints(c.ingresses[o], key, annotationKey);
    assert forall o | o in c.ingresses :: o in all;
  }

  lemma InRoutes(cfg: Config, c: Cluster, key: Key, spec: RoutemapSpec, annotationKey: string, ep: Endpoint)
    requires ReadsAnnotation(spec, annotationKey)
    ensures ep in RediscoverKind(cfg, c, key, spec, HTTPRouteKind) <==> FromRoute(cfg, c, key, spec, annotationKey, ep)
  {
    InContribution(cfg, c, key, spec, HTTPRouteKind, ep);
    assert AnnotationKey(spec) == annotationKey;
    assert Lists(cfg, spec, HTTPRouteKind) <==> Requests(cfg, spec, HTTPRouteKind);
    var all := KindEndpoints(c, HTTPRouteKind, key, spec);
    assert forall o | o in all :: o in c.routes && all[o] == R.RouteEndpoints(c.routes[o], key, annotationKey);
    assert forall o | o in c.routes :: o in all;
  }

  /** Full rediscovery holds exactly the endpoints of the requested kinds in the selected namespaces. */
  lemma RediscoveryHolds(cfg: Config, c: Cluster, key: Key, spec: RoutemapSpec, annotationKey: string, ep: Endpoint)
    requires ReadsAnnotation(spec, annotationKey)
    ensures ep in Rediscover(cfg, c, key, spec)
      <==> FromIngress(cfg, c, key, spec, annotationKey, ep) || FromRoute(cfg, c, key, spec, annotationKey, ep)
  {
    InIngresses(cfg, c, key, spec, annotationKey, ep);
    InRoutes(cfg, c, key, spec, annotationKey, ep);
  }

  /** The namespaces a reconcile goes through are those the spec selects. */
  lemma ResolvesSelected(cfg: Config, c: Cluster, key: Key, spec: RoutemapSpec, names: seq<string>, ns: string)
    requires Resolves(cfg, c, key, spec, names)
    ensures spec.namespaces.watchAll ==> names == []
    ensures !spec.namespaces.watchAll ==> (ns in names <==> Selects(cfg, c, key, spec, ns))
  {
  }

  /**
   * How much more a watch event requeues than it has to: a changed namespace that the spec selects always does; one
   * it does not select does only if it is the Routemap's own, or the spec has a selector.
   */
  lemma TriggersExactly(cfg: Config, c: Cluster, key: Key, spec: RoutemapSpec, ns: string)
    ensures Selects(cfg, c, key, spec, ns) ==> Matches(ns, key, spec)
    ensures ns != key.ns && spec.namespaces.selector.None? ==>
      (Matches(ns, key, spec) <==> Selects(cfg, c, key, spec, ns))
    ensures ns == key.ns || spec.namespaces.selector.Some? ==> Matches(ns, key, spec)
  {
  }

  lemma IngressKinds(ing: I.Ingress, key: Key, annotationKey: string, ep: Endpoint)
    requires ep in I.IngressEndpoints(ing, key, annotationKey)
    ensures ep.sourceKind == IngressKind
  {
    var eps := I.IngressEndpoints(ing, key, annotationKey);
    var at :| 0 <= at < |eps| && eps[at] == ep;
    var r, i := I.IngressEntryOrigin(ing, key, annotationKey, at);
  }

  lemma RouteKinds(route: R.HTTPRoute, key: Key, annotationKey: string, ep: Endpoint)
    requires ep in R.RouteEndpoints(route, key, annotationKey)
    ensures ep.sourceKind == HTTPRouteKind
  {
    var eps := R.RouteEndpoints(route, key, annotationKey);
    var at :| 0 <= at < |eps| && eps[at] == ep;
    var r, m, s, h := R.RouteEntryOrigin(route, key, annotationKey, at);
  }
}
