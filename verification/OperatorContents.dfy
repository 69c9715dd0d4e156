/** What a resting view holds, told from the Routemap's spec and the cluster's objects alone. */
module OperatorContents {
  import opened Kube
  import opened Discovery
  import opened Contents
  import opened Health
  import opened Operator
  import opened OperatorTheorems
  import OperatorSync
  import I = IngressInventory
  import R = HTTPRouteInventory

  /**
   * In every run, the view of a key at rest holds, health aside, exactly the endpoints of the Ingresses and
   * HTTPRoutes of the requested kinds in the selected namespaces.
   */
  lemma ViewHolds(
    cfg: Config, states: seq<State>, steps: seq<Step>, n: nat, k: Key, annotationKey: string, ep: Endpoint)
    requires IsRun(cfg, states, steps) && n < |states| && AtRest(states[n], k) && k in states[n].store
    requires ReadsAnnotation(states[n].store[k].spec, annotationKey)
    ensures k in states[n].api && !states[n].api[k].deleting && states[n].store[k].spec == states[n].api[k].spec
    ensures var s := states[n];
      ep in Erase(s.store[k].endpoints)
      <==> FromIngress(cfg, s.cluster, k, s.api[k].spec, annotationKey, ep)
           || FromRoute(cfg, s.cluster, k, s.api[k].spec, annotationKey, ep)
  {
    var s := states[n];
    IndexIsRecomputation(cfg, states, steps, n, k);
    RediscoveryHolds(cfg, s.cluster, k, s.api[k].spec, annotationKey, ep);
    assert ep in Erase(s.store[k].endpoints) <==> ep in multiset(Erase(s.store[k].endpoints));
  }

  /**
   * What a change of the cluster requeues: every cached Routemap when it is a Namespace; when it is an Ingress, or
   * an HTTPRoute and those are listed at all, those whose spec selects its namespace, has a selector, or whose own
   * namespace it is.
   */
  lemma ChangeRequeues(cfg: Config, s: State, change: ClusterChange, k: Key)
    ensures var s' := Apply(cfg, s, Change(change));
      k in s'.pending <==>
        || k in s.pending
        || (k in s.cache
            && match change
               case PutNamespace(_, _) => true
               case DropNamespace(_) => true
               case PutIngress(ing) => Concerns(cfg, s.cluster, k, s.cache[k].spec, ing.ref.ns)
               case DropIngress(o) => Concerns(cfg, s.cluster, k, s.cache[k].spec, o.ns)
               case PutRoute(route) =>
                 cfg.httpRouteAvailable && Concerns(cfg, s.cluster, k, s.cache[k].spec, route.ref.ns)
               case DropRoute(o) => cfg.httpRouteAvailable && Concerns(cfg, s.cluster, k, s.cache[k].spec, o.ns))
  {
    if k in s.cache {
      TriggersExactly(cfg, s.cluster, k, s.cache[k].spec, OperatorSync.ChangedNamespace(change));
    }
  }

  predicate Concerns(cfg: Config, c: Cluster, key: Key, spec: RoutemapSpec, ns: string) {
    Selects(cfg, c, key, spec, ns) || spec.namespaces.selector.Some? || ns == key.ns
  }

  /** An endpoint of a resting view is of a kind the Routemap asks for. */
  lemma KindsAreRequested(cfg: Config, states: seq<State>, steps: seq<Step>, n: nat, k: Key, i: nat)
    requires IsRun(cfg, states, steps) && n < |states| && AtRest(states[n], k) && k in states[n].store
    requires i < |states[n].store[k].endpoints|
    ensures var s, ep := states[n], states[n].store[k].endpoints[i];
      && k in s.api
      && (s.api[k].spec.sources == [] || ep.sourceKind in s.api[k].spec.sources)
      && (ep.sourceKind == HTTPRouteKind ==> cfg.httpRouteAvailable)
  {
    var s := states[n];
    var ep := Erase(s.store[k].endpoints)[i];
    var annotationKey := AnnotationKey(s.store[k].spec);
    ViewHolds(cfg, states, steps, n, k, annotationKey, ep);
    if FromIngress(cfg, s.cluster, k, s.api[k].spec, annotationKey, ep) {
      var o :| o in s.cluster.ingresses && ep in I.IngressEndpoints(s.cluster.ingresses[o], k, annotationKey);
      IngressKinds(s.cluster.ingresses[o], k, annotationKey, ep);
    } else {
      var o :| o in s.cluster.routes && ep in R.RouteEndpoints(s.cluster.routes[o], k, annotationKey);
      RouteKinds(s.cluster.routes[o], k, annotationKey, ep);
    }
  }
}
