/**
 * The incremental index: what the watch handlers requeue and what a reconcile recomputes, with listings
 * that are not atomic, fit together over every run.
 */
module OperatorSync {
  import opened Kube
  import opened Sums
  import opened Discovery
  import opened Finalizers
  import opened Health
  import opened Operator

  /** The view of `k` is what full recomputation from the cache would give, health aside. */
  ghost predicate ViewIsFresh(cfg: Config, s: State, k: Key) {
    && k in s.cache && k in s.store && Resolvable(cfg, s.cache[k].spec)
    && s.store[k].spec == s.cache[k].spec
    && multiset(Erase(s.store[k].endpoints)) == Rediscover(cfg, s.cluster, k, s.cache[k].spec)
  }

  /** A key that is neither queued nor being reconciled. */
  ghost predicate RestingKey(cfg: Config, s: State, k: Key) {
    if k !in s.cache then k !in s.store
    else if s.cache[k].deleting then k !in s.store && (FINALIZER in s.cache[k].finalizers ==> Feed(s, k) != [])
    else if FINALIZER in s.cache[k].finalizers then ViewIsFresh(cfg, s, k)
    else Feed(s, k) != []
  }

  /** Everything listed so far is what the cache would list now. */
  ghost predicate ListedSoFar(
    cfg: Config, c: Cluster, k: Key, spec: RoutemapSpec, names: seq<string>, done: nat, found: seq<Endpoint>)
  {
    && Resolves(cfg, c, k, spec, names)
    && done <= |Plan(cfg, spec, names)|
    && multiset(found) == CallsSum(c, Plan(cfg, spec, names)[..done], k, spec)
  }

  ghost predicate FoundAll(cfg: Config, s: State, k: Key, rm: Routemap, found: seq<Endpoint>) {
    Resolvable(cfg, rm.spec) && multiset(Erase(found)) == Rediscover(cfg, s.cluster, k, rm.spec)
  }

  /** A reconcile that no event has overtaken since it started. */
  ghost predicate UpToDatePhase(cfg: Config, s: State, k: Key, p: Phase) {
    match p
    case Fetching => true
    case Dropping(gone) => Lookup(s.cache, k) == gone
    case Updating(rm, _) => Lookup(s.cache, k) == Some(rm)
    case Resolving(rm) => Lookup(s.cache, k) == Some(rm)
    case Listing(rm, names, done, found) =>
      Lookup(s.cache, k) == Some(rm) && ListedSoFar(cfg, s.cluster, k, rm.spec, names, done, found)
    case Merging(rm, found, _, _) => Lookup(s.cache, k) == Some(rm) && FoundAll(cfg, s, k, rm, found)
    case Publishing(rm, found) => Lookup(s.cache, k) == Some(rm) && FoundAll(cfg, s, k, rm, found)
    case Reporting(rm, _, _) => Lookup(s.cache, k) == Some(rm) && ViewIsFresh(cfg, s, k)
  }

  ghost predicate KeyInSync(cfg: Config, s: State, k: Key) {
    k !in s.pending ==>
      if k in s.active then UpToDatePhase(cfg, s, k, s.active[k]) else RestingKey(cfg, s, k)
  }

  ghost predicate InSync(cfg: Config, s: State) {
    forall k: Key :: KeyInSync(cfg, s, k)
  }

  lemma SyncInit(cfg: Config, s: State)
    requires Init(s)
    ensures InSync(cfg, s)
  {
  }

  // ------------------------------------------------------- changes of the cluster

  lemma ChangeStaysInNamespace(c: Cluster, change: ClusterChange, ns: string)
    requires match change
      case PutIngress(ing) => ing.ref.ns == ns
      case DropIngress(k) => k.ns == ns
      case PutRoute(route) => route.ref.ns == ns
      case DropRoute(k) => k.ns == ns
      case _ => false
    ensures DifferOnlyIn(c, ChangedCluster(c, change), ns)
  {
  }

  /** A route change does not matter to an operator that does not list routes. */
  lemma UnlistedRoutes(cfg: Config, c: Cluster, c': Cluster, k: Key, spec: RoutemapSpec, names: seq<string>, done: nat)
    requires !cfg.httpRouteAvailable && c' == c.(routes := c'.routes)
    requires done <= |Plan(cfg, spec, names)|
    ensures Rediscover(cfg, c, k, spec) == Rediscover(cfg, c', k, spec)
    ensures var calls := Plan(cfg, spec, names)[..done]; CallsSum(c, calls, k, spec) == CallsSum(c', calls, k, spec)
  {
    var calls := Plan(cfg, spec, names)[..done];
    assert Contribution(cfg, c, k, spec, IngressKind) == Contribution(cfg, c', k, spec, IngressKind);
    forall i | 0 <= i < |calls| ensures CallEndpoints(c, calls[i], k, spec) == CallEndpoints(c', calls[i], k, spec) {
      assert calls[i].kind == IngressKind;
    }
    TotalAgree(calls, Finds(c, k, spec), calls, Finds(c', k, spec));
  }

  lemma UnmatchedListing(
    cfg: Config, c: Cluster, c': Cluster, k: Key, spec: RoutemapSpec, ns: string, names: seq<string>, done: nat,
    found: seq<Endpoint>)
    requires !Matches(ns, k, spec) && DifferOnlyIn(c, c', ns)
    requires ListedSoFar(cfg, c, k, spec, names, done, found)
    ensures ListedSoFar(cfg, c', k, spec, names, done, found)
  {
    PlanAvoids(cfg, c, names, k, spec, ns);
    CallsIgnore(c, c', Plan(cfg, spec, names)[..done], k, spec, ns);
  }

  /** What a change in an unmatched namespace, or of an unlisted route, leaves alone. */
  lemma UntriggeredPhase(cfg: Config, s: State, change: ClusterChange, k: Key, p: Phase)
    requires k in s.cache && k !in Triggered(cfg, s.cache, change) && UpToDatePhase(cfg, s, k, p)
    ensures UpToDatePhase(cfg, s.(cluster := ChangedCluster(s.cluster, change)), k, p)
  {
    var spec := s.cache[k].spec;
    var c, c' := s.cluster, ChangedCluster(s.cluster, change);
    if (change.PutRoute? || change.DropRoute?) && !cfg.httpRouteAvailable {
      if p.Listing? {
        UnlistedRoutes(cfg, c, c', k, spec, p.names, p.done);
      } else {
        UnlistedRoutes(cfg, c, c', k, spec, [], 0);
      }
    } else {
      var ns := ChangedNamespace(change);
      ChangeStaysInNamespace(c, change, ns);
      NoMissedTrigger(cfg, c, c', k, spec, ns);
      if p.Listing? {
        UnmatchedListing(cfg, c, c', k, spec, ns, p.names, p.done, p.found);
      }
    }
  }

  function ChangedNamespace(change: ClusterChange): string {
    match change
    case PutIngress(ing) => ing.ref.ns
    case DropIngress(k) => k.ns
    case PutRoute(route) => route.ref.ns
    case DropRoute(k) => k.ns
    case PutNamespace(n, _) => n
    case DropNamespace(n) => n
  }

  lemma ChangeKeeps(cfg: Config, s: State, change: ClusterChange, k: Key)
    requires KeyInSync(cfg, s, k)
    ensures KeyInSync(cfg, Apply(cfg, s, Change(change)), k)
  {
    var s' := Apply(cfg, s, Change(change));
    if k !in s'.pending && k in s.cache {
      if k in s.active {
        UntriggeredPhase(cfg, s, change, k, s.active[k]);
      } else if Live(s.cache[k]) {
        UntriggeredPhase(cfg, s, change, k, Reporting(s.cache[k], 0, 0));
      }
    }
  }

  // --------------------------------------------------------- reconciles and probes

  lemma EraseUnknown(eps: seq<Endpoint>)
    requires AllUnknown(eps)
    ensures Erase(eps) == eps
  {
  }

  lemma EraseMerge(prev: map<Key, HealthState>, found: seq<Endpoint>)
    ensures Erase(Merge(prev, found)) == Erase(found)
  {
  }

  lemma ListNextKeeps(
    cfg: Config, c: Cluster, k: Key, spec: RoutemapSpec, names: seq<string>, done: nat, found: seq<Endpoint>,
    order: seq<Key>)
    requires ListedSoFar(cfg, c, k, spec, names, done, found) && done < |Plan(cfg, spec, names)|
    requires Enumerates(order, CallEndpoints(c, Plan(cfg, spec, names)[done], k, spec).Keys)
    ensures ListedSoFar(cfg, c, k, spec, names, done + 1,
                        found + Flatten(order, CallEndpoints(c, Plan(cfg, spec, names)[done], k, spec)))
  {
    var plan := Plan(cfg, spec, names);
    SumFlatten(order, CallEndpoints(c, plan[done], k, spec));
    assert plan[..done + 1][..done] == plan[..done];
  }

  lemma ListedAll(cfg: Config, c: Cluster, k: Key, spec: RoutemapSpec, names: seq<string>, found: seq<Endpoint>)
    requires ListedSoFar(cfg, c, k, spec, names, |Plan(cfg, spec, names)|, found) && AllUnknown(found)
    ensures multiset(Erase(found)) == Rediscover(cfg, c, k, spec)
  {
    assert Plan(cfg, spec, names)[..|Plan(cfg, spec, names)|] == Plan(cfg, spec, names);
    PlanIsRediscovery(cfg, c, names, k, spec);
    EraseUnknown(found);
  }

  lemma ListNextPhase(cfg: Config, s: State, k: Key, order: seq<Key>)
    requires ActionEnabled(cfg, s, k, ListNext(order)) && UpToDatePhase(cfg, s, k, s.active[k])
    ensures UpToDatePhase(cfg, s, k, React(cfg, s, k, ListNext(order)).phase.value)
  {
    var p := s.active[k];
    ListNextKeeps(cfg, s.cluster, k, p.rm.spec, p.names, p.done, p.found, order);
  }

  lemma BeginMergePhase(cfg: Config, s: State, k: Key)
    requires Shape(cfg, s) && ActionEnabled(cfg, s, k, BeginMerge) && UpToDatePhase(cfg, s, k, s.active[k])
    ensures UpToDatePhase(cfg, s, k, React(cfg, s, k, BeginMerge).phase.value)
  {
    var p := s.active[k];
    assert PhaseShape(cfg, s, k, p);
    ListedAll(cfg, s.cluster, k, p.rm.spec, p.names, p.found);
  }

  lemma ResolvePhase(cfg: Config, s: State, k: Key, names: seq<string>)
    requires ActionEnabled(cfg, s, k, Resolve(names)) && UpToDatePhase(cfg, s, k, s.active[k])
    ensures UpToDatePhase(cfg, s, k, React(cfg, s, k, Resolve(names)).phase.value)
  {
    assert Plan(cfg, s.active[k].rm.spec, names)[..0] == [];
  }

  /** Actions after which the reconcile goes on. */
  lemma PhaseKeeps(cfg: Config, s: State, k: Key, action: Action)
    requires Shape(cfg, s) && ActionEnabled(cfg, s, k, action) && k in s.active
    requires UpToDatePhase(cfg, s, k, s.active[k])
    ensures var e := React(cfg, s, k, action);
      e.phase.Some? && !action.Publish? ==> UpToDatePhase(cfg, s, k, e.phase.value)
  {
    if action.Resolve? {
      ResolvePhase(cfg, s, k, action.names);
    } else if action.ListNext? {
      ListNextPhase(cfg, s, k, action.order);
    } else if action.BeginMerge? {
      BeginMergePhase(cfg, s, k);
    } else if action.EndMerge? {
      EraseMerge(s.active[k].prev, s.active[k].found);
    }
  }

  /** The phase of a key that performed a step without API write is still up to date. */
  lemma PhaseAfter(cfg: Config, s: State, k: Key, e: Effect)
    requires e.phase.Some? && e.put.None? && UpToDatePhase(cfg, s, k, e.phase.value) && !e.phase.value.Reporting?
    ensures KeyInSync(cfg, Perform(s, k, e), k)
  {
  }

  lemma PublishKeeps(cfg: Config, s: State, k: Key)
    requires ActionEnabled(cfg, s, k, Publish) && UpToDatePhase(cfg, s, k, s.active[k])
    ensures KeyInSync(cfg, Perform(s, k, React(cfg, s, k, Publish)), k)
  {
  }

  lemma FinishKeeps(cfg: Config, s: State, k: Key, action: Action)
    requires Shape(cfg, s) && ActionEnabled(cfg, s, k, action) && k in s.active && k !in s.pending
    requires UpToDatePhase(cfg, s, k, s.active[k])
    requires action.UpdateFinalizers? || action.Report? || (action.Drop? && s.active[k].gone.None?)
    ensures KeyInSync(cfg, Perform(s, k, React(cfg, s, k, action)), k)
  {
    assert PhaseShape(cfg, s, k, s.active[k]);
    if action.UpdateFinalizers? {
      WithoutKeepsTheRest(s.active[k].rm.finalizers, FINALIZER);
    }
  }

  lemma CountKeeps(cfg: Config, s: State, k: Key)
    requires ActionEnabled(cfg, s, k, CountNext) && UpToDatePhase(cfg, s, k, s.active[k])
    ensures KeyInSync(cfg, Perform(s, k, React(cfg, s, k, CountNext)), k)
  {
  }

  lemma RequeuedKeeps(cfg: Config, s: State, k: Key, action: Action)
    requires ActionEnabled(cfg, s, k, action) && (React(cfg, s, k, action).queued || action.Start?)
    ensures KeyInSync(cfg, Perform(s, k, React(cfg, s, k, action)), k)
  {
  }

  lemma ActionKeeps(cfg: Config, s: State, k: Key, action: Action)
    requires Shape(cfg, s) && ActionEnabled(cfg, s, k, action) && KeyInSync(cfg, s, k)
    ensures KeyInSync(cfg, Perform(s, k, React(cfg, s, k, action)), k)
  {
    var e := React(cfg, s, k, action);
    if e.queued || action.Start? {
      RequeuedKeeps(cfg, s, k, action);
    } else if action.Publish? {
      PublishKeeps(cfg, s, k);
    } else if action.CountNext? {
      CountKeeps(cfg, s, k);
    } else if e.phase.Some? {
      PhaseKeeps(cfg, s, k, action);
      PhaseAfter(cfg, s, k, e);
    } else {
      FinishKeeps(cfg, s, k, action);
    }
  }

  /** Only the cache entry, the feed, the queue entry, the phase and the view of a key matter to it. */
  lemma SyncElsewhere(cfg: Config, s: State, s': State, k: Key)
    requires KeyInSync(cfg, s, k) && s'.cluster == s.cluster
    requires Lookup(s'.cache, k) == Lookup(s.cache, k)
    requires Feed(s, k) != [] ==> Feed(s', k) != []
    requires k in s.pending ==> k in s'.pending
    requires Lookup(s'.active, k) == Lookup(s.active, k)
    requires k in s'.store <==> k in s.store
    requires k in s.store ==>
      s'.store[k].spec == s.store[k].spec && Erase(s'.store[k].endpoints) == Erase(s.store[k].endpoints)
    ensures KeyInSync(cfg, s', k)
  {
  }

  lemma SyncReconcile(cfg: Config, s: State, key: Key, action: Action, k: Key)
    requires Shape(cfg, s) && KeyInSync(cfg, s, k) && ActionEnabled(cfg, s, key, action)
    ensures KeyInSync(cfg, Perform(s, key, React(cfg, s, key, action)), k)
  {
    if k == key {
      ActionKeeps(cfg, s, k, action);
    } else {
      SyncElsewhere(cfg, s, Perform(s, key, React(cfg, s, key, action)), k);
    }
  }

  lemma SyncProbe(cfg: Config, s: State, probe: ProbeStep, k: Key)
    requires KeyInSync(cfg, s, k) && ProbeEnabled(s, probe)
    ensures KeyInSync(cfg, ApplyProbe(s, probe), k)
  {
    ProbeFrame(s, probe);
    if k in s.store {
      ProbeKeepsEndpoints(s, probe, k);
    }
    SyncElsewhere(cfg, s, ApplyProbe(s, probe), k);
  }

  lemma SyncStep(cfg: Config, s: State, step: Step)
    requires Shape(cfg, s) && InSync(cfg, s) && Enabled(cfg, s, step)
    ensures InSync(cfg, Apply(cfg, s, step))
  {
    forall k: Key ensures KeyInSync(cfg, Apply(cfg, s, step), k) {
      assert KeyInSync(cfg, s, k);
      KeySyncStep(cfg, s, step, k);
    }
  }

  lemma KeySyncStep(cfg: Config, s: State, step: Step, k: Key)
    requires Shape(cfg, s) && KeyInSync(cfg, s, k) && Enabled(cfg, s, step)
    ensures KeyInSync(cfg, Apply(cfg, s, step), k)
  {
    match step
    case Change(change) =>
      ChangeKeeps(cfg, s, change, k);
    case Reconcile(key, action) =>
      SyncReconcile(cfg, s, key, action, k);
    case Probe(probe) =>
      SyncProbe(cfg, s, probe, k);
    case Deliver(key, n) =>
      if k != key {
        SyncElsewhere(cfg, s, Delivered(s, key, n), k);
      }
    case Client(key, write) =>
      ClientFrame(s, key, write);
      SyncElsewhere(cfg, s, ApiPut(s, key, ClientVersion(s, key, write)), k);
    case Requeue(key) =>
      SyncElsewhere(cfg, s, s.(pending := s.pending + {key}), k);
    case Loops(loop) =>
      LoopFrame(s, loop);
      SyncElsewhere(cfg, s, ApplyLoop(s, loop), k);
  }
}
