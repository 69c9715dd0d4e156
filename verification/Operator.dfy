/**
 * The operator as a state machine: the API server, the informer cache that trails it, the work queue,
 * one reconcile per key split at every read and write of shared state, the store, and probe writes that
 * go through the store one endpoint at a time.
 */
module Operator {
  import opened Kube
  import opened Sums
  import opened Discovery
  import opened Finalizers
  import opened Health
  import I = IngressInventory
  import R = HTTPRouteInventory

  datatype View = View(spec: RoutemapSpec, endpoints: seq<Endpoint>)

  /** Where the reconcile of one key stands; each value carries the locals the rest of it still uses. */
  datatype Phase =
    | Fetching
    | Dropping(gone: Option<Routemap>)
    | Updating(rm: Routemap, finalizers: seq<string>)
    | Resolving(rm: Routemap)
    | Listing(rm: Routemap, names: seq<string>, done: nat, found: seq<Endpoint>)
    | Merging(rm: Routemap, found: seq<Endpoint>, read: nat, prev: map<Key, HealthState>)
    | Publishing(rm: Routemap, found: seq<Endpoint>)
    | Reporting(rm: Routemap, read: nat, healthy: nat)

  /** `UpdateEndpointHealth` under the store's lock, about to look at endpoint `next`. */
  datatype Writer = Writer(key: Key, ref: Key, state: HealthState, next: nat)

  /** A tick of a probe loop: the slice its `Get` returned, and the endpoint it has come to. */
  datatype Pass = Pass(eps: seq<Endpoint>, next: nat)

  datatype Loop = Loop(key: Key, pass: Option<Pass>)

  /** What happened to the store, oldest first. */
  datatype Event =
    | Wrote(key: Key, ref: Key, state: HealthState)
    | Published(key: Key, refs: set<Key>)
    | Removed(key: Key)

  datatype State = State(
    api: map<Key, Routemap>,                     // the API server's Routemaps
    feed: map<Key, seq<Option<Routemap>>>,       // versions the informer has not delivered yet
    clock: nat,                                  // the next resource version
    cache: map<Key, Routemap>,                   // the informer cache: Routemaps
    cluster: Cluster,                            // the informer cache: everything else
    pending: set<Key>,                           // the work queue, delayed retries included
    active: map<Key, Phase>,                     // reconciles in progress
    store: map<Key, View>,
    writer: Option<Writer>,
    wanted: set<Key>,                            // keys whose last Get by the checker asked for a loop
    loops: map<nat, Loop>,                       // probe loops that run
    events: seq<Event>)                          // history of the store

  /** Changes of the cached Ingresses, HTTPRoutes and Namespaces; the watch handler runs in the same step. */
  datatype ClusterChange =
    | PutIngress(ing: I.Ingress)
    | DropIngress(key: Key)
    | PutRoute(route: R.HTTPRoute)
    | DropRoute(key: Key)
    | PutNamespace(name: string, labels: Labels)
    | DropNamespace(name: string)

  /** Writes of other API clients to one Routemap. */
  datatype ClientWrite =
    | Save(spec: RoutemapSpec, finalizers: seq<string>)
    | SaveStatus(status: Option<Status>)
    | Delete

  /** One step of the reconcile of one key: everything up to its next access to shared state. */
  datatype Action =
    | Start
    | Fetch
    | Drop
    | UpdateFinalizers
    | Resolve(names: seq<string>)
    | ListNext(order: seq<Key>)
    | BeginMerge
    | ReadHealth
    | EndMerge
    | Publish
    | CountNext
    | Report
    | Fail

  datatype ProbeStep = BeginWrite(id: nat, key: Key, ref: Key, state: HealthState) | WriteNext | EndWrite

  /** Steps of the checker and its loops, apart from the writes. */
  datatype LoopStep =
    | Look(key: Key)
    | Spawn(id: nat, key: Key)
    | Tick(id: nat)
    | Skip(id: nat)
    | EndPass(id: nat)
    | End(id: nat)

  datatype Step =
    | Client(key: Key, write: ClientWrite)
    | Deliver(key: Key, count: nat)
    | Change(change: ClusterChange)
    | Requeue(key: Key)
    | Reconcile(key: Key, action: Action)
    | Probe(probe: ProbeStep)
    | Loops(loop: LoopStep)

  function Lookup<V>(m: map<Key, V>, k: Key): Option<V> {
    if k in m then Some(m[k]) else None
  }

  function Assign<V>(m: map<Key, V>, k: Key, v: Option<V>): map<Key, V> {
    if v.Some? then m[k := v.value] else m - {k}
  }

  function Feed(s: State, k: Key): seq<Option<Routemap>> {
    if k in s.feed then s.feed[k] else []
  }

  predicate Live(rm: Routemap) { !rm.deleting && FINALIZER in rm.finalizers }

  /** An object being deleted vanishes when its last finalizer goes. */
  function Settle(rm: Routemap, version: nat): Option<Routemap> {
    if rm.deleting && rm.finalizers == [] then None else Some(rm.(version := version))
  }

  /** A successful API write: a new version, and a watch event on its way to the cache. */
  function ApiPut(s: State, k: Key, rm: Option<Routemap>): State {
    s.(api := Assign(s.api, k, rm), feed := s.feed[k := Feed(s, k) + [rm]], clock := s.clock + 1)
  }

  // ------------------------------------------------------------------- the world

  /** Other API clients do not remove our finalizer; the server adds none to an object being deleted. */
  predicate ClientAllowed(s: State, k: Key, write: ClientWrite) {
    match write
    case Save(spec, finalizers) =>
      k in s.api ==>
        && (FINALIZER in s.api[k].finalizers ==> FINALIZER in finalizers)
        && (s.api[k].deleting ==> forall f | f in finalizers :: f in s.api[k].finalizers)
    case SaveStatus(_) => k in s.api
    case Delete => k in s.api && !s.api[k].deleting
  }

  /** The server counts the changes of the spec. */
  function NextGeneration(rm: Routemap, spec: RoutemapSpec): nat {
    if spec == rm.spec then rm.generation else rm.generation + 1
  }

  function ClientVersion(s: State, k: Key, write: ClientWrite): Option<Routemap>
    requires ClientAllowed(s, k, write)
  {
    match write
    case Save(spec, finalizers) =>
      Settle(if k in s.api
             then s.api[k].(spec := spec, finalizers := finalizers, generation := NextGeneration(s.api[k], spec))
             else Routemap(spec, finalizers, false, 1, None, s.clock), s.clock)
    case SaveStatus(status) => Settle(s.api[k].(status := status), s.clock)
    case Delete => Settle(s.api[k].(deleting := true, generation := s.api[k].generation + 1), s.clock)
  }

  function ChangedCluster(c: Cluster, change: ClusterChange): Cluster {
    match change
    case PutIngress(ing) => c.(ingresses := c.ingresses[ing.ref := ing])
    case DropIngress(k) => c.(ingresses := c.ingresses - {k})
    case PutRoute(route) => c.(routes := c.routes[route.ref := route])
    case DropRoute(k) => c.(routes := c.routes - {k})
    case PutNamespace(n, labels) => c.(namespaces := c.namespaces[n := labels])
    case DropNamespace(n) => c.(namespaces := c.namespaces - {n})
  }

  /** `enqueueAffectedRoutemaps`. */
  function Affected(cache: map<Key, Routemap>, ns: string): set<Key> {
    set k | k in cache && Matches(ns, k, cache[k].spec)
  }

  /** What the watches requeue; HTTPRoutes are watched only when their CRD was found at start-up. */
  function Triggered(cfg: Config, cache: map<Key, Routemap>, change: ClusterChange): set<Key> {
    match change
    case PutIngress(ing) => Affected(cache, ing.ref.ns)
    case DropIngress(k) => Affected(cache, k.ns)
    case PutRoute(route) => if cfg.httpRouteAvailable then Affected(cache, route.ref.ns) else {}
    case DropRoute(k) => if cfg.httpRouteAvailable then Affected(cache, k.ns) else {}
    case PutNamespace(_, _) => cache.Keys
    case DropNamespace(_) => cache.Keys
  }

  // -------------------------------------------------------------- the reconciler

  ghost predicate ActionEnabled(cfg: Config, s: State, k: Key, action: Action) {
    if action.Start? then k in s.pending && k !in s.active
    else k in s.active && PhaseAllows(cfg, s, k, s.active[k], action)
  }

  ghost predicate PhaseAllows(cfg: Config, s: State, k: Key, p: Phase, action: Action) {
    match action
    case Start => false
    case Fetch => p.Fetching?
    case Drop => p.Dropping? && s.writer.None?
    case UpdateFinalizers => p.Updating?
    case Resolve(names) => p.Resolving? && Resolves(cfg, s.cluster, k, p.rm.spec, names)
    case ListNext(order) =>
      && p.Listing? && p.done < |Plan(cfg, p.rm.spec, p.names)|
      && Enumerates(order, CallEndpoints(s.cluster, Plan(cfg, p.rm.spec, p.names)[p.done], k, p.rm.spec).Keys)
    case BeginMerge => p.Listing? && s.writer.None? && p.done == |Plan(cfg, p.rm.spec, p.names)|
    // The merge loop reads the stored slice through its alias, without the lock.
    case ReadHealth => p.Merging? && k in s.store && p.read < |s.store[k].endpoints|
    case EndMerge => p.Merging? && k in s.store && p.read == |s.store[k].endpoints|
    case Publish => p.Publishing? && s.writer.None?
    // So does `countHealthy`, after the publish.
    case CountNext => p.Reporting? && k in s.store && p.read < |s.store[k].endpoints|
    // The second Get and the update that goes by it: accepted only if the cache has the server's version.
    case Report =>
      && Counted(s, k, p) && k in s.cache && k in s.api && s.cache[k].version == s.api[k].version
    case Fail => p.Fetching? || p.Updating? || p.Resolving? || p.Listing? || Counted(s, k, p)
  }

  predicate Counted(s: State, k: Key, p: Phase) {
    p.Reporting? && k in s.store && p.read == |s.store[k].endpoints|
  }

  /** The status a reconcile of `rm` writes on the object it fetched again. */
  function StatusFor(cfg: Config, k: Key, rm: Routemap, generation: nat, discovered: nat, healthy: nat): Status {
    Status(generation, discovered, healthy, cfg.dashboardAddress + "/" + k.ns + "/" + k.name,
           HTTPRouteKind in EffectiveSources(rm.spec.sources) && !cfg.httpRouteAvailable)
  }

  /** What an action leaves behind for its key; `put` is a successful API write, `event` a store access. */
  datatype Effect = Effect(
    phase: Option<Phase>, queued: bool, view: Option<View>, put: Option<Option<Routemap>>, event: Option<Event>)

  function Goto(s: State, k: Key, p: Phase): Effect {
    Effect(Some(p), k in s.pending, Lookup(s.store, k), None, None)
  }

  function Finish(s: State, k: Key): Effect {
    Effect(None, k in s.pending, Lookup(s.store, k), None, None)
  }

  function FetchPhase(cached: Option<Routemap>): Phase {
    match cached
    case None => Dropping(None)
    case Some(rm) =>
      if rm.deleting then Dropping(cached)
      else if FINALIZER !in rm.finalizers then Updating(rm, rm.finalizers + [FINALIZER])
      else Resolving(rm)
  }

  ghost function React(cfg: Config, s: State, k: Key, action: Action): Effect
    requires ActionEnabled(cfg, s, k, action)
  {
    match action
    case Start => Goto(s, k, Fetching).(queued := false)
    case Fetch => Goto(s, k, FetchPhase(Lookup(s.cache, k)))
    case Drop =>
      var gone := s.active[k].gone;
      Effect(
        (match gone case None => None case Some(rm) => Some(Updating(rm, Without(rm.finalizers, FINALIZER)))),
        k in s.pending, None, None, Some(Removed(k)))
    case UpdateFinalizers =>
      var p := s.active[k];
      if k !in s.api || s.api[k].version != p.rm.version then Finish(s, k).(queued := true)
      else if p.finalizers == p.rm.finalizers then Finish(s, k)
      else Finish(s, k).(put := Some(Settle(p.rm.(finalizers := p.finalizers), s.clock)))
    case Resolve(names) => Goto(s, k, Listing(s.active[k].rm, names, 0, []))
    case ListNext(order) =>
      var p := s.active[k];
      var call := Plan(cfg, p.rm.spec, p.names)[p.done];
      Goto(s, k, p.(done := p.done + 1,
                    found := p.found + Flatten(order, CallEndpoints(s.cluster, call, k, p.rm.spec))))
    case BeginMerge =>
      var p := s.active[k];
      Goto(s, k, if k in s.store then Merging(p.rm, p.found, 0, map[]) else Publishing(p.rm, p.found))
    case ReadHealth =>
      var p := s.active[k];
      var ep := s.store[k].endpoints[p.read];
      Goto(s, k, p.(read := p.read + 1, prev := p.prev[ep.sourceRef := ep.health]))
    case EndMerge => Goto(s, k, Publishing(s.active[k].rm, Merge(s.active[k].prev, s.active[k].found)))
    case Publish =>
      var p := s.active[k];
      Effect(Some(Reporting(p.rm, 0, 0)), k in s.pending, Some(View(p.rm.spec, p.found)), None,
             Some(Published(k, Refs(p.found))))
    case CountNext =>
      var p := s.active[k];
      var more := if s.store[k].endpoints[p.read].health == Healthy then 1 else 0;
      Goto(s, k, p.(read := p.read + 1, healthy := p.healthy + more))
    // The status update is a new version only when the status changed.
    case Report =>
      var p := s.active[k];
      var status := Some(StatusFor(cfg, k, p.rm, s.api[k].generation, |s.store[k].endpoints|, p.healthy));
      Finish(s, k).(put := if s.api[k].status == status then None
                           else Some(Settle(s.api[k].(status := status), s.clock)))
    case Fail => Finish(s, k).(queued := true)
  }

  function StoredRefs(s: State, k: Key): set<Key> {
    if k in s.store then Refs(s.store[k].endpoints) else {}
  }

  function Perform(s: State, k: Key, e: Effect): State {
    var s1 := if e.put.Some? then ApiPut(s, k, e.put.value) else s;
    s1.(active := Assign(s.active, k, e.phase),
        pending := if e.queued then s.pending + {k} else s.pending - {k},
        store := Assign(s.store, k, e.view),
        events := s.events + (match e.event case None => [] case Some(ev) => [ev]))
  }

  // ------------------------------------------------------------------ the probes

  /** The pass of the loop has come to an endpoint of this reference, and it has a health path. */
  predicate Due(s: State, id: nat, k: Key, ref: Key) {
    && id in s.loops && s.loops[id].key == k && s.loops[id].pass.Some?
    && var pass := s.loops[id].pass.value;
       pass.next < |pass.eps| && pass.eps[pass.next].sourceRef == ref && pass.eps[pass.next].healthPath != ""
  }

  function Advanced(s: State, id: nat): map<nat, Loop>
    requires id in s.loops && s.loops[id].pass.Some?
  {
    var pass := s.loops[id].pass.value;
    s.loops[id := s.loops[id].(pass := Some(pass.(next := pass.next + 1)))]
  }

  predicate ProbeEnabled(s: State, probe: ProbeStep) {
    match probe
    case BeginWrite(id, k, ref, state) => s.writer.None? && k in s.store && state != Unknown && Due(s, id, k, ref)
    case WriteNext =>
      && s.writer.Some? && s.writer.value.key in s.store
      && s.writer.value.next < |s.store[s.writer.value.key].endpoints|
    case EndWrite =>
      && s.writer.Some? && s.writer.value.key in s.store
      && s.writer.value.next == |s.store[s.writer.value.key].endpoints|
  }

  function ApplyProbe(s: State, probe: ProbeStep): State
    requires ProbeEnabled(s, probe)
  {
    match probe
    case BeginWrite(id, k, ref, state) =>
      var s1 := s.(writer := Some(Writer(k, ref, state, 0)), loops := Advanced(s, id));
      if ref !in StoredRefs(s, k) then s1
      else s1.(events := s.events + [Wrote(k, ref, state)])
    case WriteNext =>
      var w := s.writer.value;
      var view := s.store[w.key];
      var ep := WriteOne(view.endpoints[w.next], w.ref, w.state);
      s.(store := s.store[w.key := view.(endpoints := view.endpoints[w.next := ep])],
         writer := Some(w.(next := w.next + 1)))
    case EndWrite => s.(writer := None)
  }

  /** The view asks for health checks. */
  predicate WantsLoop(s: State, k: Key) {
    k in s.store && s.store[k].spec.healthCheck.Some? && s.store[k].spec.healthCheck.value.enabled
  }

  predicate LoopEnabled(s: State, loop: LoopStep) {
    match loop
    case Look(_) => true
    case Spawn(id, k) => id !in s.loops && k in s.wanted
    case Tick(id) => id in s.loops && s.loops[id].pass.None?
    // No health path, or a write that finds the key gone.
    case Skip(id) =>
      && id in s.loops && s.loops[id].pass.Some?
      && var pass := s.loops[id].pass.value;
         && pass.next < |pass.eps|
         && (pass.eps[pass.next].healthPath == "" || (s.writer.None? && s.loops[id].key !in s.store))
    case EndPass(id) =>
      && id in s.loops && s.loops[id].pass.Some?
      && s.loops[id].pass.value.next == |s.loops[id].pass.value.eps|
    case End(id) => id in s.loops && s.loops[id].pass.None?
  }

  function ApplyLoop(s: State, loop: LoopStep): State
    requires LoopEnabled(s, loop)
  {
    match loop
    case Look(k) => s.(wanted := if WantsLoop(s, k) then s.wanted + {k} else s.wanted - {k})
    case Spawn(id, k) => s.(loops := s.loops[id := Loop(k, None)])
    case Tick(id) =>
      var k := s.loops[id].key;
      s.(loops := if k in s.store then s.loops[id := Loop(k, Some(Pass(s.store[k].endpoints, 0)))] else s.loops - {id})
    case Skip(id) => s.(loops := Advanced(s, id))
    case EndPass(id) => s.(loops := s.loops[id := s.loops[id].(pass := None)])
    case End(id) => s.(loops := s.loops - {id})
  }

  // --------------------------------------------------------------------- all steps

  ghost predicate Enabled(cfg: Config, s: State, step: Step) {
    match step
    case Client(k, write) => ClientAllowed(s, k, write)
    case Deliver(k, n) => 0 < n <= |Feed(s, k)|
    case Change(_) => true
    case Requeue(_) => true
    case Reconcile(k, action) => ActionEnabled(cfg, s, k, action)
    case Probe(probe) => ProbeEnabled(s, probe)
    case Loops(loop) => LoopEnabled(s, loop)
  }

  /** The informer may skip versions, but never goes back; a delivery requeues its key. */
  function Delivered(s: State, k: Key, n: nat): State
    requires 0 < n <= |Feed(s, k)|
  {
    s.(cache := Assign(s.cache, k, Feed(s, k)[n - 1]),
       feed := s.feed[k := Feed(s, k)[n..]],
       pending := s.pending + {k})
  }

  ghost function Apply(cfg: Config, s: State, step: Step): State
    requires Enabled(cfg, s, step)
  {
    match step
    case Client(k, write) => ApiPut(s, k, ClientVersion(s, k, write))
    case Deliver(k, n) => Delivered(s, k, n)
    case Change(change) =>
      s.(cluster := ChangedCluster(s.cluster, change), pending := s.pending + Triggered(cfg, s.cache, change))
    case Requeue(k) => s.(pending := s.pending + {k})
    case Reconcile(k, action) => Perform(s, k, React(cfg, s, k, action))
    case Probe(probe) => ApplyProbe(s, probe)
    case Loops(loop) => ApplyLoop(s, loop)
  }

  /** Start-up: an empty store, a synced cache, and every Routemap queued. */
  ghost predicate Init(s: State) {
    && s.cache == s.api && s.feed == map[] && (forall k | k in s.api :: s.api[k].version < s.clock)
    && s.cache.Keys <= s.pending && s.active == map[]
    && s.store == map[] && s.writer == None && s.wanted == {} && s.loops == map[] && s.events == []
  }

  ghost predicate Moves(cfg: Config, states: seq<State>, steps: seq<Step>, i: nat)
    requires i < |steps| && i + 1 < |states|
  {
    Enabled(cfg, states[i], steps[i]) && states[i + 1] == Apply(cfg, states[i], steps[i])
  }

  /** A run: a first state and the steps taken from it, each enabled where it was taken. */
  ghost predicate IsRun(cfg: Config, states: seq<State>, steps: seq<Step>) {
    && |states| == |steps| + 1
    && Init(states[0])
    && forall i | 0 <= i < |steps| :: Moves(cfg, states, steps, i)
  }

  lemma RunStep(cfg: Config, states: seq<State>, steps: seq<Step>, i: nat)
    requires IsRun(cfg, states, steps) && i < |steps|
    ensures |states| == |steps| + 1 && Enabled(cfg, states[i], steps[i])
    ensures states[i + 1] == Apply(cfg, states[i], steps[i])
  {
    assert Moves(cfg, states, steps, i);
  }

  lemma RunStart(cfg: Config, states: seq<State>, steps: seq<Step>)
    requires IsRun(cfg, states, steps)
    ensures |states| == |steps| + 1 && Init(states[0])
  {
  }

  // -------------------------------------------------- structure kept by every step

  /** What a phase guarantees about its own locals and the store, whatever the rest of the world does. */
  ghost predicate PhaseShape(cfg: Config, s: State, k: Key, p: Phase) {
    match p
    case Fetching => true
    case Dropping(gone) => gone.Some? ==> gone.value.deleting
    case Updating(rm, finalizers) =>
      if rm.deleting then finalizers == Without(rm.finalizers, FINALIZER) && k !in s.store
      else FINALIZER !in rm.finalizers && finalizers == rm.finalizers + [FINALIZER]
    case Resolving(rm) => Live(rm)
    case Listing(rm, names, done, found) =>
      Live(rm) && done <= |Plan(cfg, rm.spec, names)| && AllUnknown(found)
    case Merging(rm, found, read, prev) =>
      && Live(rm) && AllUnknown(found)
      && k in s.store && read <= |s.store[k].endpoints|
      && prev.Keys == Refs(s.store[k].endpoints[..read])
    case Publishing(rm, found) => Live(rm)
    case Reporting(rm, read, _) => Live(rm) && k in s.store && read <= |s.store[k].endpoints|
  }

  ghost predicate AllUnknown(eps: seq<Endpoint>) {
    forall i | 0 <= i < |eps| :: eps[i].health == Unknown
  }

  ghost predicate Shape(cfg: Config, s: State) {
    && (forall k | k in s.active :: PhaseShape(cfg, s, k, s.active[k]))
    && WriterShape(s)
  }

  ghost predicate WriterShape(s: State) {
    s.writer.Some? ==>
      && s.writer.value.key in s.store
      && s.writer.value.next <= |s.store[s.writer.value.key].endpoints|
      && s.writer.value.state != Unknown
  }

  lemma {:induction false} FlattenUnknown(order: seq<Key>, m: map<Key, seq<Endpoint>>)
    requires forall k | k in order :: k in m && AllUnknown(m[k])
    ensures AllUnknown(Flatten(order, m))
  {
    if order != [] {
      FlattenUnknown(order[..|order| - 1], m);
    }
  }

  /** Discovery never reports a health. */
  lemma CallsFindUnknown(c: Cluster, call: ListCall, key: Key, spec: RoutemapSpec, order: seq<Key>)
    requires Enumerates(order, CallEndpoints(c, call, key, spec).Keys)
    ensures AllUnknown(Flatten(order, CallEndpoints(c, call, key, spec)))
  {
    var m := CallEndpoints(c, call, key, spec);
    forall k | k in order ensures k in m && AllUnknown(m[k]) {
      match call.kind
      case IngressKind => I.IngressEndpointsAreFresh(c.ingresses[k], key, AnnotationKey(spec));
      case HTTPRouteKind => R.RouteEndpointsAreFresh(c.routes[k], key, AnnotationKey(spec));
    }
    FlattenUnknown(order, m);
  }

  lemma RefsSnoc(eps: seq<Endpoint>, i: nat)
    requires i < |eps|
    ensures Refs(eps[..i + 1]) == Refs(eps[..i]) + {eps[i].sourceRef}
  {
    assert eps[..i + 1] == eps[..i] + [eps[i]];
  }

  lemma RefsSame(a: seq<Endpoint>, b: seq<Endpoint>)
    requires |a| == |b| && forall i | 0 <= i < |a| :: a[i].sourceRef == b[i].sourceRef
    ensures Refs(a) == Refs(b)
  {
    forall r ensures r in Refs(a) <==> r in Refs(b) {
      if r in Refs(a) {
        var i :| 0 <= i < |a| && a[i].sourceRef == r;
        assert b[i] in b;
      }
      if r in Refs(b) {
        var i :| 0 <= i < |b| && b[i].sourceRef == r;
        assert a[i] in a;
      }
    }
  }

  /** A step of the checker or of a loop touches nothing else. */
  lemma LoopFrame(s: State, loop: LoopStep)
    requires LoopEnabled(s, loop)
    ensures ApplyLoop(s, loop) == s.(wanted := ApplyLoop(s, loop).wanted, loops := ApplyLoop(s, loop).loops)
  {
  }

  lemma ClientFrame(s: State, k: Key, write: ClientWrite)
    requires ClientAllowed(s, k, write)
    ensures var s' := ApiPut(s, k, ClientVersion(s, k, write));
      s' == s.(api := s'.api, feed := s'.feed, clock := s.clock + 1)
  {
  }

  /** The world changes neither reconciles nor the store, and takes no key off the queue. */
  lemma WorldFrame(cfg: Config, s: State, step: Step)
    requires Enabled(cfg, s, step) && !step.Reconcile? && !step.Probe?
    ensures var s' := Apply(cfg, s, step);
      && s'.active == s.active && s'.store == s.store && s'.writer == s.writer
      && s'.events == s.events && s.pending <= s'.pending
  {
    if step.Loops? {
      LoopFrame(s, step.loop);
    } else if step.Client? {
      ClientFrame(s, step.key, step.write);
    }
  }

  /** A probe write changes nothing but the health of endpoints of one key. */
  lemma ProbeFrame(s: State, probe: ProbeStep)
    requires ProbeEnabled(s, probe)
    ensures var s' := ApplyProbe(s, probe);
      && s'.api == s.api && s'.feed == s.feed && s'.clock == s.clock && s'.cache == s.cache
      && s'.cluster == s.cluster && s'.pending == s.pending && s'.active == s.active
    ensures forall k :: k in ApplyProbe(s, probe).store <==> k in s.store
  {
    match probe
    case BeginWrite(_, _, _, _) =>
    case WriteNext =>
      assert ApplyProbe(s, probe).store.Keys == s.store.Keys;
    case EndWrite =>
  }

  lemma ProbeKeepsEndpoints(s: State, probe: ProbeStep, k: Key)
    requires ProbeEnabled(s, probe) && k in s.store
    ensures var s' := ApplyProbe(s, probe);
      && k in s'.store && s'.store[k].spec == s.store[k].spec
      && |s'.store[k].endpoints| == |s.store[k].endpoints|
      && forall i | 0 <= i < |s.store[k].endpoints| ::
           && s'.store[k].endpoints[i].sourceRef == s.store[k].endpoints[i].sourceRef
           && s'.store[k].endpoints[i].(health := Unknown) == s.store[k].endpoints[i].(health := Unknown)
  {
  }

  lemma ShapeListNext(cfg: Config, s: State, k: Key, order: seq<Key>)
    requires Shape(cfg, s) && ActionEnabled(cfg, s, k, ListNext(order))
    ensures var e := React(cfg, s, k, ListNext(order)); PhaseShape(cfg, Perform(s, k, e), k, e.phase.value)
  {
    var p := s.active[k];
    assert PhaseShape(cfg, s, k, p);
    CallsFindUnknown(s.cluster, Plan(cfg, p.rm.spec, p.names)[p.done], k, p.rm.spec, order);
  }

  lemma ShapeReadHealth(cfg: Config, s: State, k: Key)
    requires Shape(cfg, s) && ActionEnabled(cfg, s, k, ReadHealth)
    ensures var e := React(cfg, s, k, ReadHealth); PhaseShape(cfg, Perform(s, k, e), k, e.phase.value)
  {
    assert PhaseShape(cfg, s, k, s.active[k]);
    RefsSnoc(s.store[k].endpoints, s.active[k].read);
  }

  /** What the acting key's phase guarantees after an action. */
  lemma ShapeAction(cfg: Config, s: State, k: Key, action: Action)
    requires Shape(cfg, s) && ActionEnabled(cfg, s, k, action)
    ensures var e := React(cfg, s, k, action);
      e.phase.Some? ==> PhaseShape(cfg, Perform(s, k, e), k, e.phase.value)
  {
    if action.ListNext? {
      ShapeListNext(cfg, s, k, action.order);
    } else if action.ReadHealth? {
      ShapeReadHealth(cfg, s, k);
    } else if k in s.active {
      assert PhaseShape(cfg, s, k, s.active[k]);
    }
  }

  lemma ShapeProbe(cfg: Config, s: State, probe: ProbeStep, k: Key)
    requires Shape(cfg, s) && ProbeEnabled(s, probe) && k in s.active
    ensures PhaseShape(cfg, ApplyProbe(s, probe), k, s.active[k])
  {
    var s' := ApplyProbe(s, probe);
    ProbeFrame(s, probe);
    if s.active[k].Reporting? {
      ProbeKeepsEndpoints(s, probe, k);
    }
    if s.active[k].Merging? {
      ProbeKeepsEndpoints(s, probe, k);
      RefsSame(s.store[k].endpoints[..s.active[k].read], s'.store[k].endpoints[..s.active[k].read]);
    }
  }

  /** The shape of a phase depends on the store only through its own key. */
  lemma ShapeElsewhere(cfg: Config, s: State, s': State, k: Key, p: Phase)
    requires PhaseShape(cfg, s, k, p) && Lookup(s.store, k) == Lookup(s'.store, k)
    ensures PhaseShape(cfg, s', k, p)
  {
  }

  lemma ShapeReconcile(cfg: Config, s: State, key: Key, action: Action)
    requires Shape(cfg, s) && ActionEnabled(cfg, s, key, action)
    ensures Shape(cfg, Perform(s, key, React(cfg, s, key, action)))
  {
    var e := React(cfg, s, key, action);
    var s' := Perform(s, key, e);
    ShapeAction(cfg, s, key, action);
    forall k | k in s'.active ensures PhaseShape(cfg, s', k, s'.active[k]) {
      if k != key {
        ShapeElsewhere(cfg, s, s', k, s.active[k]);
      }
    }
    if s.writer.Some? {
      WriterSurvives(cfg, s, key, action);
    }
  }

  /** No reconcile touches the store while a probe write holds its lock. */
  lemma WriterSurvives(cfg: Config, s: State, key: Key, action: Action)
    requires ActionEnabled(cfg, s, key, action) && s.writer.Some?
    ensures React(cfg, s, key, action).view == Lookup(s.store, key)
  {
  }

  lemma ShapeStep(cfg: Config, s: State, step: Step)
    requires Shape(cfg, s) && Enabled(cfg, s, step)
    ensures Shape(cfg, Apply(cfg, s, step))
  {
    var s' := Apply(cfg, s, step);
    if step.Reconcile? {
      ShapeReconcile(cfg, s, step.key, step.action);
    } else if step.Probe? {
      ProbeFrame(s, step.probe);
      forall k | k in s'.active ensures PhaseShape(cfg, s', k, s'.active[k]) {
        ShapeProbe(cfg, s, step.probe, k);
      }
      ShapeWriter(cfg, s, step.probe);
    } else {
      WorldFrame(cfg, s, step);
      forall k | k in s'.active ensures PhaseShape(cfg, s', k, s'.active[k]) {
        ShapeElsewhere(cfg, s, s', k, s.active[k]);
      }
    }
  }

  lemma ShapeWriter(cfg: Config, s: State, probe: ProbeStep)
    requires Shape(cfg, s) && ProbeEnabled(s, probe)
    ensures WriterShape(ApplyProbe(s, probe))
  {
  }
}
