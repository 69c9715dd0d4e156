/**
 * A run from start-up in which a probe result is lost: one Routemap, one Ingress with one path, two reconciles,
 * and one probe that succeeds while the second reconcile is about to publish.
 */
module OperatorLostRun {
  import opened Kube
  import opened Sums
  import opened Discovery
  import opened Finalizers
  import opened Health
  import opened Operator
  import opened OperatorHealth
  import opened OperatorTheorems
  import opened OperatorRuns
  import opened OperatorLastWrite
  import L = OperatorLostWrite
  import I = IngressInventory

  const KEY := Key("shop", "routes")
  const SOURCE := Key("shop", "web")
  const SPEC := RoutemapSpec(
    NamespaceSelector(false, [], None), [IngressKind], Some(HealthCheckSpec(true, "", 0, 0, 0)), None, "")
  const LIVE := Routemap(SPEC, [FINALIZER], false, 1, None, 0)
  const INGRESS := I.Ingress(
    SOURCE, map["routemap.github.com/healthcheck" := "/healthz"],
    [I.IngressRule("shop.example", Some([I.IngressPath("/", None, None)]))], [])
  const CLUSTER := Cluster(map[], map[SOURCE := INGRESS], map[])
  const START := State(
    map[KEY := LIVE], map[], 1, map[KEY := LIVE], CLUSTER, {KEY}, map[], map[], None, {}, map[], [])

  function Found(): seq<Endpoint> { I.IngressEndpoints(INGRESS, KEY, AnnotationKey(SPEC)) }

  lemma FoundOne()
    ensures |Found()| == 1 && Found()[0].sourceRef == SOURCE && Found()[0].health == Unknown
    ensures Refs(Found()) == {SOURCE} && Found()[0].healthPath == "/healthz"
  {
    I.EntryUpTo(INGRESS, 1, KEY, AnnotationKey(SPEC), 0, 0);
    I.LengthUpTo(INGRESS, 1, KEY, AnnotationKey(SPEC));
    assert I.Offset(INGRESS.rules, 0) == 0 && I.Offset(INGRESS.rules, 1) == 1;
    I.IngressEndpointsAreFresh(INGRESS, KEY, AnnotationKey(SPEC));
    assert Found() == [Found()[0]];
  }

  lemma OneCall(cfg: Config)
    ensures Plan(cfg, SPEC, ["shop"]) == [ListCall(IngressKind, In("shop"))]
    ensures CallEndpoints(CLUSTER, ListCall(IngressKind, In("shop")), KEY, SPEC) == map[SOURCE := Found()]
    ensures Flatten([SOURCE], map[SOURCE := Found()]) == Found()
  {
    assert Lists(cfg, SPEC, IngressKind) && !Lists(cfg, SPEC, HTTPRouteKind);
    assert [SOURCE][..0] == [];
  }

  /** A step that only moves the key's phase. */
  lemma PerformGoto(s: State, k: Key, p: Phase)
    ensures Perform(s, k, Goto(s, k, p)) == s.(active := s.active[k := p])
  {
    assert Assign(s.store, k, Lookup(s.store, k)) == s.store;
    assert (if k in s.pending then s.pending + {k} else s.pending - {k}) == s.pending;
  }

  lemma StartStep(cfg: Config, s: State)
    requires KEY in s.pending && KEY !in s.active
    ensures Enabled(cfg, s, Reconcile(KEY, Start))
    ensures Apply(cfg, s, Reconcile(KEY, Start))
         == s.(active := s.active[KEY := Fetching], pending := s.pending - {KEY})
  {
    assert Assign(s.store, KEY, Lookup(s.store, KEY)) == s.store;
  }

  lemma ListStep(cfg: Config, s: State)
    requires s.cluster == CLUSTER && KEY in s.active && s.active[KEY] == Listing(LIVE, ["shop"], 0, [])
    ensures Enabled(cfg, s, Reconcile(KEY, ListNext([SOURCE])))
    ensures Apply(cfg, s, Reconcile(KEY, ListNext([SOURCE])))
         == s.(active := s.active[KEY := Listing(LIVE, ["shop"], 1, Found())])
  {
    OneCall(cfg);
    PerformGoto(s, KEY, Listing(LIVE, ["shop"], 1, Found()));
  }

  lemma FetchStep(cfg: Config, s: State)
    requires s.cache == START.cache && KEY in s.active && s.active[KEY] == Fetching
    ensures Enabled(cfg, s, Reconcile(KEY, Fetch))
    ensures Apply(cfg, s, Reconcile(KEY, Fetch)) == s.(active := s.active[KEY := Resolving(LIVE)])
  {
    PerformGoto(s, KEY, Resolving(LIVE));
  }

  lemma ResolveStep(cfg: Config, s: State)
    requires KEY in s.active && s.active[KEY] == Resolving(LIVE)
    ensures Enabled(cfg, s, Reconcile(KEY, Resolve(["shop"])))
    ensures Apply(cfg, s, Reconcile(KEY, Resolve(["shop"])))
         == s.(active := s.active[KEY := Listing(LIVE, ["shop"], 0, [])])
  {
    PerformGoto(s, KEY, Listing(LIVE, ["shop"], 0, []));
  }

  lemma Follows(cfg: Config, s: State, before: seq<Step>, mid: State, step: Step, s': State)
    requires Leads(cfg, s, before, mid) && Enabled(cfg, mid, step) && s' == Apply(cfg, mid, step)
    ensures Leads(cfg, s, before + [step], s')
  {
    LeadsOnce(cfg, mid, step);
    LeadsOn(cfg, s, before, mid, [step], s');
  }

  lemma Starts(cfg: Config, s: State) returns (steps: seq<Step>, s': State)
    requires s.cache == START.cache && KEY in s.pending && KEY !in s.active
    ensures Leads(cfg, s, steps, s')
    ensures s' == s.(active := s.active[KEY := Resolving(LIVE)], pending := s.pending - {KEY})
  {
    StartStep(cfg, s);
    var s1 := Apply(cfg, s, Reconcile(KEY, Start));
    LeadsOnce(cfg, s, Reconcile(KEY, Start));
    FetchStep(cfg, s1);
    s' := Apply(cfg, s1, Reconcile(KEY, Fetch));
    Follows(cfg, s, [Reconcile(KEY, Start)], s1, Reconcile(KEY, Fetch), s');
    steps := [Reconcile(KEY, Start)] + [Reconcile(KEY, Fetch)];
  }

  lemma ListsAll(cfg: Config, s: State) returns (steps: seq<Step>, s': State)
    requires s.cluster == CLUSTER && KEY in s.active && s.active[KEY] == Resolving(LIVE)
    ensures Leads(cfg, s, steps, s')
    ensures s' == s.(active := s.active[KEY := Listing(LIVE, ["shop"], 1, Found())])
  {
    ResolveStep(cfg, s);
    var s1 := Apply(cfg, s, Reconcile(KEY, Resolve(["shop"])));
    LeadsOnce(cfg, s, Reconcile(KEY, Resolve(["shop"])));
    ListStep(cfg, s1);
    s' := Apply(cfg, s1, Reconcile(KEY, ListNext([SOURCE])));
    Follows(cfg, s, [Reconcile(KEY, Resolve(["shop"]))], s1, Reconcile(KEY, ListNext([SOURCE])), s');
    steps := [Reconcile(KEY, Resolve(["shop"]))] + [Reconcile(KEY, ListNext([SOURCE]))];
  }

  /** The first four steps of a reconcile find the one endpoint. */
  lemma Discovers(cfg: Config, s: State) returns (steps: seq<Step>, s': State)
    requires s.cache == START.cache && s.cluster == CLUSTER && KEY in s.pending && KEY !in s.active
    ensures Leads(cfg, s, steps, s')
    ensures s' == s.(active := s.active[KEY := Listing(LIVE, ["shop"], 1, Found())], pending := s.pending - {KEY})
  {
    var first, s1 := Starts(cfg, s);
    var second;
    second, s' := ListsAll(cfg, s1);
    LeadsOn(cfg, s, first, s1, second, s');
    steps := first + second;
  }

  lemma BeginMergeStep(cfg: Config, s: State)
    requires s.writer.None? && KEY in s.active && s.active[KEY] == Listing(LIVE, ["shop"], 1, Found())
    ensures Enabled(cfg, s, Reconcile(KEY, BeginMerge))
    ensures Apply(cfg, s, Reconcile(KEY, BeginMerge)) == s.(active := s.active[KEY :=
      if KEY in s.store then Merging(LIVE, Found(), 0, map[]) else Publishing(LIVE, Found())])
  {
    OneCall(cfg);
    PerformGoto(s, KEY, if KEY in s.store then Merging(LIVE, Found(), 0, map[]) else Publishing(LIVE, Found()));
  }

  lemma PublishStep(cfg: Config, s: State)
    requires s.writer.None? && KEY in s.active && s.active[KEY] == Publishing(LIVE, Found()) && KEY !in s.pending
    ensures Enabled(cfg, s, Reconcile(KEY, Publish))
    ensures Apply(cfg, s, Reconcile(KEY, Publish))
         == s.(active := s.active[KEY := Reporting(LIVE, 0, 0)], store := s.store[KEY := View(SPEC, Found())],
               events := s.events + [Published(KEY, Refs(Found()))])
  {
  }

  lemma CountStep(cfg: Config, s: State)
    requires KEY in s.store && s.store[KEY] == View(SPEC, Found())
    requires KEY in s.active && s.active[KEY] == Reporting(LIVE, 0, 0)
    ensures Enabled(cfg, s, Reconcile(KEY, CountNext))
    ensures Apply(cfg, s, Reconcile(KEY, CountNext)) == s.(active := s.active[KEY := Reporting(LIVE, 1, 0)])
  {
    FoundOne();
    PerformGoto(s, KEY, Reporting(LIVE, 1, 0));
  }

  lemma FailStep(cfg: Config, s: State)
    requires KEY in s.store && s.store[KEY] == View(SPEC, Found())
    requires KEY in s.active && s.active[KEY] == Reporting(LIVE, 1, 0)
    ensures Enabled(cfg, s, Reconcile(KEY, Fail))
    ensures Apply(cfg, s, Reconcile(KEY, Fail)) == s.(active := s.active - {KEY}, pending := s.pending + {KEY})
  {
    FoundOne();
    assert Assign(s.store, KEY, Lookup(s.store, KEY)) == s.store;
  }

  lemma ReadStep(cfg: Config, s: State)
    requires KEY in s.store && s.store[KEY] == View(SPEC, Found())
    requires KEY in s.active && s.active[KEY] == Merging(LIVE, Found(), 0, map[])
    ensures Enabled(cfg, s, Reconcile(KEY, ReadHealth))
    ensures Apply(cfg, s, Reconcile(KEY, ReadHealth))
         == s.(active := s.active[KEY := Merging(LIVE, Found(), 1, map[SOURCE := Unknown])])
  {
    FoundOne();
    PerformGoto(s, KEY, Merging(LIVE, Found(), 1, map[SOURCE := Unknown]));
  }

  lemma EndMergeStep(cfg: Config, s: State)
    requires KEY in s.store && s.store[KEY] == View(SPEC, Found())
    requires KEY in s.active && s.active[KEY] == Merging(LIVE, Found(), 1, map[SOURCE := Unknown])
    ensures Enabled(cfg, s, Reconcile(KEY, EndMerge))
    ensures Apply(cfg, s, Reconcile(KEY, EndMerge)) == s.(active := s.active[KEY := Publishing(LIVE, Found())])
  {
    FoundOne();
    assert Merge(map[SOURCE := Unknown], Found()) == Found();
    PerformGoto(s, KEY, Publishing(LIVE, Found()));
  }

  /** The first reconcile up to its publish. */
  lemma FirstPublish(cfg: Config) returns (steps: seq<Step>, s: State)
    ensures Leads(cfg, START, steps, s)
    ensures s == START.(
      active := map[KEY := Reporting(LIVE, 0, 0)], pending := {}, store := map[KEY := View(SPEC, Found())],
      events := [Published(KEY, Refs(Found()))])
  {
    var s1;
    steps, s1 := Discovers(cfg, START);
    BeginMergeStep(cfg, s1);
    var s2 := Apply(cfg, s1, Reconcile(KEY, BeginMerge));
    Follows(cfg, START, steps, s1, Reconcile(KEY, BeginMerge), s2);
    PublishStep(cfg, s2);
    s := Apply(cfg, s2, Reconcile(KEY, Publish));
    Follows(cfg, START, steps + [Reconcile(KEY, BeginMerge)], s2, Reconcile(KEY, Publish), s);
    steps := steps + [Reconcile(KEY, BeginMerge)] + [Reconcile(KEY, Publish)];
  }

  /** Between the reconciles: one status write failed, and the key is queued again. */
  ghost predicate BetweenReconciles(s: State) {
    && s.cache == START.cache && s.cluster == CLUSTER && s.writer.None? && KEY in s.pending && KEY !in s.active
    && KEY in s.store && s.store[KEY] == View(SPEC, Found())
  }

  lemma FirstReconcile(cfg: Config) returns (steps: seq<Step>, s: State)
    ensures Leads(cfg, START, steps, s) && BetweenReconciles(s) && s.loops == map[]
  {
    var s1;
    steps, s1 := FirstPublish(cfg);
    CountStep(cfg, s1);
    var s2 := Apply(cfg, s1, Reconcile(KEY, CountNext));
    Follows(cfg, START, steps, s1, Reconcile(KEY, CountNext), s2);
    FailStep(cfg, s2);
    s := Apply(cfg, s2, Reconcile(KEY, Fail));
    Follows(cfg, START, steps + [Reconcile(KEY, CountNext)], s2, Reconcile(KEY, Fail), s);
    steps := steps + [Reconcile(KEY, CountNext)] + [Reconcile(KEY, Fail)];
  }

  /** The checker sees the view, starts a loop for it, and the loop's first tick takes the slice. */
  lemma StartsProbing(cfg: Config, s: State) returns (steps: seq<Step>, s': State)
    requires BetweenReconciles(s) && s.loops == map[]
    ensures Leads(cfg, s, steps, s') && BetweenReconciles(s') && Due(s', 0, KEY, SOURCE)
  {
    FoundOne();
    var look, spawn, tick := Loops(Look(KEY)), Loops(Spawn(0, KEY)), Loops(Tick(0));
    var s1 := Apply(cfg, s, look);
    LeadsOnce(cfg, s, look);
    var s2 := Apply(cfg, s1, spawn);
    Follows(cfg, s, [look], s1, spawn, s2);
    s' := Apply(cfg, s2, tick);
    Follows(cfg, s, [look] + [spawn], s2, tick, s');
    steps := [look] + [spawn] + [tick];
  }

  /** The second reconcile, up to the point where it has merged and not published. */
  lemma SecondMerge(cfg: Config, s: State) returns (steps: seq<Step>, s': State)
    requires BetweenReconciles(s)
    ensures Leads(cfg, s, steps, s')
    ensures s'.store == s.store && s'.writer.None? && s'.loops == s.loops
    ensures KEY in s'.active && s'.active[KEY] == Publishing(LIVE, Found())
  {
    var s1;
    steps, s1 := Discovers(cfg, s);
    BeginMergeStep(cfg, s1);
    var s2 := Apply(cfg, s1, Reconcile(KEY, BeginMerge));
    Follows(cfg, s, steps, s1, Reconcile(KEY, BeginMerge), s2);
    ReadStep(cfg, s2);
    var s3 := Apply(cfg, s2, Reconcile(KEY, ReadHealth));
    Follows(cfg, s, steps + [Reconcile(KEY, BeginMerge)], s2, Reconcile(KEY, ReadHealth), s3);
    EndMergeStep(cfg, s3);
    s' := Apply(cfg, s3, Reconcile(KEY, EndMerge));
    Follows(cfg, s, steps + [Reconcile(KEY, BeginMerge)] + [Reconcile(KEY, ReadHealth)],
            s3, Reconcile(KEY, EndMerge), s');
    steps := steps + [Reconcile(KEY, BeginMerge)] + [Reconcile(KEY, ReadHealth)] + [Reconcile(KEY, EndMerge)];
  }

  lemma StartIsInit(cfg: Config)
    ensures Init(START) && IsRun(cfg, [START], [])
  {
  }

  ghost predicate Lost(s: State) {
    && KEY in s.store && s.store[KEY] == View(SPEC, Found()) && s.writer.None?
    && Expected(s.events, KEY, SOURCE) == Some(Healthy)
  }

  /** The probe and the publish of the second reconcile. */
  lemma ProbeAndPublish(cfg: Config, s: State) returns (steps: seq<Step>, s': State)
    requires Invariant(cfg, s) && s.writer.None? && KEY in s.store && s.store[KEY] == View(SPEC, Found())
    requires KEY in s.active && s.active[KEY] == Publishing(LIVE, Found()) && Due(s, 0, KEY, SOURCE)
    ensures Leads(cfg, s, steps, s') && Lost(s')
  {
    FoundOne();
    steps, s' := L.ProbeIsLostInMerge(cfg, s, 0, KEY, SOURCE, Healthy, 0);
  }

  lemma StartKeepsInvariant(cfg: Config, steps: seq<Step>, s: State)
    requires Leads(cfg, START, steps, s)
    ensures Invariant(cfg, s)
  {
    StartIsInit(cfg);
    InvariantInEveryRun(cfg, [START], [], 0);
    InvariantLeads(cfg, START, steps, s);
  }

  lemma LostSteps(cfg: Config) returns (steps: seq<Step>, s: State)
    ensures Leads(cfg, START, steps, s) && Lost(s)
  {
    var first, s1 := FirstReconcile(cfg);
    var start, s2 := StartsProbing(cfg, s1);
    LeadsOn(cfg, START, first, s1, start, s2);
    var second, s3 := SecondMerge(cfg, s2);
    LeadsOn(cfg, START, first + start, s2, second, s3);
    StartKeepsInvariant(cfg, first + start + second, s3);
    var last;
    last, s := ProbeAndPublish(cfg, s3);
    LeadsOn(cfg, START, first + start + second, s3, last, s);
    steps := first + start + second + last;
  }

  /**
   * A run from start-up at whose end the one endpoint is Unknown although Healthy was written last. The view asks
   * for health checks and the endpoint has a health path, so the probe is one the checker makes.
   */
  lemma LostRun(cfg: Config) returns (states: seq<State>, steps: seq<Step>)
    ensures IsRun(cfg, states, steps)
    ensures var s := states[|steps|];
      && WantsLoop(s, KEY) && |s.store[KEY].endpoints| == 1 && s.writer.None?
      && s.store[KEY].endpoints[0].sourceRef == SOURCE && s.store[KEY].endpoints[0].healthPath != ""
      && s.store[KEY].endpoints[0].health == Unknown
      && Expected(s.events, KEY, SOURCE) == Some(Healthy)
  {
    StartIsInit(cfg);
    FoundOne();
    var more, s := LostSteps(cfg);
    states := RunGoesOn(cfg, [START], [], more, s);
    steps := [] + more;
  }
}
