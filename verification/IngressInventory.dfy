/** internal/inventory/ingress.go: one Ingress becomes a flat list of endpoints. */
module IngressInventory {
  import opened Kube
  import opened Backends
  import opened Decimal

  datatype Service = Service(name: string, port: ServicePort)
  datatype IngressPath = IngressPath(path: string, pathType: Option<string>, service: Option<Service>)
  datatype IngressRule = IngressRule(host: string, http: Option<seq<IngressPath>>)
  datatype Ingress = Ingress(
    ref: Key,
    annotations: map<string, string>,
    rules: seq<IngressRule>,
    tls: seq<seq<string>>)

  /** The endpoint one path of one rule stands for. */
  function PathEndpoint(ing: Ingress, host: string, p: IngressPath, key: Key, annotationKey: string): Endpoint {
    Endpoint(
      key, IngressKind, ing.ref, host, p.path,
      (match p.pathType case Some(t) => t case None => ""),
      (match p.service case Some(s) => s.name + ":" + PortText(s.port) case None => ""),
      exists block :: block in ing.tls && host in block,
      Annotation(ing.annotations, annotationKey),
      Unknown)
  }

  function Paths(rule: IngressRule): seq<IngressPath> {
    if rule.http.None? then [] else rule.http.value
  }

  function RuleEndpoints(ing: Ingress, rule: IngressRule, key: Key, annotationKey: string): seq<Endpoint> {
    seq(|Paths(rule)|, i requires 0 <= i < |Paths(rule)| =>
      PathEndpoint(ing, rule.host, Paths(rule)[i], key, annotationKey))
  }

  /** The endpoints of the first `n` rules. */
  function EndpointsUpTo(ing: Ingress, n: nat, key: Key, annotationKey: string): seq<Endpoint>
    requires n <= |ing.rules|
  {
    if n == 0 then []
    else EndpointsUpTo(ing, n - 1, key, annotationKey) + RuleEndpoints(ing, ing.rules[n - 1], key, annotationKey)
  }

  function IngressEndpoints(ing: Ingress, key: Key, annotationKey: string): seq<Endpoint> {
    EndpointsUpTo(ing, |ing.rules|, key, annotationKey)
  }

  method BuildTLSHostSet(ing: Ingress) returns (hosts: map<string, bool>)
    ensures forall h :: h in hosts <==> exists block :: block in ing.tls && h in block
    ensures forall h | h in hosts :: hosts[h]
  {
    hosts := map[];
    for i := 0 to |ing.tls|
      invariant forall h :: h in hosts <==> exists b | 0 <= b < i :: h in ing.tls[b]
      invariant forall h | h in hosts :: hosts[h]
    {
      var block := ing.tls[i];
      for j := 0 to |block|
        invariant forall h :: h in hosts <==> (exists b | 0 <= b < i :: h in ing.tls[b]) || h in block[..j]
        invariant forall h | h in hosts :: hosts[h]
      {
        hosts := hosts[block[j] := true];
      }
      assert block[..|block|] == block;
    }
  }

  method IngressToEndpoints(ing: Ingress, routemapKey: Key, annotationKey: string) returns (endpoints: seq<Endpoint>)
    ensures endpoints == IngressEndpoints(ing, routemapKey, annotationKey)
  {
    var tlsHosts := BuildTLSHostSet(ing);
    var healthPath := Annotation(ing.annotations, annotationKey);
    endpoints := [];
    for r := 0 to |ing.rules|
      invariant endpoints == EndpointsUpTo(ing, r, routemapKey, annotationKey)
    {
      var rule := ing.rules[r];
      if rule.http.None? {
        continue;
      }
      var paths := rule.http.value;
      ghost var before := endpoints;
      ghost var block := RuleEndpoints(ing, rule, routemapKey, annotationKey);
      for i := 0 to |paths|
        invariant endpoints == before + block[..i]
      {
        var p := paths[i];
        var pathType := match p.pathType case Some(t) => t case None => "";
        var ep := Endpoint(
          routemapKey, IngressKind, ing.ref, rule.host, p.path, pathType, "",
          rule.host in tlsHosts && tlsHosts[rule.host], healthPath, Unknown);
        if p.service.Some? {
          var port := PortString(p.service.value.port);
          ep := ep.(backend := p.service.value.name + ":" + port);
        }
        assert ep == block[i];
        endpoints := endpoints + [ep];
      }
    }
  }

  /** How many paths the first `n` rules hold. */
  function Offset(rules: seq<IngressRule>, n: nat): nat
    requires n <= |rules|
  {
    if n == 0 then 0 else Offset(rules, n - 1) + |Paths(rules[n - 1])|
  }

  lemma {:induction false} LengthUpTo(ing: Ingress, n: nat, key: Key, annotationKey: string)
    requires n <= |ing.rules|
    ensures |EndpointsUpTo(ing, n, key, annotationKey)| == Offset(ing.rules, n)
  {
    if n > 0 {
      LengthUpTo(ing, n - 1, key, annotationKey);
    }
  }

  lemma {:induction false} EntryUpTo(ing: Ingress, n: nat, key: Key, annotationKey: string, r: nat, i: nat)
    requires r < n <= |ing.rules| && i < |Paths(ing.rules[r])|
    ensures var eps := EndpointsUpTo(ing, n, key, annotationKey);
      && Offset(ing.rules, r) + i < |eps|
      && eps[Offset(ing.rules, r) + i]
         == PathEndpoint(ing, ing.rules[r].host, Paths(ing.rules[r])[i], key, annotationKey)
  {
    LengthUpTo(ing, n - 1, key, annotationKey);
    if r < n - 1 {
      EntryUpTo(ing, n - 1, key, annotationKey, r, i);
    }
  }

  /** The text of a backend: nothing without a service, else its name, a colon, and the port by name or number. */
  predicate SpellsBackend(text: string, service: Option<Service>) {
    match service
    case None => text == ""
    case Some(s) =>
      && (s.port.name != "" ==> text == s.name + ":" + s.port.name)
      && (s.port.name == "" && s.port.number == 0 ==> text == s.name + ":")
      && (s.port.name == "" && s.port.number != 0 ==> text == s.name + ":" + Printed(s.port.number))
  }

  /** An endpoint stands for a path of a rule of the Ingress: every field, from the Ingress itself. */
  ghost predicate StandsFor(
    ep: Endpoint, ing: Ingress, rule: IngressRule, p: IngressPath, key: Key, annotationKey: string)
  {
    && ep.routemapKey == key && ep.sourceKind == IngressKind && ep.sourceRef == ing.ref && ep.health == Unknown
    && ep.host == rule.host && ep.path == p.path
    && (p.pathType.Some? ==> ep.pathType == p.pathType.value) && (p.pathType.None? ==> ep.pathType == "")
    && (ep.tls <==> exists b | 0 <= b < |ing.tls| :: rule.host in ing.tls[b])
    && LooksUp(ing.annotations, annotationKey, ep.healthPath)
    && SpellsBackend(ep.backend, p.service)
  }

  lemma PathEndpointFields(ing: Ingress, rule: IngressRule, p: IngressPath, key: Key, annotationKey: string)
    ensures StandsFor(PathEndpoint(ing, rule.host, p, key, annotationKey), ing, rule, p, key, annotationKey)
  {
  }

  /**
   * Path `i` of rule `r` sits right after all paths of the earlier rules, and every field of its endpoint is that
   * of the Ingress, the rule or the path; TLS exactly when the host occurs in the host list of some TLS block.
   */
  lemma IngressEntry(ing: Ingress, key: Key, annotationKey: string, r: nat, i: nat)
    requires r < |ing.rules| && ing.rules[r].http.Some? && i < |ing.rules[r].http.value|
    ensures var eps := IngressEndpoints(ing, key, annotationKey);
      var at := Offset(ing.rules, r) + i;
      && at < |eps| == Offset(ing.rules, |ing.rules|)
      && StandsFor(eps[at], ing, ing.rules[r], ing.rules[r].http.value[i], key, annotationKey)
  {
    LengthUpTo(ing, |ing.rules|, key, annotationKey);
    EntryUpTo(ing, |ing.rules|, key, annotationKey, r, i);
    PathEndpointFields(ing, ing.rules[r], ing.rules[r].http.value[i], key, annotationKey);
  }

  /** The offsets count the paths of the earlier rules; a rule without an HTTP block has none. */
  lemma OffsetCounts(rules: seq<IngressRule>, n: nat)
    requires n < |rules|
    ensures Offset(rules, 0) == 0
    ensures rules[n].http.None? ==> Offset(rules, n + 1) == Offset(rules, n)
    ensures rules[n].http.Some? ==> Offset(rules, n + 1) == Offset(rules, n) + |rules[n].http.value|
  {
  }

  /** The backend text of an entry gives service name and port back, for names and ports that can be told apart. */
  lemma EntryBackendReadsBack(text: string, service: Service)
    requires SpellsBackend(text, Some(service))
    ensures ReadBackend(text) == (service.name, PortOf(service.port))
      <==> ColonFree(service.name) && Parse(service.port.name) == None
  {
    assert service.name + ":" + "" == service.name + ":";
    IngressBackendReadsBack(service.name, service.port);
  }

  lemma {:induction false} Locate(rules: seq<IngressRule>, n: nat, at: nat) returns (r: nat, i: nat)
    requires n <= |rules| && at < Offset(rules, n)
    ensures r < n && i < |Paths(rules[r])| && at == Offset(rules, r) + i
  {
    if at < Offset(rules, n - 1) {
      r, i := Locate(rules, n - 1, at);
    } else {
      r, i := n - 1, at - Offset(rules, n - 1);
    }
  }

  /** Nothing else is in the list: every entry comes from some path of a rule with an HTTP block. */
  lemma IngressEntryOrigin(ing: Ingress, key: Key, annotationKey: string, at: nat) returns (r: nat, i: nat)
    requires at < |IngressEndpoints(ing, key, annotationKey)|
    ensures r < |ing.rules| && ing.rules[r].http.Some? && i < |ing.rules[r].http.value|
    ensures at == Offset(ing.rules, r) + i
    ensures StandsFor(
      IngressEndpoints(ing, key, annotationKey)[at], ing, ing.rules[r], ing.rules[r].http.value[i], key, annotationKey)
  {
    LengthUpTo(ing, |ing.rules|, key, annotationKey);
    r, i := Locate(ing.rules, |ing.rules|, at);
    IngressEntry(ing, key, annotationKey, r, i);
  }

  /** All endpoints of one object carry its reference and start without a known health. */
  lemma IngressEndpointsAreFresh(ing: Ingress, key: Key, annotationKey: string)
    ensures forall ep | ep in IngressEndpoints(ing, key, annotationKey) ::
      ep.sourceRef == ing.ref && ep.routemapKey == key && ep.health == Unknown
  {
    var eps := IngressEndpoints(ing, key, annotationKey);
    forall at | 0 <= at < |eps|
      ensures eps[at].sourceRef == ing.ref && eps[at].routemapKey == key && eps[at].health == Unknown
    {
      var r, i := IngressEntryOrigin(ing, key, annotationKey, at);
    }
  }
}
