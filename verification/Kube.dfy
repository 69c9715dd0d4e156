/** The Kubernetes-side values the operator works on, reduced to the fields its logic reads. */
module Kube {

  datatype Option<+T> = None | Some(value: T)

  /** `types.NamespacedName`. */
  datatype Key = Key(ns: string, name: string)

  datatype HealthState = Unknown | Healthy | Unhealthy

  datatype SourceKind = IngressKind | HTTPRouteKind

  /** `inventory.Endpoint`; `LastProbe`, which nothing writes, is not modelled. */
  datatype Endpoint = Endpoint(
    routemapKey: Key,
    sourceKind: SourceKind,
    sourceRef: Key,
    host: string,
    path: string,
    pathType: string,
    backend: string,
    tls: bool,
    healthPath: string,
    health: HealthState)

  type Labels = map<string, string>

  /** A label selector is only a name here; what it selects is a parameter of the operator. */
  type Selector = string

  datatype NamespaceSelector = NamespaceSelector(
    watchAll: bool, names: seq<string>, selector: Option<Selector>)

  datatype HealthCheckSpec = HealthCheckSpec(
    enabled: bool, annotationKey: string, interval: int, timeout: int, expectedStatus: int)

  datatype SecretKeyRef = SecretKeyRef(name: string, key: string)

  datatype AuthSpec = AuthSpec(issuerURL: string, clientID: string, clientSecret: SecretKeyRef, redirectURL: string)

  datatype RoutemapSpec = RoutemapSpec(
    namespaces: NamespaceSelector,
    sources: seq<SourceKind>,
    healthCheck: Option<HealthCheckSpec>,
    auth: Option<AuthSpec>,
    displayName: string)

  /** The Go integer widths that matter to the printer of port numbers. */
  const INT64_MIN: int := -0x8000_0000_0000_0000
  const INT64_MAX: int := 0x7FFF_FFFF_FFFF_FFFF
  type int64 = x: int | INT64_MIN <= x <= INT64_MAX
  type int32 = x: int | -0x8000_0000 <= x <= 0x7FFF_FFFF

  /** `value` is what a Go map lookup of the key gives. */
  predicate LooksUp(annotations: map<string, string>, key: string, value: string) {
    (key in annotations ==> value == annotations[key]) && (key !in annotations ==> value == "")
  }

  /** The value of a Go map lookup: the zero value when the key is absent. */
  function Annotation(annotations: map<string, string>, key: string): string {
    if key in annotations then annotations[key] else ""
  }
}
