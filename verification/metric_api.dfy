/** The parts of the MetricAccess resource that the remote-write controller, the
    collectors and the tenant manager read, and the samples they move. */
module MetricApi {
  datatype Option<+T> = None | Some(value: T)

  type Labels = map<string, string>

  /** The label that holds a metric's name. */
  const NAME := "__name__"

  /** Reading a label; a missing one reads as empty. */
  function Get(labels: Labels, k: string): string {
    if k in labels then labels[k] else ""
  }

  datatype RelabelRule = RelabelRule(
    sourceLabels: seq<string>,
    separator: string,
    regex: string,
    targetLabel: string,
    replacement: string,
    action: string)

  datatype PrometheusTarget = PrometheusTarget(
    serviceName: string,
    servicePort: int,
    replicas: int,
    statefulSetName: string,
    targetNamespace: string)

  datatype RemoteWriteSpec = RemoteWriteSpec(
    enabled: bool,
    interval: int,
    targetType: string,
    prometheus: Option<PrometheusTarget>,
    endpoint: Option<string>,
    extraLabels: Labels,
    honorLabels: bool,
    relabelings: seq<RelabelRule>)

  datatype MetricAccess = MetricAccess(
    namespace: string,
    name: string,
    metrics: seq<string>,
    labelSelectors: Labels,
    metricIsolation: bool,
    remoteWrite: Option<RemoteWriteSpec>)

  /** One sample. The value is a real (no NaN); the timestamp is in nanoseconds. */
  datatype Metric = Metric(name: string, labels: Labels, value: real, timestamp: int)

  type Key = string

  /** The job key and tenant id of a resource: namespace/name. */
  function KeyOf(ma: MetricAccess): Key {
    ma.namespace + "/" + ma.name
  }

  /** Remote write is configured and switched on. */
  predicate WantsJob(ma: MetricAccess) {
    ma.remoteWrite.Some? && ma.remoteWrite.value.enabled
  }

  predicate SupportedType(targetType: string) {
    targetType == "prometheus" || targetType == "pushgateway" || targetType == "remote_write"
  }

  /** A resource for which a job can be created. */
  predicate Collectable(ma: MetricAccess) {
    WantsJob(ma) && SupportedType(ma.remoteWrite.value.targetType)
  }

  predicate NoDuplicates<T(==)>(xs: seq<T>) {
    forall i, j :: 0 <= i < j < |xs| ==> xs[i] != xs[j]
  }

  /** No two resources share a key. */
  predicate DistinctKeys(items: seq<MetricAccess>) {
    forall i, j :: 0 <= i < j < |items| ==> KeyOf(items[i]) != KeyOf(items[j])
  }

  /** One more element of a list. */
  lemma OneMore<T>(xs: seq<T>, n: nat)
    requires n < |xs|
    ensures xs[..n + 1] == xs[..n] + [xs[n]]
  {}
}
