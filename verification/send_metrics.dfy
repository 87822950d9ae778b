/** Sending a collection: target selection, batches, and what a success delivers. */
module SendMetrics {
  import opened MetricApi
  import opened Relabel
  import opened Batches
  import opened Series
  import opened Delivery

  // ---------------------------------------------------------------------------
  // Replica URLs

  function Digit(d: nat): char
    requires d < 10
  {
    ('0' as int + d) as char
  }

  /** The decimal form of a number. */
  function Decimal(n: int): string
    decreases if n < 0 then 1 - n else n
  {
    if n < 0 then "-" + Decimal(-n)
    else if n < 10 then [Digit(n)]
    else Decimal(n / 10) + [Digit(n % 10)]
  }

  lemma {:induction false} DecimalIsInjective(a: nat, b: nat)
    requires Decimal(a) == Decimal(b)
    ensures a == b
  {
    var x, y := Decimal(a), Decimal(b);
    assert x[|x| - 1] == Digit(a % 10) && y[|y| - 1] == Digit(b % 10);
    assert a >= 10 ==> |Decimal(a / 10)| > 0;
    assert b >= 10 ==> |Decimal(b / 10)| > 0;
    if a >= 10 && b >= 10 {
      assert Decimal(a / 10) == x[..|x| - 1] && Decimal(b / 10) == y[..|y| - 1];
      DecimalIsInjective(a / 10, b / 10);
    }
  }

  function TargetNamespace(target: PrometheusTarget, crNamespace: string): string {
    if target.targetNamespace != "" then target.targetNamespace else crNamespace
  }

  function UrlTail(target: PrometheusTarget, ns: string): string {
    target.serviceName + "." + ns + ".svc.cluster.local:" +
    Decimal(if target.servicePort == 0 then 9090 else target.servicePort) + "/api/v1/write"
  }

  function ReplicaUrl(target: PrometheusTarget, ns: string, i: nat): string {
    "http://" + target.statefulSetName + "-" + Decimal(i) + "." + UrlTail(target, ns)
  }

  /** One URL per replica, or the service if there are no replicas to address. */
  function PrometheusUrls(target: PrometheusTarget, ns: string): seq<string> {
    if target.replicas > 0 && target.statefulSetName != "" then
      seq(target.replicas, i requires 0 <= i < target.replicas => ReplicaUrl(target, ns, i))
    else
      ["http://" + UrlTail(target, ns)]
  }

  method BuildPrometheusURLs(target: PrometheusTarget, targetNS: string) returns (urls: seq<string>)
    ensures urls == PrometheusUrls(target, targetNS)
  {
    var port := if target.servicePort == 0 then 9090 else target.servicePort;
    var service := target.serviceName + "." + targetNS + ".svc.cluster.local:" + Decimal(port) + "/api/v1/write";
    urls := [];
    if target.replicas > 0 && target.statefulSetName != "" {
      for i := 0 to target.replicas
        invariant urls == PrometheusUrls(target, targetNS)[..i]
      {
        urls := urls + ["http://" + target.statefulSetName + "-" + Decimal(i) + "." + service];
      }
    } else {
      urls := ["http://" + service];
    }
  }

  predicate IsDigit(c: char) {
    '0' <= c <= '9'
  }

  /** The number that a string of digits stands for. */
  function Value(s: string): int {
    if s == "" then 0 else Value(s[..|s| - 1]) * 10 + (s[|s| - 1] as int - '0' as int)
  }

  /** The decimal form of a number is its digits, without a leading zero. */
  lemma {:induction false} DecimalDenotes(n: nat)
    ensures Decimal(n) != "" && Value(Decimal(n)) == n
    ensures forall c :: c in Decimal(n) ==> IsDigit(c)
    ensures Decimal(n)[0] == '0' ==> n == 0 && Decimal(n) == "0"
  {
    var s := Decimal(n);
    if n >= 10 {
      DecimalDenotes(n / 10);
      assert s[..|s| - 1] == Decimal(n / 10) && s[|s| - 1] == Digit(n % 10);
    } else {
      assert s[..0] == "";
    }
  }

  lemma DecimalOfPort()
    ensures Decimal(9090) == "9090"
  {
    assert Decimal(90) == Decimal(9) + [Digit(0)];
    assert Decimal(909) == Decimal(90) + [Digit(9)];
  }

  /** The URLs written out: those of the replicas of the stateful set, numbered from 0, or
      that of the service; in the target's own namespace or else the resource's, at port
      9090 if none is given. */
  lemma PrometheusUrlsAre(target: PrometheusTarget, crNamespace: string)
    ensures var ns := if target.targetNamespace == "" then crNamespace else target.targetNamespace;
      var port := if target.servicePort == 0 then "9090" else Decimal(target.servicePort);
      var service := target.serviceName + "." + ns + ".svc.cluster.local:" + port + "/api/v1/write";
      var urls := PrometheusUrls(target, TargetNamespace(target, crNamespace));
      if target.replicas > 0 && target.statefulSetName != "" then
        |urls| == target.replicas &&
        forall i :: 0 <= i < |urls| ==>
          urls[i] == "http://" + target.statefulSetName + "-" + Decimal(i) + "." + service
      else
        urls == ["http://" + service]
  {
    DecimalOfPort();
  }

  lemma CancelAffixes(head: string, a: string, b: string, tail: string)
    requires head + a + tail == head + b + tail
    ensures a == b
  {
    var x, y := head + a + tail, head + b + tail;
    assert |a| == |b|;
    assert a == x[|head|..|head| + |a|];
    assert b == y[|head|..|head| + |b|];
  }

  /** Every replica has a URL of its own. */
  lemma ReplicaUrlsAreDistinct(target: PrometheusTarget, ns: string)
    ensures NoDuplicates(PrometheusUrls(target, ns))
  {
    var urls := PrometheusUrls(target, ns);
    forall i, j | 0 <= i < j < |urls|
      ensures urls[i] != urls[j]
    {
      var head, tail := "http://" + target.statefulSetName + "-", "." + UrlTail(target, ns);
      if urls[i] == urls[j] {
        assert urls[i] == head + Decimal(i) + tail;
        assert urls[j] == head + Decimal(j) + tail;
        CancelAffixes(head, Decimal(i), Decimal(j), tail);
        DecimalIsInjective(i, j);
      }
    }
  }

  // ---------------------------------------------------------------------------
  // Sending

  predicate Sendable(ma: MetricAccess) {
    ma.remoteWrite.Some? && SupportedType(ma.remoteWrite.value.targetType)
  }

  /** Where a resource's metrics are posted, if it says. */
  function TargetUrls(ma: MetricAccess): Option<seq<string>>
    requires ma.remoteWrite.Some?
  {
    var rw := ma.remoteWrite.value;
    if rw.targetType == "prometheus" && rw.prometheus.Some? then
      Some(PrometheusUrls(rw.prometheus.value, TargetNamespace(rw.prometheus.value, ma.namespace)))
    else if rw.targetType == "remote_write" && rw.endpoint.Some? then
      Some([rw.endpoint.value])
    else None
  }

  /** A Prometheus target has its URLs, a remote-write endpoint the one it is given; without
      the matching configuration, and for a Pushgateway, there are none. */
  lemma TargetUrlsAre(ma: MetricAccess)
    requires ma.remoteWrite.Some?
    ensures var rw := ma.remoteWrite.value;
      match rw.targetType
      case "prometheus" =>
        if rw.prometheus.None? then TargetUrls(ma) == None
        else TargetUrls(ma) == Some(PrometheusUrls(rw.prometheus.value,
          if rw.prometheus.value.targetNamespace == "" then ma.namespace else rw.prometheus.value.targetNamespace))
      case "remote_write" =>
        if rw.endpoint.None? then TargetUrls(ma) == None else TargetUrls(ma) == Some([rw.endpoint.value])
      case _ => TargetUrls(ma) == None
  {}

  lemma TargetUrlsAreDistinct(ma: MetricAccess)
    requires ma.remoteWrite.Some? && TargetUrls(ma).Some?
    ensures NoDuplicates(TargetUrls(ma).value)
  {
    var rw := ma.remoteWrite.value;
    if rw.targetType == "prometheus" {
      ReplicaUrlsAreDistinct(rw.prometheus.value, TargetNamespace(rw.prometheus.value, ma.namespace));
    }
  }

  /** The POSTs made for one batch, and the payload they carried. */
  datatype Shipment = Shipment(sent: seq<Post>, payload: seq<TimeSeries>)

  /** Every URL was tried with the batch, relabeled and with the extra labels merged in,
      unless it cannot be encoded. */
  ghost predicate Shipped(wire: Wire, re: Engine, rw: RemoteWriteSpec, urls: seq<string>,
                          batch: seq<Metric>, s: Shipment) {
    && AreSeriesOf(s.payload, Relabeled(re, batch, rw.relabelings), rw.extraLabels, rw.honorLabels)
    && if wire.encodes(s.payload) then
         forall i :: 0 <= i < |urls| ==> Tried(wire.wellFormed, To(s.sent, urls[i]), urls[i], s.payload)
       else s.sent == []
  }

  ghost predicate AllSucceeded(urls: seq<string>, sent: seq<Post>) {
    forall i :: 0 <= i < |urls| ==> Succeeded(To(sent, urls[i]))
  }

  /** What the Send of one batch established. */
  ghost predicate OneShipped(wire: Wire, re: Engine, ma: MetricAccess, batch: seq<Metric>, s: Shipment)
    requires ma.remoteWrite.Some?
  {
    match TargetUrls(ma)
    case None => s.sent == []
    case Some(urls) => Shipped(wire, re, ma.remoteWrite.value, urls, batch, s)
  }

  /** The batch was accepted at every URL; without URLs, only the Pushgateway stub accepts. */
  ghost predicate OneAccepted(ma: MetricAccess, s: Shipment)
    requires ma.remoteWrite.Some?
  {
    match TargetUrls(ma)
    case None => ma.remoteWrite.value.targetType == "pushgateway"
    case Some(urls) => AllSucceeded(urls, s.sent)
  }

  lemma AllSucceededIff(urls: seq<string>, sent: seq<Post>)
    ensures AllSucceeded(urls, sent) <==> forall i :: 0 <= i < |urls| ==> EndedWell(To(sent, urls[i]))
  {
    forall i | 0 <= i < |urls|
      ensures Succeeded(To(sent, urls[i])) <==> EndedWell(To(sent, urls[i]))
    {
      SucceededIff(To(sent, urls[i]));
    }
  }

  /** A Pushgateway accepts without a POST; any other target has to be configured, and then
      the last POST to each of its URLs has to have been answered from 200 to 299. */
  lemma OneAcceptedIff(ma: MetricAccess, s: Shipment)
    requires ma.remoteWrite.Some?
    ensures OneAccepted(ma, s) <==>
      if TargetUrls(ma).None? then ma.remoteWrite.value.targetType == "pushgateway"
      else
        var urls := TargetUrls(ma).value;
        forall i :: 0 <= i < |urls| ==> EndedWell(To(s.sent, urls[i]))
  {
    if TargetUrls(ma).Some? {
      AllSucceededIff(TargetUrls(ma).value, s.sent);
    }
  }

  lemma OwnPosts(posts: seq<Post>, url: string)
    requires forall i :: 0 <= i < |posts| ==> posts[i].url == url
    ensures To(posts, url) == posts
  {}

  /** The Send of the three collectors; the Pushgateway one is a stub that does nothing. */
  method Send(net: Network, re: Engine, ma: MetricAccess, metrics: seq<Metric>) returns (ok: bool, ghost s: Shipment)
    requires Sendable(ma)
    modifies net
    ensures net.log == old(net.log) + s.sent
    ensures OneShipped(net.wire, re, ma, metrics, s)
    ensures ok <==> OneAccepted(ma, s)
    ensures ma.remoteWrite.value.targetType == "pushgateway" ==> ok && s.sent == []
  {
    var rw := ma.remoteWrite.value;
    s := Shipment([], []);
    if rw.targetType == "pushgateway" {
      return true, s;
    }
    if if rw.targetType == "prometheus" then rw.prometheus.None? else rw.endpoint.None? {
      return false, s;
    }
    TargetUrlsAreDistinct(ma);
    var relabeled := ApplyMetricRelabelings(re, metrics, rw.relabelings);
    var payload := BuildTimeseries(relabeled, rw.extraLabels, rw.honorLabels);
    if !net.wire.encodes(payload) {
      s := Shipment([], payload);
      assert !Succeeded(To(s.sent, TargetUrls(ma).value[0]));
      return false, s;
    }
    ghost var sent;
    if rw.targetType == "prometheus" {
      var urls := BuildPrometheusURLs(rw.prometheus.value, TargetNamespace(rw.prometheus.value, ma.namespace));
      ok, sent := FanOut(net, urls, payload);
    } else {
      ok, sent := SendRemoteWrite(net, rw.endpoint.value, payload);
      OwnPosts(sent, rw.endpoint.value);
      assert AllSucceeded([rw.endpoint.value], sent) <==> Succeeded(To(sent, [rw.endpoint.value][0]));
    }
    s := Shipment(sent, payload);
  }

  function SentIn(ships: seq<Shipment>): (r: seq<seq<Post>>)
    ensures |r| == |ships|
  {
    seq(|ships|, i requires 0 <= i < |ships| => ships[i].sent)
  }

  function PayloadsIn(ships: seq<Shipment>): (r: seq<seq<TimeSeries>>)
    ensures |r| == |ships|
  {
    seq(|ships|, i requires 0 <= i < |ships| => ships[i].payload)
  }

  lemma {:induction false} FlattenSnoc<T>(parts: seq<seq<T>>, part: seq<T>)
    ensures Flatten(parts + [part]) == Flatten(parts) + part
    decreases |parts|
  {
    if parts == [] {
      assert Flatten([part]) == part + Flatten<T>([]);
    } else {
      FlattenSnoc(parts[1..], part);
      assert (parts + [part])[1..] == parts[1..] + [part];
    }
  }

  /** What became of the batches of a collection. */
  ghost predicate AllShipped(wire: Wire, re: Engine, ma: MetricAccess,
                             batches: seq<seq<Metric>>, ships: seq<Shipment>)
    requires ma.remoteWrite.Some?
  {
    && |ships| == |batches|
    && forall b :: 0 <= b < |ships| ==> OneShipped(wire, re, ma, batches[b], ships[b])
  }

  ghost predicate AllAccepted(ma: MetricAccess, ships: seq<Shipment>)
    requires ma.remoteWrite.Some?
  {
    forall b :: 0 <= b < |ships| ==> OneAccepted(ma, ships[b])
  }

  lemma OneMoreShipped(wire: Wire, re: Engine, ma: MetricAccess,
                       batches: seq<seq<Metric>>, ships: seq<Shipment>, batch: seq<Metric>, s: Shipment)
    requires ma.remoteWrite.Some? && AllShipped(wire, re, ma, batches, ships)
    requires OneShipped(wire, re, ma, batch, s)
    ensures AllShipped(wire, re, ma, batches + [batch], ships + [s])
    ensures Flatten(SentIn(ships + [s])) == Flatten(SentIn(ships)) + s.sent
    ensures AllAccepted(ma, ships + [s]) <==> AllAccepted(ma, ships) && OneAccepted(ma, s)
  {
    FlattenSnoc(SentIn(ships), s.sent);
    assert SentIn(ships + [s]) == SentIn(ships) + [s.sent];
    forall b | 0 <= b < |ships + [s]|
      ensures OneShipped(wire, re, ma, (batches + [batch])[b], (ships + [s])[b])
    {
      if b < |ships| {
        assert OneShipped(wire, re, ma, batches[b], ships[b]);
      }
    }
    if AllAccepted(ma, ships + [s]) {
      assert OneAccepted(ma, (ships + [s])[|ships|]);
      assert forall b :: 0 <= b < |ships| ==> (ships + [s])[b] == ships[b];
    }
  }

  /** Sends the next batch. */
  method SendNext(net: Network, re: Engine, ma: MetricAccess, ghost batches: seq<seq<Metric>>, batch: seq<Metric>,
                  ghost ships: seq<Shipment>)
    returns (ok: bool, ghost ships': seq<Shipment>)
    requires Sendable(ma)
    requires AllShipped(net.wire, re, ma, batches, ships)
    modifies net
    ensures AllShipped(net.wire, re, ma, batches + [batch], ships')
    ensures AllAccepted(ma, ships') <==> AllAccepted(ma, ships) && ok
    ensures exists sent :: net.log == old(net.log) + sent && Flatten(SentIn(ships')) == Flatten(SentIn(ships)) + sent
  {
    ghost var s;
    ok, s := Send(net, re, ma, batch);
    OneMoreShipped(net.wire, re, ma, batches, ships, batch, s);
    ships' := ships + [s];
  }

  /** Sends all batches, also after one has failed. */
  method SendBatches(net: Network, re: Engine, ma: MetricAccess, batches: seq<seq<Metric>>)
    returns (errs: nat, ghost ships: seq<Shipment>)
    requires Sendable(ma)
    modifies net
    ensures net.log == old(net.log) + Flatten(SentIn(ships))
    ensures AllShipped(net.wire, re, ma, batches, ships)
    ensures errs == 0 <==> AllAccepted(ma, ships)
  {
    ships, errs := [], 0;
    for b := 0 to |batches|
      invariant net.log == old(net.log) + Flatten(SentIn(ships))
      invariant AllShipped(net.wire, re, ma, batches[..b], ships)
      invariant errs == 0 <==> AllAccepted(ma, ships)
    {
      var sent;
      sent, ships := SendNext(net, re, ma, batches[..b], batches[b], ships);
      OneMore(batches, b);
      if !sent {
        errs := errs + 1;
      }
    }
    assert batches[..|batches|] == batches;
  }

  /** Reports success iff every batch was accepted at every URL; there is at least one
      batch, so a target without a configuration never succeeds. */
  method SendAll(net: Network, re: Engine, ma: MetricAccess, metrics: seq<Metric>, batchSize: int)
    returns (ok: bool, ghost ships: seq<Shipment>)
    requires ma.remoteWrite.Some?
    modifies net
    ensures net.log == old(net.log) + Flatten(SentIn(ships))
    ensures SupportedType(ma.remoteWrite.value.targetType) ==>
      AllShipped(net.wire, re, ma, Split(metrics, batchSize), ships) && (ok <==> AllAccepted(ma, ships))
    ensures SupportedType(ma.remoteWrite.value.targetType) ==> ships != []
    ensures !SupportedType(ma.remoteWrite.value.targetType) ==> !ok && ships == []
  {
    if !SupportedType(ma.remoteWrite.value.targetType) {
      return false, [];
    }
    var batches := SplitIntoBatches(metrics, batchSize);
    var errs: nat;
    errs, ships := SendBatches(net, re, ma, batches);
    ok := errs == 0;
  }

  // ---------------------------------------------------------------------------
  // What a success delivers

  lemma ShipsTail(ships: seq<Shipment>)
    requires ships != []
    ensures Flatten(SentIn(ships)) == ships[0].sent + Flatten(SentIn(ships[1..]))
    ensures PayloadsIn(ships) == [ships[0].payload] + PayloadsIn(ships[1..])
  {
    assert SentIn(ships)[1..] == SentIn(ships[1..]);
  }

  lemma {:induction false} AcceptedInTurn(wellFormed: string -> bool, ships: seq<Shipment>, url: string)
    requires forall b :: 0 <= b < |ships| ==>
      Tried(wellFormed, To(ships[b].sent, url), url, ships[b].payload) && Succeeded(To(ships[b].sent, url))
    ensures AcceptedBy(Flatten(SentIn(ships)), url) == PayloadsIn(ships)
    decreases |ships|
  {
    if ships != [] {
      AcceptedInTurn(wellFormed, ships[1..], url);
      ShipsTail(ships);
      AcceptedSplit(ships[0].sent, Flatten(SentIn(ships[1..])), url);
      SuccessDeliversOnce(wellFormed, ships[0].sent, url, ships[0].payload);
    }
  }

  /** After a successful send, each URL has accepted exactly the payloads of the batches,
      once each and in order, after at most three POSTs per batch; together they are the
      series of the whole relabeled collection, up to the order of labels. */
  lemma SuccessDelivers(wire: Wire, re: Engine, ma: MetricAccess, metrics: seq<Metric>, batchSize: int,
                        ships: seq<Shipment>, u: nat)
    requires ma.remoteWrite.Some? && TargetUrls(ma).Some? && u < |TargetUrls(ma).value|
    requires AllShipped(wire, re, ma, Split(metrics, batchSize), ships) && AllAccepted(ma, ships)
    ensures var rw, url := ma.remoteWrite.value, TargetUrls(ma).value[u];
      && AcceptedBy(Flatten(SentIn(ships)), url) == PayloadsIn(ships)
      && |PayloadsIn(ships)| == |Split(metrics, batchSize)|
      && (forall b :: 0 <= b < |ships| ==> 1 <= |To(ships[b].sent, url)| <= 3)
      && AreSeriesOf(Flatten(PayloadsIn(ships)), Relabeled(re, metrics, rw.relabelings), rw.extraLabels, rw.honorLabels)
  {
    var rw, urls := ma.remoteWrite.value, TargetUrls(ma).value;
    var batches := Split(metrics, batchSize);
    var relabeled := RelabelBatches(re, batches, rw.relabelings);
    forall b | 0 <= b < |ships|
      ensures Tried(wire.wellFormed, To(ships[b].sent, urls[u]), urls[u], ships[b].payload)
      ensures Succeeded(To(ships[b].sent, urls[u]))
      ensures AreSeriesOf(PayloadsIn(ships)[b], relabeled[b], rw.extraLabels, rw.honorLabels)
    {
      assert OneShipped(wire, re, ma, batches[b], ships[b]);
      assert OneAccepted(ma, ships[b]);
    }
    AcceptedInTurn(wire.wellFormed, ships, urls[u]);
    PayloadsConcatenate(PayloadsIn(ships), relabeled, rw.extraLabels, rw.honorLabels);
    BatchwiseRelabeling(re, batches, rw.relabelings);
    SplitFlattens(metrics, batchSize);
  }

  lemma {:induction false} ToIsPart(posts: seq<Post>, url: string, p: Post)
    requires p in To(posts, url)
    ensures p in posts && p.url == url
  {
    if p !in To(posts[..|posts| - 1], url) {
      assert p == posts[|posts| - 1];
    } else {
      ToIsPart(posts[..|posts| - 1], url, p);
    }
  }

  lemma {:induction false} InFlattened<T>(parts: seq<seq<T>>, b: nat, x: T)
    requires b < |parts| && x in parts[b]
    ensures x in Flatten(parts)
  {
    if b > 0 {
      InFlattened(parts[1..], b - 1, x);
    }
  }

  /** A failed batch leaves the others attempted: for every batch that can be encoded and
      every URL that makes requests, the network has seen a POST of the batch to the URL. */
  lemma AllBatchesAttempted(wire: Wire, re: Engine, ma: MetricAccess, metrics: seq<Metric>,
                            batchSize: int, ships: seq<Shipment>, u: nat, b: nat)
    requires ma.remoteWrite.Some? && TargetUrls(ma).Some? && u < |TargetUrls(ma).value|
    requires AllShipped(wire, re, ma, Split(metrics, batchSize), ships)
    requires b < |Split(metrics, batchSize)| && wire.wellFormed(TargetUrls(ma).value[u])
    ensures var rw, url := ma.remoteWrite.value, TargetUrls(ma).value[u];
      var relabeled := Relabeled(re, Split(metrics, batchSize)[b], rw.relabelings);
      if wire.encodes(ships[b].payload) then
        exists p :: p in Flatten(SentIn(ships)) && p.url == url &&
          AreSeriesOf(p.payload, relabeled, rw.extraLabels, rw.honorLabels)
      else
        ships[b].sent == []
  {
    var url := TargetUrls(ma).value[u];
    assert OneShipped(wire, re, ma, Split(metrics, batchSize)[b], ships[b]);
    if wire.encodes(ships[b].payload) {
      var p := To(ships[b].sent, url)[0];
      ToIsPart(ships[b].sent, url, p);
      InFlattened(SentIn(ships), b, p);
    }
  }
}
