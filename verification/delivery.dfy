/** Sending batches to every replica of a target, with retries. */
module Delivery {
  import opened MetricApi
  import opened Series

  datatype Reply = TransportError | Status(code: int)
  {
    predicate Accepted() {
      Status? && Quotient(code, 100) == 2
    }
  }

  /** One POST of a payload, with what came back. */
  datatype Post = Post(url: string, payload: seq<TimeSeries>, reply: Reply)

  const ATTEMPTS := 3

  /** For which URLs a request can be made, and which payloads can be encoded. */
  datatype Wire = Wire(wellFormed: string -> bool, encodes: seq<TimeSeries> -> bool)

  /** The outside world: it answers each POST as it likes, knowing all earlier ones, and
      keeps a record of them. */
  class Network {
    var log: seq<Post>
    const answer: (seq<Post>, string) -> Reply
    const wire: Wire

    constructor (answer: (seq<Post>, string) -> Reply, wire: Wire)
      ensures log == [] && this.answer == answer && this.wire == wire
    {
      log := [];
      this.answer := answer;
      this.wire := wire;
    }

    method Do(url: string, payload: seq<TimeSeries>) returns (r: Reply)
      modifies this
      ensures log == old(log) + [Post(url, payload, r)]
    {
      r := answer(log, url);
      log := log + [Post(url, payload, r)];
    }
  }

  // ---------------------------------------------------------------------------
  // Reading a record of POSTs

  /** The POSTs to one URL. */
  function To(posts: seq<Post>, url: string): seq<Post> {
    if posts == [] then []
    else
      var p := posts[|posts| - 1];
      To(posts[..|posts| - 1], url) + (if p.url == url then [p] else [])
  }

  /** The payloads a URL accepted, in order. */
  function AcceptedBy(posts: seq<Post>, url: string): seq<seq<TimeSeries>> {
    if posts == [] then []
    else
      var p := posts[|posts| - 1];
      AcceptedBy(posts[..|posts| - 1], url) +
      (if p.url == url && p.reply.Accepted() then [p.payload] else [])
  }

  predicate Succeeded(posts: seq<Post>) {
    posts != [] && posts[|posts| - 1].reply.Accepted()
  }

  /** posts all carry the payload to the URL, and none but possibly the last was accepted. */
  predicate Trying(posts: seq<Post>, url: string, payload: seq<TimeSeries>) {
    && |posts| <= ATTEMPTS
    && (forall i :: 0 <= i < |posts| ==> posts[i].url == url && posts[i].payload == payload)
    && (forall i :: 0 <= i < |posts| - 1 ==> !posts[i].reply.Accepted())
  }

  /** A finished retry loop: it ended in an accepted POST, or used up its attempts, or
      could not even make a request. */
  ghost predicate Tried(wellFormed: string -> bool, posts: seq<Post>, url: string, payload: seq<TimeSeries>) {
    && Trying(posts, url, payload)
    && if wellFormed(url) then Succeeded(posts) || |posts| == ATTEMPTS else posts == []
  }

  /** The accepted codes are those from 200 to 299. */
  lemma AcceptedIff(r: Reply)
    ensures r.Accepted() <==> r.Status? && 200 <= r.code <= 299
  {}

  /** What a finished retry loop has posted, in figures: nothing to a URL that makes no
      request; else at most three POSTs of the payload, each but the last refused or lost,
      and fewer than three only if the last one was accepted. */
  lemma TriedIff(wellFormed: string -> bool, posts: seq<Post>, url: string, payload: seq<TimeSeries>)
    ensures Tried(wellFormed, posts, url, payload) <==>
      if !wellFormed(url) then posts == []
      else
        && 1 <= |posts| <= 3
        && (forall i :: 0 <= i < |posts| ==> posts[i].url == url && posts[i].payload == payload)
        && (forall i :: 0 <= i < |posts| - 1 ==> !(posts[i].reply.Status? && 200 <= posts[i].reply.code <= 299))
        && (|posts| < 3 ==> var r := posts[|posts| - 1].reply; r.Status? && 200 <= r.code <= 299)
  {
    forall i | 0 <= i < |posts|
      ensures posts[i].reply.Accepted() <==> posts[i].reply.Status? && 200 <= posts[i].reply.code <= 299
    {
      AcceptedIff(posts[i].reply);
    }
  }

  /** The last POST was answered with a status from 200 to 299. */
  predicate EndedWell(posts: seq<Post>) {
    posts != [] && var r := posts[|posts| - 1].reply; r.Status? && 200 <= r.code <= 299
  }

  lemma SucceededIff(posts: seq<Post>)
    ensures Succeeded(posts) <==> EndedWell(posts)
  {
    if posts != [] {
      AcceptedIff(posts[|posts| - 1].reply);
    }
  }

  /** What a URL accepted of a single POST. */
  lemma AcceptedOfOne(p: Post, url: string)
    ensures AcceptedBy([p], url) ==
      if p.url == url && p.reply.Status? && 200 <= p.reply.code <= 299 then [p.payload] else []
  {
    AcceptedIff(p.reply);
  }

  lemma ToSnoc(posts: seq<Post>, p: Post, url: string)
    ensures To(posts + [p], url) == To(posts, url) + (if p.url == url then [p] else [])
  {
    assert (posts + [p])[..|posts|] == posts;
  }

  lemma {:induction false} AcceptedSplit(a: seq<Post>, b: seq<Post>, url: string)
    ensures AcceptedBy(a + b, url) == AcceptedBy(a, url) + AcceptedBy(b, url)
    decreases |b|
  {
    if b == [] {
      assert a + b == a;
    } else {
      AcceptedSplit(a, b[..|b| - 1], url);
      assert (a + b)[..|a + b| - 1] == a + b[..|b| - 1];
    }
  }

  lemma {:induction false} AcceptedAmongOwn(posts: seq<Post>, url: string)
    ensures AcceptedBy(posts, url) == AcceptedBy(To(posts, url), url)
  {
    if posts != [] {
      var init, p := posts[..|posts| - 1], posts[|posts| - 1];
      AcceptedAmongOwn(init, url);
      assert posts == init + [p];
      AcceptedSplit(init, [p], url);
      if p.url == url {
        AcceptedSplit(To(init, url), [p], url);
        assert To(posts, url) == To(init, url) + [p];
      } else {
        assert To(posts, url) == To(init, url);
        assert AcceptedBy(posts, url) == AcceptedBy(init, url);
      }
    }
  }

  lemma {:induction false} NothingAccepted(posts: seq<Post>, url: string)
    requires forall i :: 0 <= i < |posts| ==> !posts[i].reply.Accepted()
    ensures AcceptedBy(posts, url) == []
  {
    if posts != [] {
      NothingAccepted(posts[..|posts| - 1], url);
    }
  }

  /** A successful retry loop delivered the payload exactly once. */
  lemma SuccessDeliversOnce(wellFormed: string -> bool, posts: seq<Post>, url: string, payload: seq<TimeSeries>)
    requires Tried(wellFormed, To(posts, url), url, payload)
    ensures AcceptedBy(posts, url) == if Succeeded(To(posts, url)) then [payload] else []
  {
    var own := To(posts, url);
    AcceptedAmongOwn(posts, url);
    if own != [] {
      var n := |own| - 1;
      NothingAccepted(own[..n], url);
    }
  }

  // ---------------------------------------------------------------------------
  // Sending one payload

  /** The retry loop. */
  method SendRemoteWrite(net: Network, url: string, payload: seq<TimeSeries>) returns (ok: bool, ghost sent: seq<Post>)
    modifies net
    ensures net.log == old(net.log) + sent
    ensures Tried(net.wire.wellFormed, sent, url, payload)
    ensures ok <==> Succeeded(sent)
    ensures |sent| <= 3 && (!ok && net.wire.wellFormed(url) ==> |sent| == 3)
    ensures ok <==> EndedWell(sent)
  {
    ok, sent := false, [];
    var retries := 0;
    while retries < ATTEMPTS
      invariant 0 <= retries == |sent| <= ATTEMPTS
      invariant net.log == old(net.log) + sent
      invariant Trying(sent, url, payload)
      invariant retries > 0 ==> net.wire.wellFormed(url) && !Succeeded(sent)
    {
      if !net.wire.wellFormed(url) {
        return false, sent;
      }
      var r := net.Do(url, payload);
      sent := sent + [Post(url, payload, r)];
      retries := retries + 1;
      if r.Accepted() {
        return true, sent;
      }
    }
  }

  /** One of several retry loops that run at once. */
  datatype Worker = Running(left: nat) | Done(ok: bool)
  {
    function Cost(): nat {
      match this
      case Running(left) => left + 1
      case Done(_) => 0
    }

    /** After one more POST. */
    function After(r: Reply): Worker
      requires Running? && left > 0
    {
      if r.Accepted() then Done(true) else if left == 1 then Done(false) else Running(left - 1)
    }
  }

  function Cost(workers: seq<Worker>): nat {
    if workers == [] then 0 else workers[0].Cost() + Cost(workers[1..])
  }

  lemma {:induction false} CostUpdate(workers: seq<Worker>, i: nat, w: Worker)
    requires i < |workers|
    ensures Cost(workers[i := w]) == Cost(workers) - workers[i].Cost() + w.Cost()
  {
    if i > 0 {
      CostUpdate(workers[1..], i - 1, w);
      assert workers[i := w][1..] == workers[1..][i - 1 := w];
    }
  }

  /** own are the POSTs of a loop so far. */
  ghost predicate WorkerOk(wellFormed: string -> bool, url: string, payload: seq<TimeSeries>, own: seq<Post>,
                           w: Worker) {
    && Trying(own, url, payload)
    && match w
       case Running(left) => left > 0 && left + |own| == ATTEMPTS && !Succeeded(own) && (wellFormed(url) || own == [])
       case Done(ok) => Tried(wellFormed, own, url, payload) && (ok <==> Succeeded(own))
  }

  lemma WorkerPosts(wellFormed: string -> bool, url: string, payload: seq<TimeSeries>, own: seq<Post>,
                    w: Worker, r: Reply)
    requires WorkerOk(wellFormed, url, payload, own, w) && w.Running? && wellFormed(url)
    ensures WorkerOk(wellFormed, url, payload, own + [Post(url, payload, r)], w.After(r))
  {}

  ghost predicate WorkersOk(wellFormed: string -> bool, urls: seq<string>, payload: seq<TimeSeries>,
                            sent: seq<Post>, workers: seq<Worker>) {
    && |workers| == |urls|
    && forall i :: 0 <= i < |urls| ==> WorkerOk(wellFormed, urls[i], payload, To(sent, urls[i]), workers[i])
  }

  /** Loop i posts once. */
  lemma WorkersStep(wellFormed: string -> bool, urls: seq<string>, payload: seq<TimeSeries>,
                    sent: seq<Post>, workers: seq<Worker>, i: nat, r: Reply)
    requires WorkersOk(wellFormed, urls, payload, sent, workers)
    requires NoDuplicates(urls) && i < |urls| && workers[i].Running? && wellFormed(urls[i])
    ensures workers[i].left > 0
    ensures WorkersOk(wellFormed, urls, payload, sent + [Post(urls[i], payload, r)], workers[i := workers[i].After(r)])
  {
    var p := Post(urls[i], payload, r);
    assert WorkerOk(wellFormed, urls[i], payload, To(sent, urls[i]), workers[i]);
    WorkerPosts(wellFormed, urls[i], payload, To(sent, urls[i]), workers[i], r);
    forall j | 0 <= j < |urls|
      ensures WorkerOk(wellFormed, urls[j], payload, To(sent + [p], urls[j]), workers[i := workers[i].After(r)][j])
    {
      ToSnoc(sent, p, urls[j]);
      assert WorkerOk(wellFormed, urls[j], payload, To(sent, urls[j]), workers[j]);
      if j != i {
        assert To(sent + [p], urls[j]) == To(sent, urls[j]);
      }
    }
  }

  /** Loop i stops because its URL makes no request. */
  lemma WorkersQuit(wellFormed: string -> bool, urls: seq<string>, payload: seq<TimeSeries>,
                    sent: seq<Post>, workers: seq<Worker>, i: nat)
    requires WorkersOk(wellFormed, urls, payload, sent, workers)
    requires i < |urls| && workers[i].Running? && !wellFormed(urls[i])
    ensures WorkersOk(wellFormed, urls, payload, sent, workers[i := Done(false)])
  {}

  lemma WorkersDone(wellFormed: string -> bool, urls: seq<string>, payload: seq<TimeSeries>, sent: seq<Post>,
                    workers: seq<Worker>)
    requires WorkersOk(wellFormed, urls, payload, sent, workers) && Finished(workers)
    ensures forall i :: 0 <= i < |urls| ==> Tried(wellFormed, To(sent, urls[i]), urls[i], payload)
    ensures AllOk(workers) <==> forall i :: 0 <= i < |urls| ==> Succeeded(To(sent, urls[i]))
  {
    forall i | 0 <= i < |urls|
      ensures Tried(wellFormed, To(sent, urls[i]), urls[i], payload)
      ensures workers[i].ok <==> Succeeded(To(sent, urls[i]))
    {
      assert WorkerOk(wellFormed, urls[i], payload, To(sent, urls[i]), workers[i]);
    }
  }

  function Starting(n: nat): (workers: seq<Worker>)
    ensures |workers| == n && forall i :: 0 <= i < n ==> workers[i] == Running(ATTEMPTS)
  {
    seq(n, i => Running(ATTEMPTS))
  }

  lemma WorkersStart(wellFormed: string -> bool, urls: seq<string>, payload: seq<TimeSeries>)
    ensures WorkersOk(wellFormed, urls, payload, [], Starting(|urls|))
  {
    forall i | 0 <= i < |urls|
      ensures WorkerOk(wellFormed, urls[i], payload, To([], urls[i]), Starting(|urls|)[i])
    {
      assert To([], urls[i]) == [];
    }
  }

  /** Loop i makes its next step. */
  method Advance(net: Network, ghost before: seq<Post>, urls: seq<string>, payload: seq<TimeSeries>,
                 ghost sent: seq<Post>, workers: seq<Worker>, i: nat)
    returns (workers': seq<Worker>, ghost sent': seq<Post>)
    requires NoDuplicates(urls) && WorkersOk(net.wire.wellFormed, urls, payload, sent, workers)
    requires i < |urls| && workers[i].Running? && net.log == before + sent
    modifies net
    ensures WorkersOk(net.wire.wellFormed, urls, payload, sent', workers')
    ensures net.log == before + sent'
    ensures Cost(workers') < Cost(workers)
  {
    if !net.wire.wellFormed(urls[i]) {
      WorkersQuit(net.wire.wellFormed, urls, payload, sent, workers, i);
      CostUpdate(workers, i, Done(false));
      workers', sent' := workers[i := Done(false)], sent;
    } else {
      var r := net.Do(urls[i], payload);
      WorkersStep(net.wire.wellFormed, urls, payload, sent, workers, i, r);
      CostUpdate(workers, i, workers[i].After(r));
      workers', sent' := workers[i := workers[i].After(r)], sent + [Post(urls[i], payload, r)];
    }
  }

  predicate Finished(workers: seq<Worker>) {
    forall i :: 0 <= i < |workers| ==> workers[i].Done?
  }

  predicate AllOk(workers: seq<Worker>)
    requires Finished(workers)
  {
    forall i :: 0 <= i < |workers| ==> workers[i].ok
  }

  /** One retry loop for each URL, all running at once: the loops take turns in any order.
      The send fails iff one of them does. */
  method FanOut(net: Network, urls: seq<string>, payload: seq<TimeSeries>) returns (ok: bool, ghost sent: seq<Post>)
    requires NoDuplicates(urls)
    modifies net
    ensures net.log == old(net.log) + sent
    ensures forall i :: 0 <= i < |urls| ==> Tried(net.wire.wellFormed, To(sent, urls[i]), urls[i], payload)
    ensures ok <==> forall i :: 0 <= i < |urls| ==> Succeeded(To(sent, urls[i]))
  {
    sent := [];
    var workers := Starting(|urls|);
    WorkersStart(net.wire.wellFormed, urls, payload);
    while !Finished(workers)
      invariant net.log == old(net.log) + sent
      invariant WorkersOk(net.wire.wellFormed, urls, payload, sent, workers)
      decreases Cost(workers)
    {
      var i :| 0 <= i < |workers| && workers[i].Running?;
      workers, sent := Advance(net, old(net.log), urls, payload, sent, workers, i);
    }
    WorkersDone(net.wire.wellFormed, urls, payload, sent, workers);
    ok := AllOk(workers);
  }
}
