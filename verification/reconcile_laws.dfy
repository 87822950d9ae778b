/** What loading and reconciling converge to. */
module ReconcileLaws {
  import opened MetricApi
  import opened JobHealth
  import opened ControllerSteps
  import opened ControllerSoundness
  import opened ControllerRuns
  import opened SweepLaws

  // ---------------------------------------------------------------------------
  // Reconciling

  /** Reconciling this item again would change nothing. */
  predicate Settled(s: State, ma: MetricAccess) {
    WantsJob(ma) ==>
      var key := KeyOf(ma);
      && (key in s.jobs <==> Collectable(ma))
      && (key in s.jobs ==> KeyOk(s, key) && !ConfigChanged(JobOf(s, key).access, ma))
  }

  lemma SettledIsFixed(s: State, ma: MetricAccess, at: Time)
    requires AllRegistered(s) && Settled(s, ma)
    ensures ReconcileItem(s, ma, at) == s
  {}

  lemma ReconcileItemSettles(s: State, ma: MetricAccess, at: Time)
    requires Sound(s)
    ensures Sound(ReconcileItem(s, ma, at))
    ensures Settled(ReconcileItem(s, ma, at), ma)
  {
    var key := KeyOf(ma);
    if WantsJob(ma) {
      if key in s.jobs {
        assert KeyOk(s, key);
        if ConfigChanged(JobOf(s, key).access, ma) {
          StopKeepsSound(s, key);
          CreatedIsSettled(StopJob(s, key), ma, at);
        }
      } else {
        CreatedIsSettled(s, ma, at);
      }
    }
  }

  lemma CreatedIsSettled(s: State, ma: MetricAccess, at: Time)
    requires Sound(s) && WantsJob(ma) && KeyOf(ma) !in s.jobs
    ensures Sound(CreateJob(s, ma, at))
    ensures Settled(CreateJob(s, ma, at), ma)
  {
    if Collectable(ma) {
      CreateKeepsSound(s, ma, at);
      assert KeyOk(CreateJob(s, ma, at), KeyOf(ma));
    }
  }

  lemma ReconcileOtherItem(s: State, ma: MetricAccess, at: Time, key: Key)
    requires Sound(s) && KeyOf(ma) != key
    ensures var s' := ReconcileItem(s, ma, at);
      && (key in s'.jobs <==> key in s.jobs)
      && (key in s.jobs ==>
            s'.jobs[key] == s.jobs[key] && KeyOk(s, key) && KeyOk(s', key) && JobOf(s', key) == JobOf(s, key))
  {
    if key in s.jobs {
      assert KeyOk(s, key);
    }
    if KeyOf(ma) in s.jobs {
      assert KeyOk(s, KeyOf(ma));
    }
  }

  lemma {:induction false} ReconcileOtherItems(s: State, items: seq<MetricAccess>, clk: seq<Time>, key: Key)
    requires Sound(s) && |items| == |clk|
    requires forall i :: 0 <= i < |items| ==> KeyOf(items[i]) != key
    ensures var s' := ReconcileItems(s, items, clk);
      && (key in s'.jobs <==> key in s.jobs)
      && (key in s.jobs ==>
            s'.jobs[key] == s.jobs[key] && KeyOk(s, key) && KeyOk(s', key) && JobOf(s', key) == JobOf(s, key))
    decreases |items|
  {
    if items == [] {
      assert key in s.jobs ==> KeyOk(s, key);
    } else {
      ReconcileItemSettles(s, items[0], clk[0]);
      ReconcileOtherItem(s, items[0], clk[0], key);
      ReconcileOtherItems(ReconcileItem(s, items[0], clk[0]), items[1..], clk[1..], key);
    }
  }

  lemma {:induction false} ReconcileItemsSettle(s: State, items: seq<MetricAccess>, clk: seq<Time>)
    requires Sound(s) && |items| == |clk| && DistinctKeys(items)
    ensures Sound(ReconcileItems(s, items, clk))
    ensures forall i :: 0 <= i < |items| ==> Settled(ReconcileItems(s, items, clk), items[i])
    decreases |items|
  {
    if items != [] {
      var s1 := ReconcileItem(s, items[0], clk[0]);
      ReconcileItemSettles(s, items[0], clk[0]);
      ReconcileItemsSettle(s1, items[1..], clk[1..]);
      ReconcileOtherItems(s1, items[1..], clk[1..], KeyOf(items[0]));
    }
  }

  lemma {:induction false} StopKeysShape(s: State, keys: seq<Key>)
    requires Sound(s)
    ensures Sound(StopKeys(s, keys))
    ensures forall k :: k in StopKeys(s, keys).jobs <==> k in s.jobs && k !in keys
    ensures forall k :: k in StopKeys(s, keys).jobs ==>
      KeyOk(s, k) && KeyOk(StopKeys(s, keys), k) && StopKeys(s, keys).jobs[k] == s.jobs[k] &&
      JobOf(StopKeys(s, keys), k) == JobOf(s, k)
    decreases |keys|
  {
    if keys == [] {
      assert forall k :: k in s.jobs ==> KeyOk(s, k);
    } else if keys[0] in s.jobs {
      var s1 := StopJob(s, keys[0]);
      assert KeyOk(s, keys[0]);
      StopKeepsSound(s, keys[0]);
      StopKeysShape(s1, keys[1..]);
      StopOthers(s, keys[0]);
      assert forall k :: k in keys <==> k == keys[0] || k in keys[1..];
    } else {
      StopKeysShape(s, keys[1..]);
      assert forall k :: k in keys <==> k == keys[0] || k in keys[1..];
    }
  }

  lemma StopOthers(s: State, key: Key)
    requires Sound(s) && key in s.jobs && KeyOk(s, key)
    ensures forall k :: k in StopJob(s, key).jobs ==>
      k in s.jobs && k != key && KeyOk(s, k) && KeyOk(StopJob(s, key), k) && JobOf(StopJob(s, key), k) == JobOf(s, k)
  {
    forall k | k in StopJob(s, key).jobs
      ensures KeyOk(s, k) && KeyOk(StopJob(s, key), k) && JobOf(StopJob(s, key), k) == JobOf(s, k)
    {
      assert KeyOk(s, k);
    }
  }

  /** The keys of the desired resources whose target type is supported. */
  function CollectableKeys(items: seq<MetricAccess>): set<Key> {
    set ma | ma in items && Collectable(ma) :: KeyOf(ma)
  }

  /** After one reconcile exactly the desired, supported resources are registered, and
      each registered job agrees with its resource as far as the diff can see. */
  lemma ReconcileConverges(s: State, items: seq<MetricAccess>, clk: seq<Time>, leftovers: seq<Key>)
    requires Sound(s) && |items| == |clk| && DistinctKeys(items)
    requires ListsLeftovers(ReconcileItems(s, items, clk), DesiredKeys(items), leftovers)
    ensures var s' := Reconcile(s, items, clk, leftovers);
      && Sound(s')
      && s'.jobs.Keys == CollectableKeys(items)
      && forall i :: 0 <= i < |items| ==> Settled(s', items[i])
  {
    var s1 := ReconcileItems(s, items, clk);
    var s' := Reconcile(s, items, clk, leftovers);
    ReconcileItemsSettle(s, items, clk);
    StopKeysShape(s1, leftovers);
    forall i | 0 <= i < |items|
      ensures Settled(s', items[i])
    {
      assert Settled(s1, items[i]);
      if WantsJob(items[i]) {
        assert KeyOf(items[i]) in DesiredKeys(items);
      }
    }
    forall k | k in s'.jobs
      ensures k in CollectableKeys(items)
    {
      assert k in DesiredKeys(items);
      var ma :| ma in items && WantsJob(ma) && KeyOf(ma) == k;
      var i :| 0 <= i < |items| && items[i] == ma;
      assert Settled(s', items[i]);
    }
    forall k | k in CollectableKeys(items)
      ensures k in s'.jobs
    {
      var ma :| ma in items && Collectable(ma) && KeyOf(ma) == k;
      var i :| 0 <= i < |items| && items[i] == ma;
      assert Settled(s', items[i]);
    }
  }

  lemma {:induction false} SettledItemsAreFixed(s: State, items: seq<MetricAccess>, clk: seq<Time>)
    requires AllRegistered(s) && |items| == |clk|
    requires forall i :: 0 <= i < |items| ==> Settled(s, items[i])
    ensures ReconcileItems(s, items, clk) == s
    decreases |items|
  {
    if items != [] {
      SettledIsFixed(s, items[0], clk[0]);
      forall i | 0 <= i < |items[1..]|
        ensures Settled(s, items[1..][i])
      {
        assert Settled(s, items[i + 1]);
      }
      SettledItemsAreFixed(s, items[1..], clk[1..]);
    }
  }

  lemma HasMember<T>(xs: seq<T>)
    requires xs != []
    ensures exists x :: x in xs
  {
    assert xs[0] in xs;
  }

  // ---------------------------------------------------------------------------
  // Reconciling again

  /** The same keys are registered, each with a job for the same resource. */
  ghost predicate SameResources(s: State, s': State) {
    && KeysOk(s) && KeysOk(s')
    && s'.jobs.Keys == s.jobs.Keys
    && forall k :: k in s.jobs ==> SameResource(s, s', k)
  }

  predicate SameResource(s: State, s': State, key: Key) {
    && key in s.jobs && KeyOk(s, key) && key in s'.jobs && KeyOk(s', key)
    && JobOf(s', key).access == JobOf(s, key).access
  }

  lemma SameResourcesTransitive(s: State, s1: State, s2: State)
    requires SameResources(s, s1) && SameResources(s1, s2)
    ensures SameResources(s, s2)
  {
    forall k | k in s.jobs
      ensures SameResource(s, s2, k)
    {
      assert SameResource(s, s1, k) && SameResource(s1, s2, k);
    }
  }

  lemma SweptKeyKeepsResource(cfg: Config, s: State, key: Key, now: Time, at: Time)
    requires key in s.jobs && KeyOk(s, key)
    ensures SameResource(s, SweepKey(cfg, s, key, now, at).state, key)
  {
    RecreateShape(SeedStall(s, key, now), key, now, at);
  }

  lemma OtherKeyKeepsResource(cfg: Config, s: State, key: Key, now: Time, at: Time, k: Key)
    requires key in s.jobs && KeyOk(s, key) && k in s.jobs && KeyOk(s, k) && k != key
    ensures SameResource(s, SweepKey(cfg, s, key, now, at).state, k)
  {
    SweepOther(cfg, s, key, now, at, k);
  }

  lemma SweepKeyKeepsResources(cfg: Config, s: State, key: Key, now: Time, at: Time)
    requires KeysOk(s) && key in s.jobs && KeyOk(s, key)
    ensures SameResources(s, SweepKey(cfg, s, key, now, at).state)
  {
    var s' := SweepKey(cfg, s, key, now, at).state;
    SweepKeyFrame(cfg, s, key, now, at);
    forall k | k in s.jobs
      ensures SameResource(s, s', k)
    {
      assert KeyOk(s, k);
      if k == key {
        SweptKeyKeepsResource(cfg, s, key, now, at);
      } else {
        OtherKeyKeepsResource(cfg, s, key, now, at, k);
      }
    }
  }

  lemma {:induction false} SweepKeepsResources(cfg: Config, s: State, now: Time, keys: seq<Key>, clk: seq<Time>)
    requires SweepReady(cfg, s, now, keys, clk)
    ensures SameResources(s, SweepFrom(cfg, s, now, keys, clk).state)
    decreases |keys|
  {
    if keys == [] {
      KeepsOwnResources(s);
    } else {
      var r := SweepKey(cfg, s, keys[0], now, clk[0]);
      SweepKeyKeepsResources(cfg, s, keys[0], now, clk[0]);
      if !r.exited {
        SweepReadyRest(cfg, s, now, keys, clk);
        SweepKeepsResources(cfg, r.state, now, keys[1..], clk[1..]);
        SameResourcesTransitive(s, r.state, SweepFrom(cfg, s, now, keys, clk).state);
      }
    }
  }

  lemma KeepsOwnResources(s: State)
    requires KeysOk(s)
    ensures SameResources(s, s)
  {
    forall k | k in s.jobs
      ensures SameResource(s, s, k)
    {
      assert KeyOk(s, k);
    }
  }

  /** Everything but loading, reconciling and stopping: ticks, sweeps and cycle writes. */
  predicate KeepsJobs(e: Event) {
    !e.Load? && !e.ReconcileTo? && !e.StopAll?
  }

  lemma EventKeepsResources(cfg: Config, s: State, e: Event, s': State)
    requires Next(cfg, s, e, s') && KeepsJobs(e)
    ensures SameResources(s, s')
  {
    if e.Sweep? {
      SweepIsReady(cfg, s, e.now, e.keys, e.clk);
      SweepKeepsResources(cfg, s, e.now, e.keys, e.clk);
    } else {
      forall k | k in s.jobs
        ensures SameResource(s, s', k)
      {
        assert KeyOk(s, k);
      }
      assert forall k :: k in s'.jobs ==> SameResource(s, s', k);
    }
  }

  lemma {:induction false} EventsKeepResources(cfg: Config, es: seq<Event>, ss: seq<State>, n: nat)
    requires |ss| == |es| + 1 && n <= |es| && KeysOk(ss[0])
    requires forall i :: 0 <= i < |es| ==> KeepsJobs(es[i]) && Next(cfg, ss[i], es[i], ss[i + 1])
    ensures SameResources(ss[0], ss[n])
  {
    if n == 0 {
      KeepsOwnResources(ss[0]);
    } else {
      EventsKeepResources(cfg, es, ss, n - 1);
      assert Next(cfg, ss[n - 1], es[n - 1], ss[n]);
      EventKeepsResources(cfg, ss[n - 1], es[n - 1], ss[n]);
      SameResourcesTransitive(ss[0], ss[n - 1], ss[n]);
    }
  }

  lemma StaysSettled(s: State, s': State, ma: MetricAccess)
    requires SameResources(s, s') && Settled(s, ma)
    ensures Settled(s', ma)
  {
    if WantsJob(ma) && KeyOf(ma) in s.jobs {
      assert SameResource(s, s', KeyOf(ma));
    }
  }

  /** Reconciling the same list again stops nothing and creates nothing, whatever ticks,
      sweeps and cycle writes come between the two reconciles: ss are the states from the
      first one on. */
  lemma ReconcileIsIdempotent(cfg: Config, s: State, items: seq<MetricAccess>, clk: seq<Time>, leftovers: seq<Key>,
                              es: seq<Event>, ss: seq<State>, clk': seq<Time>, leftovers': seq<Key>)
    requires Sound(s) && |items| == |clk| == |clk'| && DistinctKeys(items)
    requires ListsLeftovers(ReconcileItems(s, items, clk), DesiredKeys(items), leftovers)
    requires |ss| == |es| + 1 && ss[0] == Reconcile(s, items, clk, leftovers)
    requires forall i :: 0 <= i < |es| ==> KeepsJobs(es[i]) && Next(cfg, ss[i], es[i], ss[i + 1])
    requires AllRegistered(ss[|es|])
    requires ListsLeftovers(ReconcileItems(ss[|es|], items, clk'), DesiredKeys(items), leftovers')
    ensures Reconcile(ss[|es|], items, clk', leftovers') == ss[|es|]
  {
    var s' := ss[|es|];
    ReconcileConverges(s, items, clk, leftovers);
    EventsKeepResources(cfg, es, ss, |es|);
    forall i | 0 <= i < |items|
      ensures Settled(s', items[i])
    {
      StaysSettled(ss[0], s', items[i]);
    }
    SettledItemsAreFixed(s', items, clk');
    forall k | k in s'.jobs
      ensures k in DesiredKeys(items)
    {
      assert k in CollectableKeys(items);
    }
    if leftovers' != [] {
      HasMember(leftovers');
    }
  }

  // ---------------------------------------------------------------------------
  // Loading

  /** The resources a load makes jobs for, in order. */
  function Loadable(items: seq<MetricAccess>): seq<MetricAccess> {
    if items == [] then []
    else (if Collectable(items[0]) then [items[0]] else []) + Loadable(items[1..])
  }

  /** The last position of a key in a list. */
  ghost predicate LastAt(items: seq<MetricAccess>, key: Key, i: int) {
    0 <= i < |items| && KeyOf(items[i]) == key && forall j :: i < j < |items| ==> KeyOf(items[j]) != key
  }

  /** The structs a load makes, in order. */
  function Made(items: seq<MetricAccess>, clk: seq<Time>): (made: seq<Job>)
    requires |items| == |clk|
    ensures |made| == |Loadable(items)|
    ensures forall i :: 0 <= i < |made| ==> made[i].access == Loadable(items)[i]
  {
    if items == [] then []
    else (if Collectable(items[0]) then [NewJob(items[0], clk[0])] else []) + Made(items[1..], clk[1..])
  }

  lemma {:induction false} LoadStore(s: State, items: seq<MetricAccess>, clk: seq<Time>)
    requires |items| == |clk|
    ensures LoadFrom(s, items, clk).store == s.store + Made(items, clk)
    decreases |items|
  {
    if items != [] {
      LoadStore(LoadOne(s, items[0], clk[0]), items[1..], clk[1..]);
    }
  }

  /** Of several loaded resources with one key, the last is registered; base is the id
      of the first loaded one. */
  ghost predicate LastWins(jobs: map<Key, nat>, base: nat, jobs': map<Key, nat>, made: seq<MetricAccess>) {
    && (forall i :: 0 <= i < |made| ==> WinsIffLast(base, jobs', made, i))
    && (forall k :: k in jobs && Unmade(made, k) ==> k in jobs' && jobs'[k] == jobs[k])
  }

  ghost predicate WinsIffLast(base: nat, jobs': map<Key, nat>, made: seq<MetricAccess>, i: nat)
    requires i < |made|
  {
    KeyOf(made[i]) in jobs' && (jobs'[KeyOf(made[i])] == base + i <==> LastAt(made, KeyOf(made[i]), i))
  }

  ghost predicate Unmade(made: seq<MetricAccess>, key: Key) {
    forall i :: 0 <= i < |made| ==> KeyOf(made[i]) != key
  }

  lemma {:induction false} LoadJobs(s: State, items: seq<MetricAccess>, clk: seq<Time>)
    requires |items| == |clk|
    ensures LastWins(s.jobs, |s.store|, LoadFrom(s, items, clk).jobs, Loadable(items))
    decreases |items|
  {
    if items != [] {
      var s1 := LoadOne(s, items[0], clk[0]);
      LoadJobs(s1, items[1..], clk[1..]);
      if Collectable(items[0]) {
        LastWinsHead(s.jobs, |s.store|, LoadFrom(s, items, clk).jobs, items[0], Loadable(items[1..]));
      } else {
        assert Loadable(items) == Loadable(items[1..]);
      }
    }
  }

  lemma LastWinsHead(jobs: map<Key, nat>, base: nat, jobs': map<Key, nat>, ma: MetricAccess, rest: seq<MetricAccess>)
    requires LastWins(jobs[KeyOf(ma) := base], base + 1, jobs', rest)
    ensures LastWins(jobs, base, jobs', [ma] + rest)
  {
    var made := [ma] + rest;
    forall i: nat | i < |made|
      ensures WinsIffLast(base, jobs', made, i)
    {
      if i > 0 {
        assert WinsIffLast(base + 1, jobs', rest, i - 1);
        LastAtTail(ma, rest, KeyOf(made[i]), i);
      } else {
        FirstWins(jobs, base, jobs', ma, rest);
      }
    }
    forall k | k in jobs && Unmade(made, k)
      ensures k in jobs' && jobs'[k] == jobs[k]
    {
      UnmadeTail(ma, rest, k);
    }
  }

  lemma UnmadeTail(ma: MetricAccess, rest: seq<MetricAccess>, key: Key)
    ensures Unmade([ma] + rest, key) <==> KeyOf(ma) != key && Unmade(rest, key)
  {
    var made := [ma] + rest;
    assert made[0] == ma;
    assert forall j :: 0 <= j < |rest| ==> rest[j] == made[j + 1];
    assert forall j :: 0 < j < |made| ==> made[j] == rest[j - 1];
  }

  lemma LastAtTail(ma: MetricAccess, rest: seq<MetricAccess>, key: Key, i: nat)
    requires 0 < i <= |rest|
    ensures LastAt(rest, key, i - 1) <==> LastAt([ma] + rest, key, i)
  {
    var made := [ma] + rest;
    assert forall j :: 0 <= j < |rest| ==> rest[j] == made[j + 1];
    assert forall j :: 0 < j < |made| ==> made[j] == rest[j - 1];
  }

  lemma FirstWins(jobs: map<Key, nat>, base: nat, jobs': map<Key, nat>, ma: MetricAccess, rest: seq<MetricAccess>)
    requires LastWins(jobs[KeyOf(ma) := base], base + 1, jobs', rest)
    ensures WinsIffLast(base, jobs', [ma] + rest, 0)
  {
    var key, made := KeyOf(ma), [ma] + rest;
    assert forall j :: 0 <= j < |rest| ==> rest[j] == made[j + 1];
    assert forall j :: 0 < j < |made| ==> made[j] == rest[j - 1];
    if j :| 0 <= j < |rest| && KeyOf(rest[j]) == key {
      var l := LastOf(rest, key, j);
      assert WinsIffLast(base + 1, jobs', rest, l);
      assert KeyOf(made[l + 1]) == key;
    } else {
      assert Unmade(rest, key);
    }
  }

  lemma LastOf(items: seq<MetricAccess>, key: Key, j: nat) returns (l: nat)
    requires j < |items| && KeyOf(items[j]) == key
    ensures l < |items| && LastAt(items, key, l)
  {
    l := |items| - 1;
    while KeyOf(items[l]) != key
      invariant j <= l < |items|
      invariant forall i :: l < i < |items| ==> KeyOf(items[i]) != key
      decreases l
    {
      l := l - 1;
    }
  }

  lemma DistinctAreLive(start: Time, items: seq<MetricAccess>, clk: seq<Time>, id: nat)
    requires |items| == |clk| && DistinctKeys(Loadable(items)) && id < |LoadFrom(Fresh(start), items, clk).store|
    ensures Live(LoadFrom(Fresh(start), items, clk), id)
  {
    LoadStore(Fresh(start), items, clk);
    LoadJobs(Fresh(start), items, clk);
    assert WinsIffLast(0, LoadFrom(Fresh(start), items, clk).jobs, Loadable(items), id);
  }

  lemma RepeatedIsLost(start: Time, items: seq<MetricAccess>, clk: seq<Time>, i: nat, j: nat)
    requires |items| == |clk| && i < j < |Loadable(items)| && KeyOf(Loadable(items)[i]) == KeyOf(Loadable(items)[j])
    ensures i < |LoadFrom(Fresh(start), items, clk).store| && !Live(LoadFrom(Fresh(start), items, clk), i)
  {
    var s', made := LoadFrom(Fresh(start), items, clk), Loadable(items);
    LoadStore(Fresh(start), items, clk);
    LoadJobs(Fresh(start), items, clk);
    assert WinsIffLast(0, s'.jobs, made, i);
    assert !LastAt(made, KeyOf(made[i]), i);
    assert s'.store[i].access == made[i];
  }

  /** Loading into a fresh controller registers every job it starts, that is, overwrites no
      live one, exactly if no two of the resources it makes jobs for share a key. */
  lemma LoadOverwritesNothingIff(start: Time, items: seq<MetricAccess>, clk: seq<Time>)
    requires |items| == |clk|
    ensures var s' := LoadFrom(Fresh(start), items, clk);
      (forall id: nat :: id < |s'.store| ==> Live(s', id)) <==> DistinctKeys(Loadable(items))
  {
    var s', made := LoadFrom(Fresh(start), items, clk), Loadable(items);
    if DistinctKeys(made) {
      forall id: nat | id < |s'.store|
        ensures Live(s', id)
      {
        DistinctAreLive(start, items, clk, id);
      }
    } else {
      var i, j :| 0 <= i < j < |made| && KeyOf(made[i]) == KeyOf(made[j]);
      RepeatedIsLost(start, items, clk, i, j);
    }
  }
}
