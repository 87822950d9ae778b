/** What a sweep of a run does, said of its log alone. */
module SweepOutcome {
  import opened MetricApi
  import opened JobHealth
  import opened ControllerSteps
  import opened History
  import opened ControllerInvariant
  import opened ControllerRuns
  import opened ControllerSafety
  import opened SweepLaws

  // ---------------------------------------------------------------------------
  // Reading the log

  /** Longer than the stall grace without a clean cycle of the struct, or without one since
      its creation. */
  ghost predicate Overdue(cfg: Config, log: Log, id: nat, now: Time) {
    now - (if LastCleanAt(log, id) == 0 then Birth(log, id) else LastCleanAt(log, id)) > cfg.StallGrace()
  }

  /** The restart is configured, this replica leads, and the lineage last saw healthy
      targets, was recreated, and has been seen stalled for longer than the restart grace. */
  ghost predicate Qualifies(cfg: Config, log: Log, id: nat, now: Time) {
    && cfg.selfHealPodRestart == Some(true)
    && BecameLeader in log
    && LastCheck(log, id) == Some(true)
    && Depth(log, id) >= 1
    && StallStart(log, id) != 0 && now - StallStart(log, id) > cfg.RestartGrace()
  }

  /** Entry p made struct id by a recreate within the backoff, and id had no success since. */
  ghost predicate HeldBackBy(cfg: Config, log: Log, id: nat, now: Time, p: int) {
    && 0 <= p < |log|
    && log[p].Recreated? && log[p].id == id && now - log[p].at < cfg.Backoff()
    && forall q :: p < q < |log| ==> !SuccessOf(log[q], id)
  }

  ghost predicate HeldBack(cfg: Config, log: Log, id: nat, now: Time) {
    exists p :: HeldBackBy(cfg, log, id, now, p)
  }

  predicate SuccessOf(e: Entry, id: nat) {
    e.CycleEnded? && e.id == id && e.outcome.Success?
  }

  /** Within this process there was no restart within the cooldown. */
  ghost predicate CooledDown(cfg: Config, log: Log, now: Time) {
    forall p :: 0 <= p < |log| && log[p].Exited? ==> now - log[p].at >= cfg.RestartCooldown()
  }

  /** Some registered job is overdue and qualifies for a restart. */
  ghost predicate SomeQualifies(cfg: Config, log: Log, now: Time) {
    exists key, id :: HeldBy(log, key, id) && Overdue(cfg, log, id, now) && Qualifies(cfg, log, id, now)
  }

  predicate HeldBy(log: Log, key: Key, id: nat) {
    Holder(log, key) == Some(id)
  }

  /** e replaces struct id of key by a recreate at time now. */
  predicate Replacing(e: Entry, key: Key, id: nat, now: Time) {
    e.Recreated? && e.key == key && e.previous == id && e.at == now
  }

  /** From log to log', struct id of key was recreated at time now. */
  ghost predicate WasRecreated(log: Log, log': Log, key: Key, id: nat, now: Time) {
    exists p :: |log| <= p < |log'| && Replacing(log'[p], key, id, now)
  }

  ghost predicate WasSeenStalled(log: Log, log': Log, key: Key, id: nat, now: Time) {
    exists p :: |log| <= p < |log'| && log'[p] == SeenStalled(id, key, now)
  }

  // ---------------------------------------------------------------------------
  // One stalled key

  /** The sweep recreates the job of key. */
  predicate Recreates(cfg: Config, s: State, key: Key, now: Time)
    requires key in s.jobs && s.jobs[key] < |s.store|
  {
    var j := JobOf(s, key);
    !Escalates(cfg, s.isLeader, j, now) && j.lastHadTargets && !Throttled(cfg, j, now)
  }

  /** What a sweep that visits key adds about it. */
  ghost predicate Visited(cfg: Config, s: State, log': Log, key: Key, now: Time)
    requires key in s.jobs && s.jobs[key] < |s.store|
  {
    var id := s.jobs[key];
    && |s.log| <= |log'| && log'[..|s.log|] == s.log
    && (WasRecreated(s.log, log', key, id, now) <==> Recreates(cfg, s, key, now))
    && (WasSeenStalled(s.log, log', key, id, now) <==> JobOf(s, key).stalledSince == 0)
  }

  /** What one visit adds to the log. */
  function Seeds(s: State, key: Key, now: Time): Log
    requires key in s.jobs && s.jobs[key] < |s.store|
  {
    if JobOf(s, key).stalledSince == 0 then [SeenStalled(s.jobs[key], key, now)] else []
  }

  function Acts(cfg: Config, s: State, key: Key, now: Time, at: Time): Log
    requires key in s.jobs && s.jobs[key] < |s.store|
  {
    if Recreates(cfg, s, key, now) then
      [Stopped(s.jobs[key], key), Created(|s.store|, key, at), Recreated(|s.store|, key, s.jobs[key], now)]
    else []
  }

  lemma RecreateLog(s: State, key: Key, now: Time, at: Time)
    requires key in s.jobs && KeyOk(s, key)
    ensures Recreate(s, key, now, at).log ==
      s.log + [Stopped(s.jobs[key], key), Created(|s.store|, key, at), Recreated(|s.store|, key, s.jobs[key], now)]
  {}

  lemma VisitLog(cfg: Config, s: State, key: Key, now: Time, at: Time)
    requires key in s.jobs && KeyOk(s, key) && !SweepKey(cfg, s, key, now, at).exited
    ensures SweepKey(cfg, s, key, now, at).state.log == s.log + Seeds(s, key, now) + Acts(cfg, s, key, now, at)
  {
    var s1 := SeedStall(s, key, now);
    assert s1.log == s.log + Seeds(s, key, now) && s1.jobs == s.jobs && |s1.store| == |s.store|;
    assert Recreates(cfg, s1, key, now) == Recreates(cfg, s, key, now);
    RecreateLog(s1, key, now, at);
  }

  lemma VisitKey(cfg: Config, s: State, key: Key, now: Time, at: Time)
    requires key in s.jobs && KeyOk(s, key) && !SweepKey(cfg, s, key, now, at).exited
    ensures Visited(cfg, s, SweepKey(cfg, s, key, now, at).state.log, key, now)
  {
    var seeds, acts := Seeds(s, key, now), Acts(cfg, s, key, now, at);
    var log' := SweepKey(cfg, s, key, now, at).state.log;
    VisitLog(cfg, s, key, now, at);
    AddedEntries(s.log, seeds, acts, log');
    if seeds != [] {
      assert log'[|s.log|] == seeds[0];
    }
    if acts != [] {
      assert log'[|s.log| + |seeds| + 2] == acts[2];
    }
  }

  /** What is added is one of the parts. */
  lemma AddedEntries(log: Log, seeds: Log, acts: Log, log': Log)
    requires log' == log + seeds + acts
    ensures forall p :: |log| <= p < |log'| ==> log'[p] in seeds || log'[p] in acts
    ensures log'[..|log|] == log
  {}

  /** A part of the sweep that is not about key, before or after the visit. */
  predicate Bystander(e: Entry, key: Key) {
    !((e.Recreated? || e.SeenStalled?) && e.key == key)
  }

  ghost predicate PassesBy(log: Log, log': Log, key: Key) {
    && |log| <= |log'| && log'[..|log|] == log
    && forall p :: |log| <= p < |log'| ==> Bystander(log'[p], key)
  }

  lemma OtherKeyPassesBy(cfg: Config, s: State, k: Key, now: Time, at: Time, key: Key)
    requires k in s.jobs && KeyOk(s, k) && k != key
    ensures PassesBy(s.log, SweepKey(cfg, s, k, now, at).state.log, key)
  {
    var s1 := SeedStall(s, k, now);
    assert PassesBy(s.log, s1.log, key);
    RecreateLog(s1, k, now, at);
    assert PassesBy(s1.log, Recreate(s1, k, now, at).log, key);
    PassesTransitive(s.log, s1.log, Recreate(s1, k, now, at).log, key);
  }

  lemma PassesTransitive(log: Log, log1: Log, log2: Log, key: Key)
    requires PassesBy(log, log1, key) && PassesBy(log1, log2, key)
    ensures PassesBy(log, log2, key)
  {}

  lemma {:induction false} RestPassesBy(cfg: Config, s: State, now: Time, keys: seq<Key>, clk: seq<Time>, key: Key)
    requires SweepReady(cfg, s, now, keys, clk) && key !in keys
    ensures PassesBy(s.log, SweepFrom(cfg, s, now, keys, clk).state.log, key)
    decreases |keys|
  {
    if keys != [] {
      var r := SweepKey(cfg, s, keys[0], now, clk[0]);
      OtherKeyPassesBy(cfg, s, keys[0], now, clk[0], key);
      if !r.exited {
        SweepReadyRest(cfg, s, now, keys, clk);
        RestPassesBy(cfg, r.state, now, keys[1..], clk[1..], key);
        PassesTransitive(s.log, r.state.log, SweepFrom(cfg, s, now, keys, clk).state.log, key);
      }
    }
  }

  lemma VisitedThenPassed(cfg: Config, s: State, log1: Log, log2: Log, key: Key, now: Time)
    requires key in s.jobs && s.jobs[key] < |s.store|
    requires Visited(cfg, s, log1, key, now) && PassesBy(log1, log2, key)
    ensures Visited(cfg, s, log2, key, now)
  {
    var id := s.jobs[key];
    assert log2[..|s.log|] == log1[..|s.log|];
    forall p | |s.log| <= p < |log1|
      ensures log2[p] == log1[p]
    {
      assert log2[..|log1|][p] == log1[p];
    }
    if WasRecreated(s.log, log1, key, id, now) {
      var p :| |s.log| <= p < |log1| && Replacing(log1[p], key, id, now);
      assert Replacing(log2[p], key, id, now);
    }
    if WasSeenStalled(s.log, log1, key, id, now) {
      var p :| |s.log| <= p < |log1| && log1[p] == SeenStalled(id, key, now);
      assert log2[p] == SeenStalled(id, key, now);
    }
  }

  lemma PassedThenVisited(cfg: Config, s: State, s1: State, log2: Log, key: Key, now: Time)
    requires key in s.jobs && s.jobs[key] < |s.store| && key in s1.jobs && s1.jobs[key] < |s1.store|
    requires s1.jobs[key] == s.jobs[key] && JobOf(s1, key) == JobOf(s, key) && s1.isLeader == s.isLeader
    requires PassesBy(s.log, s1.log, key) && Visited(cfg, s1, log2, key, now)
    ensures Visited(cfg, s, log2, key, now)
  {
    var id := s.jobs[key];
    assert log2[..|s.log|] == s1.log[..|s.log|];
    forall p | |s.log| <= p < |s1.log|
      ensures log2[p] == s1.log[p]
    {
      assert log2[..|s1.log|][p] == s1.log[p];
    }
    if WasRecreated(s1.log, log2, key, id, now) {
      var p :| |s1.log| <= p < |log2| && Replacing(log2[p], key, id, now);
      assert Replacing(log2[p], key, id, now);
    }
    if WasSeenStalled(s1.log, log2, key, id, now) {
      var p :| |s1.log| <= p < |log2| && log2[p] == SeenStalled(id, key, now);
      assert log2[p] == SeenStalled(id, key, now);
    }
  }

  lemma SweepOtherStruct(cfg: Config, s: State, key: Key, now: Time, at: Time, k: Key)
    requires key in s.jobs && KeyOk(s, key) && k in s.jobs && KeyOk(s, k) && k != key
    ensures var s' := SweepKey(cfg, s, key, now, at).state; k in s'.jobs && s'.jobs[k] == s.jobs[k]
    ensures SweepKey(cfg, s, key, now, at).state.isLeader == s.isLeader
  {
    RecreateShape(SeedStall(s, key, now), key, now, at);
  }

  lemma {:induction false} SweepVisits(cfg: Config, s: State, now: Time, keys: seq<Key>, clk: seq<Time>, key: Key)
    requires SweepReady(cfg, s, now, keys, clk) && key in keys
    requires !SweepFrom(cfg, s, now, keys, clk).exited
    ensures key in s.jobs && KeyOk(s, key)
    ensures Visited(cfg, s, SweepFrom(cfg, s, now, keys, clk).state.log, key, now)
    decreases |keys|
  {
    var r := SweepKey(cfg, s, keys[0], now, clk[0]);
    SweepReadyRest(cfg, s, now, keys, clk);
    var log' := SweepFrom(cfg, s, now, keys, clk).state.log;
    if keys[0] == key {
      VisitKey(cfg, s, key, now, clk[0]);
      assert key !in keys[1..];
      RestPassesBy(cfg, r.state, now, keys[1..], clk[1..], key);
      VisitedThenPassed(cfg, s, r.state.log, log', key, now);
    } else {
      assert key in keys[1..];
      OtherKeyPassesBy(cfg, s, keys[0], now, clk[0], key);
      SweepOther(cfg, s, keys[0], now, clk[0], key);
      SweepOtherStruct(cfg, s, keys[0], now, clk[0], key);
      SweepVisits(cfg, r.state, now, keys[1..], clk[1..], key);
      PassedThenVisited(cfg, s, r.state, log', key, now);
    }
  }

  // ---------------------------------------------------------------------------
  // From the fields to the log

  /** A recreate made a struct once, and the struct was made once. */
  lemma RecreatedOnce(cfg: Config, start: Time, log: Log, p: nat, n: nat)
    requires LogJustified(cfg, start, log) && p < n < |log| && log[p].Recreated?
    ensures !(log[n].Created? && log[n].id == log[p].id)
    ensures !(log[n].Recreated? && log[n].id == log[p].id)
  {
    JustifiedAt(cfg, start, log, p);
    JustifiedAt(cfg, start, log, n);
    HolderWasCreated(log[..p], log[p].key, log[p].id);
    var c :| 0 <= c < p && log[..p][c].Created? && log[..p][c].id == log[p].id && log[..p][c].key == log[p].key;
    assert log[..n][c] == log[c] && log[..n][p] == log[p];
  }

  lemma {:induction false} LastRecreateWas(log: Log, id: nat) returns (p: nat)
    requires LastRecreate(log, id) != 0
    ensures p < |log| && log[p].Recreated? && log[p].id == id && log[p].at == LastRecreate(log, id)
    ensures forall q :: p < q < |log| ==> !SuccessOf(log[q], id)
    decreases |log|
  {
    p := |log| - 1;
    if !(log[p].Recreated? && log[p].id == id) {
      p := LastRecreateWas(Past(log), id);
    }
  }

  /** The throttle field says whether a recreate holds the next one back. */
  lemma ThrottleIsHeldBack(cfg: Config, start: Time, log: Log, id: nat, now: Time)
    requires LogJustified(cfg, start, log)
    ensures LastRecreate(log, id) != 0 && now - LastRecreate(log, id) < cfg.Backoff() <==>
      HeldBack(cfg, log, id, now)
  {
    if LastRecreate(log, id) != 0 && now - LastRecreate(log, id) < cfg.Backoff() {
      var p := LastRecreateWas(log, id);
      assert HeldBackBy(cfg, log, id, now, p);
    }
    if HeldBack(cfg, log, id, now) {
      var p :| HeldBackBy(cfg, log, id, now, p);
      JustifiedAt(cfg, start, log, p);
      forall n | p < n < |log|
        ensures !(log[n].Created? && log[n].id == id) && !(log[n].Recreated? && log[n].id == id)
        ensures !SuccessOf(log[n], id)
      {
        RecreatedOnce(cfg, start, log, p, n);
      }
      LastRecreateAt(log, p, |log|);
      assert log[..|log|] == log;
    }
  }

  /** The questions of the watchdog, answered from the log. */
  lemma AskedOfLog(cfg: Config, start: Time, s: State, key: Key, now: Time)
    requires Inv(cfg, start, s) && key in s.jobs
    ensures KeyOk(s, key) && HeldBy(s.log, key, s.jobs[key])
    ensures var j, id := JobOf(s, key), s.jobs[key];
      && (Stalled(cfg, j, now) <==> Overdue(cfg, s.log, id, now))
      && (Escalates(cfg, s.isLeader, j, now) <==> Qualifies(cfg, s.log, id, now))
      && (Throttled(cfg, j, now) <==> HeldBack(cfg, s.log, id, now))
      && (j.lastHadTargets <==> LastCheck(s.log, id) == Some(true))
      && (j.stalledSince == 0 <==> StallStart(s.log, id) == 0)
  {
    var id := s.jobs[key];
    assert KeyOk(s, key) && JobTimed(cfg, start, s.clock, s.store[id]);
    assert TracksLineage(cfg, start, s.log, id, s.store[id]);
    ThrottleIsHeldBack(cfg, start, s.log, id, now);
  }

  lemma {:induction false} LastExitWas(log: Log) returns (p: nat)
    requires LastExit(log) != 0
    ensures p < |log| && log[p].Exited? && log[p].at == LastExit(log)
    decreases |log|
  {
    p := |log| - 1;
    if !log[p].Exited? {
      p := LastExitWas(Past(log));
    }
  }

  lemma CooldownOfLog(cfg: Config, start: Time, s: State, now: Time)
    requires Inv(cfg, start, s)
    ensures CooldownOpen(cfg, s, now) <==> CooledDown(cfg, s.log, now)
  {
    if s.lastSelfRestartAt != 0 {
      var p := LastExitWas(s.log);
      assert s.log[p].Exited?;
    }
  }

  // ---------------------------------------------------------------------------
  // The outcome of a sweep

  lemma SweepExits(cfg: Config, start: Time, s: State, now: Time, keys: seq<Key>, clk: seq<Time>)
    requires Inv(cfg, start, s) && SweepReady(cfg, s, now, keys, clk) && ListsStalled(cfg, s, now, keys)
    ensures SweepFrom(cfg, s, now, keys, clk).exited <==> CooledDown(cfg, s.log, now) && SomeQualifies(cfg, s.log, now)
  {
    SweepExitsIff(cfg, s, now, keys, clk);
    CooldownOfLog(cfg, start, s, now);
    if k :| k in keys && Due(cfg, s, k, now) {
      AskedOfLog(cfg, start, s, k, now);
      assert HeldBy(s.log, k, s.jobs[k]);
    }
    if SomeQualifies(cfg, s.log, now) {
      var key, id :| HeldBy(s.log, key, id) && Overdue(cfg, s.log, id, now) && Qualifies(cfg, s.log, id, now);
      assert key in s.jobs && s.jobs[key] == id;
      AskedOfLog(cfg, start, s, key, now);
      assert key in keys && Due(cfg, s, key, now);
    }
  }

  /** A sweep restarts the process if and only if no restart lies within the cooldown and
      some registered job is overdue and qualifies; it adds at most one restart. */
  lemma SweepRestartsIff(cfg: Config, start: Time, es: seq<Event>, ss: seq<State>, i: nat)
    requires IsRun(cfg, start, es, ss) && i < |es| && es[i].Sweep?
    ensures var log, now := ss[i].log, es[i].now;
      Exits(ss[i + 1].log) ==
      Exits(log) + (if CooledDown(cfg, log, now) && SomeQualifies(cfg, log, now) then 1 else 0)
  {
    var s, e := ss[i], es[i];
    RunKeepsInvariant(cfg, start, es, ss, i);
    RunKeepsInvariant(cfg, start, es, ss, i + 1);
    assert Next(cfg, s, e, ss[i + 1]);
    SweepIsReady(cfg, s, e.now, e.keys, e.clk);
    SweepExitsIff(cfg, s, e.now, e.keys, e.clk);
    SweepExits(cfg, start, s, e.now, e.keys, e.clk);
  }

  /** A sweep that does not restart the process recreates the job registered under a key if
      and only if the job is overdue, last saw healthy targets, does not qualify for the
      restart, and was not itself made by a recreate within the backoff, unless it has
      succeeded since. It records the start of a stall exactly if none is on record. */
  lemma SweepRecreatesIff(cfg: Config, start: Time, es: seq<Event>, ss: seq<State>, i: nat, key: Key, id: nat)
    requires IsRun(cfg, start, es, ss) && i < |es| && es[i].Sweep?
    requires Exits(ss[i + 1].log) == Exits(ss[i].log) && Holder(ss[i].log, key) == Some(id)
    ensures var log, log', now := ss[i].log, ss[i + 1].log, es[i].now;
      && |log| <= |log'| && log'[..|log|] == log
      && (WasRecreated(log, log', key, id, now) <==>
            && Overdue(cfg, log, id, now)
            && LastCheck(log, id) == Some(true)
            && !Qualifies(cfg, log, id, now)
            && !HeldBack(cfg, log, id, now))
      && (WasSeenStalled(log, log', key, id, now) <==> Overdue(cfg, log, id, now) && StallStart(log, id) == 0)
  {
    var s, e := ss[i], es[i];
    RunKeepsInvariant(cfg, start, es, ss, i);
    RunKeepsInvariant(cfg, start, es, ss, i + 1);
    assert Next(cfg, s, e, ss[i + 1]) && key in s.jobs && s.jobs[key] == id;
    SweepIsReady(cfg, s, e.now, e.keys, e.clk);
    SweepExitsIff(cfg, s, e.now, e.keys, e.clk);
    AskedOfLog(cfg, start, s, key, e.now);
    if key in e.keys {
      SweepVisits(cfg, s, e.now, e.keys, e.clk, key);
    } else {
      RestPassesBy(cfg, s, e.now, e.keys, e.clk, key);
    }
  }
}
