/** Safety of the watchdog, read off the log of every run. */
module ControllerSafety {
  import opened Arithmetic
  import opened MetricApi
  import opened JobHealth
  import opened ControllerSteps
  import opened History
  import opened ControllerInvariant
  import opened ControllerRuns

  /** Every entry was justified by what had happened before it. */
  lemma {:induction false} JustifiedAt(cfg: Config, start: Time, log: Log, p: nat)
    requires LogJustified(cfg, start, log) && p < |log|
    ensures Justified(cfg, start, log[..p], log[p])
    decreases |log|
  {
    if p < |log| - 1 {
      JustifiedAt(cfg, start, Past(log), p);
      assert Past(log)[..p] == log[..p];
    }
  }

  /** The log of any state of a run. */
  ghost predicate IsLog(cfg: Config, start: Time, log: Log) {
    exists es: seq<Event>, ss: seq<State>, i: nat :: IsRun(cfg, start, es, ss) && i < |ss| && ss[i].log == log
  }

  lemma LogOfRun(cfg: Config, start: Time, log: Log)
    requires IsLog(cfg, start, log)
    ensures LogJustified(cfg, start, log)
  {
    var es: seq<Event>, ss: seq<State>, i: nat :| IsRun(cfg, start, es, ss) && i < |ss| && ss[i].log == log;
    RunKeepsInvariant(cfg, start, es, ss, i);
  }

  // ---------------------------------------------------------------------------
  // Restarts

  /** At every self-restart, whatever cycles were still being recorded by stopped jobs:
      the feature is on, this replica leads, the job is the registered one, its lineage
      was recreated at least once and last saw healthy targets, its stall has lasted beyond
      the restart grace since it was first seen, no registered job of the key had a clean
      cycle within both grace periods, and none was created within one. */
  lemma ExitSafety(cfg: Config, start: Time, log: Log, p: nat)
    requires IsLog(cfg, start, log) && p < |log| && log[p].Exited?
    ensures cfg.selfHealPodRestart == Some(true) && BecameLeader in log[..p]
    ensures Holder(log[..p], log[p].key) == Some(log[p].id)
    ensures Depth(log[..p], log[p].id) >= 1
    ensures LastCheck(log[..p], log[p].id) == Some(true)
    ensures StallStart(log[..p], log[p].id) != 0
    ensures StallStart(log[..p], log[p].id) + cfg.RestartGrace() < log[p].at
    ensures forall q :: 0 <= q < p && log[q].CycleEnded? && log[q].key == log[p].key && log[q].live &&
                        log[q].outcome.Clean() ==>
      log[q].at + cfg.StallGrace() + cfg.RestartGrace() < log[p].at
    ensures forall q :: 0 <= q < p && log[q].Created? && log[q].key == log[p].key ==>
      log[q].at + cfg.StallGrace() < log[p].at
  {
    LogOfRun(cfg, start, log);
    JustifiedAt(cfg, start, log, p);
    forall q | 0 <= q < p
      ensures CleanBefore(log[q], log[p].key, log[p].at - (cfg.StallGrace() + cfg.RestartGrace()))
      ensures BirthBefore(log[q], log[p].key, None, log[p].at - cfg.StallGrace())
    {
      assert log[..p][q] == log[q];
    }
  }

  /** Within one process, restarts are a cooldown apart. */
  lemma ExitsKeepCooldown(cfg: Config, start: Time, log: Log, p: nat, q: nat)
    requires IsLog(cfg, start, log) && p < q < |log| && log[p].Exited? && log[q].Exited?
    ensures log[p].at + cfg.RestartCooldown() <= log[q].at
  {
    LogOfRun(cfg, start, log);
    JustifiedAt(cfg, start, log, q);
    assert log[..q][p] == log[p];
  }

  /** No restart before a fresh process has run for both grace periods. */
  lemma FirstExit(cfg: Config, start: Time, log: Log, p: nat)
    requires IsLog(cfg, start, log) && p < |log| && log[p].Exited?
    ensures start + cfg.StallGrace() + cfg.RestartGrace() < log[p].at
    ensures Origin(log[..p], log[p].id) + cfg.StallGrace() + cfg.RestartGrace() < log[p].at
  {
    LogOfRun(cfg, start, log);
    JustifiedAt(cfg, start, log, p);
  }

  /** The restart counter is the number of restarts. */
  lemma ExitsAreCounted(cfg: Config, start: Time, es: seq<Event>, ss: seq<State>, i: nat)
    requires IsRun(cfg, start, es, ss) && i < |ss|
    ensures ss[i].selfRestartTotal == Exits(ss[i].log)
  {
    RunKeepsInvariant(cfg, start, es, ss, i);
  }

  /** A process: its run, and the position in its log of a restart. */
  datatype Process = Process(start: Time, es: seq<Event>, ss: seq<State>, p: nat)
  {
    ghost predicate RestartsAt(cfg: Config, at: Time) {
      && IsRun(cfg, start, es, ss)
      && p < |ss[|es|].log|
      && ss[|es|].log[p].Exited?
      && ss[|es|].log[p].at == at
    }
  }

  lemma RestartTakesBothGraces(cfg: Config, process: Process, at: Time)
    requires process.RestartsAt(cfg, at)
    ensures process.start + (cfg.StallGrace() + cfg.RestartGrace()) < at
  {
    assert IsLog(cfg, process.start, process.ss[|process.es|].log);
    FirstExit(cfg, process.start, process.ss[|process.es|].log, process.p);
  }

  /** Start n is not before the exit that precedes it. */
  predicate Follows(starts: seq<Time>, exits: seq<Time>, n: int)
    requires |starts| == |exits|
  {
    0 < n < |starts| ==> exits[n - 1] <= starts[n]
  }

  lemma {:induction false} GapsAddUp(starts: seq<Time>, exits: seq<Time>, gap: int)
    requires |starts| == |exits| > 0
    requires forall n :: 0 <= n < |starts| ==> starts[n] + gap < exits[n]
    requires forall n :: Follows(starts, exits, n)
    ensures starts[0] + Times(|exits|, gap) < exits[|exits| - 1]
    decreases |starts|
  {
    var n := |starts| - 1;
    if n > 0 {
      forall m: int
        ensures Follows(starts[..n], exits[..n], m)
      {
        assert Follows(starts, exits, m);
      }
      GapsAddUp(starts[..n], exits[..n], gap);
      assert Follows(starts, exits, n);
    } else {
      assert Times(0, gap) == 0;
    }
  }

  function Starts(processes: seq<Process>): (r: seq<Time>)
    ensures |r| == |processes|
  {
    seq(|processes|, n requires 0 <= n < |processes| => processes[n].start)
  }

  /** Restarts of successive processes stay both grace periods apart, although nothing
      about earlier restarts survives: n of them take more than n times as long. */
  lemma RestartChain(cfg: Config, processes: seq<Process>, exits: seq<Time>)
    requires |processes| == |exits| > 0
    requires forall n :: 0 <= n < |processes| ==> processes[n].RestartsAt(cfg, exits[n])
    requires forall n :: Follows(Starts(processes), exits, n)
    ensures processes[0].start + |exits| * (cfg.StallGrace() + cfg.RestartGrace()) < exits[|exits| - 1]
  {
    forall n | 0 <= n < |exits|
      ensures Starts(processes)[n] + (cfg.StallGrace() + cfg.RestartGrace()) < exits[n]
    {
      RestartTakesBothGraces(cfg, processes[n], exits[n]);
    }
    GapsAddUp(Starts(processes), exits, cfg.StallGrace() + cfg.RestartGrace());
    TimesIsProduct(|exits|, cfg.StallGrace() + cfg.RestartGrace());
  }

  // ---------------------------------------------------------------------------
  // Recreates

  /** At every recreate: the old job last saw healthy targets, and the key was without a
      clean cycle, a creation and another recreate for longer than the grace period. */
  lemma RecreateSafety(cfg: Config, start: Time, log: Log, p: nat)
    requires IsLog(cfg, start, log) && p < |log| && log[p].Recreated?
    ensures LastCheck(log[..p], log[p].previous) == Some(true)
    ensures forall q :: 0 <= q < p && log[q].CycleEnded? && log[q].key == log[p].key && log[q].live &&
                        log[q].outcome.Clean() ==>
      log[q].at + cfg.StallGrace() < log[p].at
    ensures forall q :: 0 <= q < p && log[q].Created? && log[q].key == log[p].key && log[q].id != log[p].id ==>
      log[q].at + cfg.StallGrace() < log[p].at
    ensures forall q :: 0 <= q < p && log[q].Recreated? && log[q].key == log[p].key ==>
      log[q].at + cfg.StallGrace() < log[p].at
  {
    LogOfRun(cfg, start, log);
    JustifiedAt(cfg, start, log, p);
    forall q | 0 <= q < p
      ensures CleanBefore(log[q], log[p].key, log[p].at - cfg.StallGrace())
      ensures BirthBefore(log[q], log[p].key, Some(log[p].id), log[p].at - cfg.StallGrace())
      ensures RecreateBefore(log[q], log[p].key, log[p].at - cfg.StallGrace())
    {
      assert log[..p][q] == log[q];
    }
  }

  /** Two or more recreates of a key take more than one grace period each after the first,
      whatever happens between. */
  lemma {:induction false} RecreateRate(cfg: Config, start: Time, log: Log, key: Key, ps: seq<nat>)
    requires IsLog(cfg, start, log) && ps != []
    requires forall n :: 0 <= n < |ps| ==> ps[n] < |log| && log[ps[n]].Recreated? && log[ps[n]].key == key
    requires forall m, n :: 0 <= m < n < |ps| ==> ps[m] < ps[n]
    ensures log[ps[0]].at + (|ps| - 1) * cfg.StallGrace() <= log[ps[|ps| - 1]].at
    ensures |ps| > 1 ==> log[ps[0]].at + (|ps| - 1) * cfg.StallGrace() < log[ps[|ps| - 1]].at
    decreases |ps|
  {
    var n := |ps| - 1;
    if n > 0 {
      RecreateRate(cfg, start, log, key, ps[..n]);
      RecreateSafety(cfg, start, log, ps[n]);
      assert ps[n - 1] < ps[n] && log[ps[n - 1]].Recreated? && log[ps[n - 1]].key == log[ps[n]].key;
      OneMoreTime(n - 1, cfg.StallGrace());
    }
  }

  /** A struct made by a recreate and not successful since was recreated at that time. */
  lemma {:induction false} LastRecreateAt(log: Log, p: nat, n: nat)
    requires p < n <= |log| && log[p].Recreated?
    requires forall q :: p < q < n ==>
      !(log[q].Created? && log[q].id == log[p].id) &&
      !(log[q].Recreated? && log[q].id == log[p].id) &&
      !(log[q].CycleEnded? && log[q].id == log[p].id && log[q].outcome.Success?)
    ensures LastRecreate(log[..n], log[p].id) == log[p].at
  {
    assert Past(log[..n]) == log[..n - 1];
    if p < n - 1 {
      LastRecreateAt(log, p, n - 1);
    }
  }

  /** Each struct is created once and recreated from once. */
  lemma {:induction false} CreatedOnce(cfg: Config, start: Time, log: Log, p: nat, q: nat)
    requires IsLog(cfg, start, log) && p < q < |log| && log[p].Created? && log[q].Created?
    ensures log[p].id < log[q].id
  {
    LogOfRun(cfg, start, log);
    JustifiedAt(cfg, start, log, q);
    assert log[..q][p] == log[p];
  }

  /** The same for the struct that a recreate made. */
  lemma StructBackoff(cfg: Config, start: Time, log: Log, p: nat, q: nat)
    requires IsLog(cfg, start, log) && p < q < |log| && log[p].Recreated? && log[q].Recreated?
    requires log[q].previous == log[p].id
    requires forall n :: p < n < q ==> !(log[n].CycleEnded? && log[n].id == log[p].id && log[n].outcome.Success?)
    ensures log[p].at + cfg.Backoff() <= log[q].at
  {
    LogOfRun(cfg, start, log);
    JustifiedAt(cfg, start, log, q);
    JustifiedAt(cfg, start, log, p);
    HolderWasCreated(log[..p], log[p].key, log[p].id);
    var c :| 0 <= c < p && log[..p][c].Created? && log[..p][c].id == log[p].id && log[..p][c].key == log[p].key;
    forall n | p < n < q
      ensures !(log[n].Created? && log[n].id == log[p].id)
      ensures !(log[n].Recreated? && log[n].id == log[p].id)
    {
      JustifiedAt(cfg, start, log, n);
      assert log[..n][c] == log[c] && log[..n][p] == log[p];
    }
    LastRecreateAt(log, p, q);
  }

  /** What is registered was created. */
  lemma {:induction false} HolderWasCreated(log: Log, key: Key, id: nat)
    requires Holder(log, key) == Some(id)
    ensures exists p :: 0 <= p < |log| && log[p].Created? && log[p].id == id && log[p].key == key
    decreases |log|
  {
    if Last(log).Created? && Last(log).key == key {
      assert log[|log| - 1].Created?;
    } else {
      HolderWasCreated(Past(log), key, id);
      var p :| 0 <= p < |Past(log)| && Past(log)[p].Created? && Past(log)[p].id == id && Past(log)[p].key == key;
      assert log[p] == Past(log)[p];
    }
  }

  /** Between p and q, jobs of key are created only by the watchdog: no config restart. */
  ghost predicate OnlyRecreates(log: Log, key: Key, p: nat, q: nat)
    requires q < |log|
  {
    forall n :: p < n < q && log[n].Created? && log[n].key == key ==> log[n + 1].Recreated? && log[n + 1].key == key
  }

  /** Between p and q, the registered job of key has no success. */
  ghost predicate NoSuccess(log: Log, key: Key, p: nat, q: nat)
    requires q < |log|
  {
    forall n :: p < n < q && log[n].CycleEnded? && log[n].key == key && log[n].live ==> !log[n].outcome.Success?
  }

  /** Without a creation of key since n, who holds it now held it at n. */
  lemma {:induction false} HeldSince(log: Log, key: Key, id: nat, n: nat, m: nat)
    requires n <= m <= |log| && Holder(log[..m], key) == Some(id)
    requires forall i :: n <= i < m ==> !(log[i].Created? && log[i].key == key)
    ensures Holder(log[..n], key) == Some(id)
    decreases m
  {
    if n < m {
      assert Past(log[..m]) == log[..m - 1] && Last(log[..m]) == log[m - 1];
      HeldSince(log, key, id, n, m - 1);
    }
  }

  lemma NothingCreatedBetween(log: Log, key: Key, p: nat, q: nat)
    requires p < q < |log| && OnlyRecreates(log, key, p, q)
    requires forall n :: p < n < q ==> !(log[n].Recreated? && log[n].key == key)
    ensures forall n :: p < n < q - 1 ==> !(log[n].Created? && log[n].key == key)
  {
    forall n | p < n < q - 1
      ensures !(log[n].Created? && log[n].key == key)
    {
      var next := log[n + 1];
      assert !(next.Recreated? && next.key == key);
    }
  }

  /** The next recreate of a key replaces the job that the last one made, which has held
      the key since. */
  lemma NextReplacesLast(cfg: Config, start: Time, log: Log, p: nat, q: nat)
    requires IsLog(cfg, start, log) && p < q < |log| && log[p].Recreated? && log[q].Recreated?
    requires log[q].key == log[p].key && OnlyRecreates(log, log[p].key, p, q)
    requires forall n :: p < n < q ==> !(log[n].Recreated? && log[n].key == log[p].key)
    ensures log[q].previous == log[p].id && p < q - 2
    ensures forall n :: p < n <= q - 2 ==> Holder(log[..n], log[p].key) == Some(log[p].id)
  {
    var key := log[p].key;
    LogOfRun(cfg, start, log);
    JustifiedAt(cfg, start, log, p);
    JustifiedAt(cfg, start, log, q);
    JustifiedAt(cfg, start, log, q - 2);
    assert log[..q][q - 2] == log[q - 2] && log[..q][q - 1] == log[q - 1];
    assert Past(log[..p + 1]) == log[..p] && Last(log[..p + 1]) == log[p];
    NothingCreatedBetween(log, key, p, q);
    forall n | p < n <= q - 2
      ensures Holder(log[..n], key) == Some(log[q].previous)
    {
      HeldSince(log, key, log[q].previous, n, q - 2);
    }
  }

  /** Two recreates of a key are at least the backoff apart, unless its job succeeds or is
      restarted for its configuration in between. */
  lemma {:induction false} RecreateBackoff(cfg: Config, start: Time, log: Log, p: nat, q: nat)
    requires IsLog(cfg, start, log) && p < q < |log| && log[p].Recreated? && log[q].Recreated?
    requires log[q].key == log[p].key
    requires OnlyRecreates(log, log[p].key, p, q) && NoSuccess(log, log[p].key, p, q)
    ensures log[p].at + cfg.Backoff() <= log[q].at
    decreases q - p
  {
    if r :| p < r < q && log[r].Recreated? && log[r].key == log[p].key {
      RecreateBackoff(cfg, start, log, r, q);
      RecreateSafety(cfg, start, log, r);
    } else {
      NextReplacesLast(cfg, start, log, p, q);
      LogOfRun(cfg, start, log);
      JustifiedAt(cfg, start, log, q);
      assert log[..q][q - 2] == log[q - 2] && log[..q][q - 1] == log[q - 1];
      forall n | p < n < q
        ensures !(log[n].CycleEnded? && log[n].id == log[p].id && log[n].outcome.Success?)
      {
        JustifiedAt(cfg, start, log, n);
      }
      StructBackoff(cfg, start, log, p, q);
    }
  }

  // ---------------------------------------------------------------------------
  // Outages

  /** A lineage that last saw healthy targets has a cycle that recorded them. */
  lemma {:induction false} TargetsWereSeen(log: Log, id: nat)
    requires LastCheck(log, id) == Some(true)
    ensures exists p :: 0 <= p < |log| && log[p].SawTargets?
    decreases |log|
  {
    if Last(log).SawTargets? && Last(log).id == id {
      assert log[|log| - 1].SawTargets?;
    } else {
      TargetsWereSeen(Past(log), if Last(log).Recreated? && Last(log).id == id then Last(log).previous else id);
      var p :| 0 <= p < |Past(log)| && Past(log)[p].SawTargets?;
      assert log[p].SawTargets?;
    }
  }

  /** As long as no cycle finds a healthy target, nothing is recreated or restarted. */
  lemma OutageIsLeftAlone(cfg: Config, start: Time, log: Log, p: nat)
    requires IsLog(cfg, start, log) && p < |log|
    requires forall q :: 0 <= q < p ==> !log[q].SawTargets?
    ensures !log[p].Recreated? && !log[p].Exited?
  {
    LogOfRun(cfg, start, log);
    JustifiedAt(cfg, start, log, p);
    if log[p].Recreated? {
      TargetsWereSeen(log[..p], log[p].previous);
    } else if log[p].Exited? {
      TargetsWereSeen(log[..p], log[p].id);
    }
  }

  // ---------------------------------------------------------------------------
  // The life of a job

  /** A stop channel is open exactly while its job is registered, and what is registered
      is what the log says was created and not stopped since. */
  lemma OpenWhileRegistered(cfg: Config, start: Time, es: seq<Event>, ss: seq<State>, i: nat, id: nat)
    requires IsRun(cfg, start, es, ss) && i < |ss| && id < |ss[i].store|
    ensures var key := KeyOf(ss[i].store[id].access);
      ss[i].store[id].stopOpen <==> Holder(ss[i].log, key) == Some(id)
  {
    RunKeepsInvariant(cfg, start, es, ss, i);
    assert ss[i].store[id].stopOpen <==> Live(ss[i], id);
  }

  /** A job is only ever registered under a key that has none. */
  lemma NothingIsOverwritten(cfg: Config, start: Time, log: Log, p: nat)
    requires IsLog(cfg, start, log) && p < |log| && log[p].Created?
    ensures Holder(log[..p], log[p].key) == None
  {
    LogOfRun(cfg, start, log);
    JustifiedAt(cfg, start, log, p);
  }

  lemma SameCreation(cfg: Config, start: Time, log: Log, p: nat, key: Key, key': Key, id: nat)
    requires IsLog(cfg, start, log) && p <= |log|
    requires Holder(log[..p], key) == Some(id) && Holder(log[..p], key') == Some(id)
    ensures key == key'
  {
    HolderWasCreated(log[..p], key, id);
    HolderWasCreated(log[..p], key', id);
    var c :| 0 <= c < p && log[..p][c].Created? && log[..p][c].id == id && log[..p][c].key == key;
    var d :| 0 <= d < p && log[..p][d].Created? && log[..p][d].id == id && log[..p][d].key == key';
    if c < d {
      CreatedOnce(cfg, start, log, c, d);
    } else if d < c {
      CreatedOnce(cfg, start, log, d, c);
    }
  }

  /** A stopped struct is never registered again, under any key. */
  lemma {:induction false} StoppedForGood(cfg: Config, start: Time, log: Log, p: nat, n: nat, key: Key)
    requires IsLog(cfg, start, log) && p < n <= |log| && log[p].Stopped?
    ensures Holder(log[..n], key) != Some(log[p].id)
    decreases n
  {
    LogOfRun(cfg, start, log);
    var id := log[p].id;
    assert Past(log[..n]) == log[..n - 1] && Last(log[..n]) == log[n - 1];
    if n == p + 1 {
      JustifiedAt(cfg, start, log, p);
      if key != log[p].key && Holder(log[..p], key) == Some(id) {
        SameCreation(cfg, start, log, p, key, log[p].key, id);
      }
    } else {
      StoppedForGood(cfg, start, log, p, n - 1, key);
      JustifiedAt(cfg, start, log, p);
      HolderWasCreated(log[..p], log[p].key, id);
      var c :| 0 <= c < p && log[..p][c].Created? && log[..p][c].id == id && log[..p][c].key == log[p].key;
      if log[n - 1].Created? {
        CreatedOnce(cfg, start, log, c, n - 1);
      }
    }
  }

  /** No stop channel is closed twice. */
  lemma StoppedOnce(cfg: Config, start: Time, log: Log, p: nat, q: nat)
    requires IsLog(cfg, start, log) && p < q < |log| && log[p].Stopped? && log[q].Stopped?
    ensures log[p].id != log[q].id
  {
    LogOfRun(cfg, start, log);
    JustifiedAt(cfg, start, log, q);
    StoppedForGood(cfg, start, log, p, q, log[q].key);
  }

  // ---------------------------------------------------------------------------
  // What the fields of a job mean

  /** The health fields of a struct, registered or not, are folds of its own cycles. */
  lemma HealthFields(cfg: Config, start: Time, es: seq<Event>, ss: seq<State>, i: nat, id: nat)
    requires IsRun(cfg, start, es, ss) && i < |ss| && id < |ss[i].store|
    ensures
      var j, cycles := ss[i].store[id], Cycles(ss[i].log, id);
      && j.consecutiveEmpty == EmptySuffix(cycles)
      && j.successCount == Successes(cycles)
      && j.metricsCount == SeriesSum(cycles)
      && j.failureCount == TargetFailures(ss[i].log, id) + SendFailures(cycles)
      && (j.lastSucceeded <==> cycles != [] && j.consecutiveEmpty == 0)
      && j.lastClean == LastCleanAt(ss[i].log, id)
      && j.lastSuccess <= j.lastClean
      && (j.lastClean != 0 && j.stalledSince != 0 ==> j.lastClean + cfg.StallGrace() < j.stalledSince)
  {
    RunKeepsInvariant(cfg, start, es, ss, i);
    assert JobTimed(cfg, start, ss[i].clock, ss[i].store[id]);
    assert TracksCycles(ss[i].log, id, ss[i].store[id]);
    assert TracksLineage(cfg, start, ss[i].log, id, ss[i].store[id]);
  }

  /** The throttle fields are folds of the lineage: what is carried across recreates,
      what a success clears, and what any clean cycle clears. Each recreate of a lineage
      costs it at least one grace period since its origin. */
  lemma LineageFields(cfg: Config, start: Time, es: seq<Event>, ss: seq<State>, i: nat, id: nat)
    requires IsRun(cfg, start, es, ss) && i < |ss| && id < |ss[i].store|
    ensures
      var j, log := ss[i].store[id], ss[i].log;
      && (j.lastHadTargets <==> LastCheck(log, id) == Some(true))
      && j.recreateCount == Depth(log, id)
      && j.lastRecreateAt == LastRecreate(log, id)
      && j.stalledSince == StallStart(log, id)
      && Origin(log, id) + j.recreateCount * cfg.StallGrace() <= j.createdAt
  {
    RunKeepsInvariant(cfg, start, es, ss, i);
    assert TracksLineage(cfg, start, ss[i].log, id, ss[i].store[id]);
    TimesIsProduct(Depth(ss[i].log, id), cfg.StallGrace());
  }
}
