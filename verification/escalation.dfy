/** A persistently failing job drives the last-resort restart within a bounded time,
    although every recreate resets its creation time. */
module Escalation {
  import opened MetricApi
  import opened JobHealth
  import opened ControllerSteps
  import opened ControllerRuns
  import opened ControllerFrames
  import opened SweepLaws

  /** A stretch of a run, from state from to state upTo, seen from one key. */
  datatype Stretch = Stretch(
    cfg: Config,
    es: seq<Event>,
    ss: seq<State>,
    from: nat,
    upTo: nat,
    key: Key,
    createdAt: Time,
    period: int,
    delay: int)
  {
    ghost predicate Shaped() {
      && |ss| == |es| + 1
      && from <= upTo <= |es|
      && (forall i :: from <= i < upTo ==> Next(cfg, ss[i], es[i], ss[i + 1]))
    }

    predicate IsSweep(i: int) {
      from <= i < upTo <= |es| && es[i].Sweep?
    }

    /** Event i is a sweep that exits the process. */
    ghost predicate ExitsAt(i: int)
      requires Shaped()
    {
      IsSweep(i) && Next(cfg, ss[i], es[i], ss[i + 1]) &&
      SweepFrom(cfg, ss[i], es[i].now, es[i].keys, es[i].clk).exited
    }

    /** No cycle of the registered job is clean, and nothing but the watchdog restarts it. */
    ghost predicate Failing()
      requires Shaped()
    {
      forall i :: from <= i < upTo ==>
        && !CleansKey(ss[i], es[i], key)
        && (!es[i].Sweep? ==> KeepsStruct(ss[i], ss[i + 1], key))
    }

    /** Once the job is past the stall grace, each sweep finds a healthy target recorded. */
    ghost predicate Reachable()
      requires Shaped()
    {
      forall i :: IsSweep(i) && createdAt + cfg.StallGrace() < es[i].now ==>
        key in ss[i].jobs ==> ss[i].jobs[key] < |ss[i].store| ==> JobOf(ss[i], key).lastHadTargets
    }

    /** Sweeps read the clock in order, and take at most delay. */
    ghost predicate SweepsInOrder()
      requires Shaped()
    {
      && (forall i, j :: IsSweep(i) && IsSweep(j) && i < j ==> es[i].now <= es[j].now)
      && (forall i, n :: IsSweep(i) && 0 <= n < |es[i].clk| ==> es[i].clk[n] <= es[i].now + delay)
    }

    function Deadline(): Time {
      createdAt + 2 * cfg.StallGrace() + cfg.RestartGrace() + 2 * period + delay
    }

    /** Until the deadline, a sweep happens within every period. */
    ghost predicate SweepsOften()
      requires Shaped()
    {
      forall t :: createdAt <= t <= Deadline() - period ==> SweepSoonAfter(t)
    }

    ghost predicate SweepSoonAfter(t: Time)
      requires Shaped()
    {
      exists i :: IsSweep(i) && t < es[i].now <= t + period
    }

    /** The restart is enabled, this replica leads, and none happened before. */
    ghost predicate RestartPossible()
      requires Shaped()
    {
      && cfg.RestartEnabled()
      && ss[from].lastSelfRestartAt == 0
      && (forall i :: IsSweep(i) ==> ss[i].isLeader)
    }

    /** The job of key has just been created. */
    ghost predicate JustCreated()
      requires Shaped()
    {
      && key in ss[from].jobs
      && KeyOk(ss[from], key)
      && exists ma :: JobOf(ss[from], key) == NewJob(ma, createdAt)
    }

    ghost predicate Premises() {
      && Shaped() && JustCreated() && Failing() && Reachable()
      && SweepsInOrder() && SweepsOften() && RestartPossible()
      && 0 < createdAt && 0 < period && 0 <= delay
    }
  }

  ghost predicate QuietUntil(x: Stretch, n: int)
    requires x.Shaped()
  {
    forall i :: x.IsSweep(i) && i < n ==> !x.ExitsAt(i)
  }

  /** The job before the first sweep that sees it stalled. */
  predicate Untouched(j: Job, createdAt: Time) {
    && WantsJob(j.access) && j.createdAt == createdAt && j.lastClean == 0 && j.stalledSince == 0
    && j.recreateCount == 0 && j.lastRecreateAt == 0
  }

  /** The job after its first recreate, at time seen. */
  predicate Armed(x: Stretch, j: Job, seen: Time) {
    && WantsJob(j.access) && j.lastClean == 0 && j.stalledSince == seen && j.recreateCount >= 1
    && 0 < j.createdAt <= seen + x.cfg.RestartGrace() + x.delay
  }

  ghost predicate Holds(x: Stretch, i: int)
    requires x.Shaped() && x.from <= i <= x.upTo
  {
    x.key in x.ss[i].jobs && KeyOk(x.ss[i], x.key) && x.ss[i].lastSelfRestartAt == 0
  }

  /** Between sweeps nothing happens to the timers. */
  lemma Between(x: Stretch, i: int)
    requires x.Premises() && x.from <= i < x.upTo && !x.es[i].Sweep? && Holds(x, i)
    ensures Holds(x, i + 1)
    ensures SameTimers(JobOf(x.ss[i], x.key), JobOf(x.ss[i + 1], x.key))
  {
    assert Next(x.cfg, x.ss[i], x.es[i], x.ss[i + 1]);
    assert KeepsStruct(x.ss[i], x.ss[i + 1], x.key);
    if x.es[i].EndCycle? {
      CycleTimersKept(x.cfg, x.ss[i], x.es[i], x.ss[i + 1], x.key);
    } else {
      TimersKept(x.cfg, x.ss[i], x.es[i], x.ss[i + 1], x.key);
    }
    assert KeyOk(x.ss[i], x.key);
  }

  /** Sweeps that do not yet see the job stalled leave it untouched. */
  lemma {:induction false} UntouchedUntil(x: Stretch, n: int)
    requires x.Premises() && x.from <= n <= x.upTo && QuietUntil(x, n)
    requires forall i :: x.IsSweep(i) && i < n ==> x.es[i].now <= x.createdAt + x.cfg.StallGrace()
    ensures Holds(x, n) && Untouched(JobOf(x.ss[n], x.key), x.createdAt)
    decreases n
  {
    if n > x.from {
      var i := n - 1;
      UntouchedUntil(x, i);
      if x.es[i].Sweep? {
        assert x.IsSweep(i) && !x.ExitsAt(i);
        assert Next(x.cfg, x.ss[i], x.es[i], x.ss[i + 1]);
        var at := SweepSeen(x.cfg, x.ss[i], x.es[i], x.ss[i + 1], x.key);
      } else {
        Between(x, i);
      }
    }
  }

  /** The first sweep past the stall grace recreates the job. */
  lemma FirstStalledSweep(x: Stretch, i: int)
    requires x.Premises() && x.IsSweep(i) && QuietUntil(x, i + 1)
    requires Holds(x, i) && Untouched(JobOf(x.ss[i], x.key), x.createdAt)
    requires x.createdAt + x.cfg.StallGrace() < x.es[i].now
    ensures Holds(x, i + 1) && Armed(x, JobOf(x.ss[i + 1], x.key), x.es[i].now)
  {
    assert !x.ExitsAt(i) && Next(x.cfg, x.ss[i], x.es[i], x.ss[i + 1]);
    var at := SweepSeen(x.cfg, x.ss[i], x.es[i], x.ss[i + 1], x.key);
    ReadingOf(x, i, at);
  }

  lemma ReadingOf(x: Stretch, i: int, at: Time)
    requires x.Premises() && x.IsSweep(i) && at in x.es[i].clk
    ensures x.es[i].now <= at <= x.es[i].now + x.delay
  {
    var n :| 0 <= n < |x.es[i].clk| && x.es[i].clk[n] == at;
    assert Next(x.cfg, x.ss[i], x.es[i], x.ss[i + 1]);
  }

  /** A job stalled past the restart grace makes the sweep exit. */
  lemma StalledExits(x: Stretch, i: int, seen: Time)
    requires x.Premises() && x.IsSweep(i) && Holds(x, i)
    requires Armed(x, JobOf(x.ss[i], x.key), seen) && x.createdAt + x.cfg.StallGrace() < seen
    requires Stalled(x.cfg, JobOf(x.ss[i], x.key), x.es[i].now)
    requires seen + x.cfg.RestartGrace() < x.es[i].now
    ensures x.ExitsAt(i)
  {
    assert Next(x.cfg, x.ss[i], x.es[i], x.ss[i + 1]);
    SweepIsReady(x.cfg, x.ss[i], x.es[i].now, x.es[i].keys, x.es[i].clk);
    SweepExitsIff(x.cfg, x.ss[i], x.es[i].now, x.es[i].keys, x.es[i].clk);
    assert JobOf(x.ss[i], x.key).lastHadTargets;
    assert x.key in x.es[i].keys && Due(x.cfg, x.ss[i], x.key, x.es[i].now);
  }

  /** Recreates keep the job armed; none happens once the restart grace is over. */
  lemma {:induction false} ArmedUntil(x: Stretch, m: int, n: int, seen: Time)
    requires x.Premises() && x.from <= m <= n <= x.upTo && QuietUntil(x, n)
    requires Holds(x, m) && Armed(x, JobOf(x.ss[m], x.key), seen)
    requires x.createdAt + x.cfg.StallGrace() < seen
    ensures Holds(x, n) && Armed(x, JobOf(x.ss[n], x.key), seen)
    decreases n
  {
    if n > m {
      var i := n - 1;
      ArmedUntil(x, m, i, seen);
      if x.es[i].Sweep? {
        assert x.IsSweep(i) && !x.ExitsAt(i);
        assert Next(x.cfg, x.ss[i], x.es[i], x.ss[i + 1]);
        var j := JobOf(x.ss[i], x.key);
        if Stalled(x.cfg, j, x.es[i].now) && seen + x.cfg.RestartGrace() < x.es[i].now {
          StalledExits(x, i, seen);
          assert false;
        } else {
          var at := SweepSeen(x.cfg, x.ss[i], x.es[i], x.ss[i + 1], x.key);
          if Stalled(x.cfg, j, x.es[i].now) {
            ReadingOf(x, i, at);
          }
        }
      } else {
        Between(x, i);
      }
    }
  }

  lemma FirstPast(x: Stretch, t: Time, i: int) returns (a: int)
    requires x.Shaped() && x.IsSweep(i) && t < x.es[i].now
    ensures x.from <= a <= i && x.IsSweep(a) && t < x.es[a].now
    ensures forall n :: x.IsSweep(n) && n < a ==> x.es[n].now <= t
  {
    a := x.from;
    while !(x.es[a].Sweep? && t < x.es[a].now)
      invariant x.from <= a <= i
      invariant forall n :: x.IsSweep(n) && n < a ==> x.es[n].now <= t
      decreases i - a
    {
      a := a + 1;
    }
  }

  lemma SweepSoon(x: Stretch, t: Time) returns (i: int)
    requires x.Premises() && x.createdAt <= t <= x.Deadline() - x.period
    ensures x.IsSweep(i) && t < x.es[i].now <= t + x.period
  {
    assert x.SweepSoonAfter(t);
    i :| x.IsSweep(i) && t < x.es[i].now <= t + x.period;
  }

  /** Sweep f comes a restart grace, a stall grace and the longest sweep after sweep a,
      the first to see the job stalled. */
  lemma ExitsBy(x: Stretch, a: int, f: int)
    requires x.Premises() && x.IsSweep(a) && x.IsSweep(f) && a < f
    requires x.createdAt + x.cfg.StallGrace() < x.es[a].now
    requires forall n :: x.IsSweep(n) && n < a ==> x.es[n].now <= x.createdAt + x.cfg.StallGrace()
    requires x.es[a].now + x.cfg.RestartGrace() + x.cfg.StallGrace() + x.delay < x.es[f].now
    ensures exists i :: i <= f && x.ExitsAt(i)
  {
    if QuietUntil(x, f) {
      UntouchedUntil(x, a);
      FirstStalledSweep(x, a);
      ArmedUntil(x, a + 1, f, x.es[a].now);
      StalledExits(x, f, x.es[a].now);
    }
  }

  /** The first sweep past the stall grace comes within a period. */
  lemma FirstStalled(x: Stretch) returns (a: int)
    requires x.Premises()
    ensures x.IsSweep(a) && 0 < x.es[a].now - (x.createdAt + x.cfg.StallGrace()) <= x.period
    ensures forall n :: x.IsSweep(n) && n < a ==> x.es[n].now <= x.createdAt + x.cfg.StallGrace()
  {
    var t := x.createdAt + x.cfg.StallGrace();
    var i := SweepSoon(x, t);
    a := FirstPast(x, t, i);
    assert x.es[a].now <= x.es[i].now;
  }

  /** A job that is created and then never has a clean cycle, with healthy targets, leads
      to a restart of the process (for this job or another) by the deadline: two stall
      graces, the restart grace, two sweep periods and the longest sweep after creation. */
  lemma BoundedEscalation(x: Stretch)
    requires x.Premises()
    ensures exists i :: x.ExitsAt(i) && x.es[i].now <= x.Deadline()
  {
    var a := FirstStalled(x);
    var f := SweepSoon(x, x.es[a].now + x.cfg.RestartGrace() + x.cfg.StallGrace() + x.delay);
    ExitsBy(x, a, f);
    var i :| i <= f && x.ExitsAt(i);
    assert x.es[i].now <= x.es[f].now;
  }
}
