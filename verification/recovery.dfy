/** Without the restart, the watchdog does not give up: a job that keeps failing although
    its targets are healthy is recreated again and again, in bounded time each. */
module Recovery {
  import opened MetricApi
  import opened JobHealth
  import opened ControllerSteps
  import opened ControllerRuns
  import opened ControllerFrames
  import opened SweepLaws
  import opened SweepOutcome
  import opened Escalation

  /** Sweep i recreates the job registered under the key. */
  ghost predicate RecreatesAt(x: Stretch, i: int)
    requires x.Shaped()
  {
    && x.IsSweep(i) && x.key in x.ss[i].jobs
    && WasRecreated(x.ss[i].log, x.ss[i + 1].log, x.key, x.ss[i].jobs[x.key], x.es[i].now)
  }

  /** The job keeps failing, the restart is not enabled, and every sweep finds a healthy
      target recorded for it. */
  ghost predicate KeepsFailing(x: Stretch) {
    && x.Shaped() && x.Failing() && x.SweepsInOrder()
    && x.cfg.selfHealPodRestart != Some(true)
    && 0 < x.period && 0 <= x.delay
    && forall i :: x.IsSweep(i) && x.key in x.ss[i].jobs && x.ss[i].jobs[x.key] < |x.ss[i].store| ==>
         JobOf(x.ss[i], x.key).lastHadTargets
  }

  ghost predicate Registered(x: Stretch, i: int)
    requires x.Shaped()
  {
    0 <= i < |x.ss| && KeyOk(x.ss[i], x.key)
  }

  ghost predicate NoRecreate(x: Stretch, n: int)
    requires x.Shaped()
  {
    forall i :: x.IsSweep(i) && i < n ==> !RecreatesAt(x, i)
  }

  /** The same struct, as far as the next recreate depends on it. */
  predicate Waits(j: Job, j': Job) {
    && j'.access == j.access
    && j'.createdAt == j.createdAt
    && j'.lastClean == j.lastClean
    && j'.lastRecreateAt == j.lastRecreateAt
  }

  lemma NoExit(x: Stretch, i: int)
    requires KeepsFailing(x) && x.IsSweep(i)
    ensures Next(x.cfg, x.ss[i], x.es[i], x.ss[i + 1])
    ensures !SweepFrom(x.cfg, x.ss[i], x.es[i].now, x.es[i].keys, x.es[i].clk).exited
  {
    assert Next(x.cfg, x.ss[i], x.es[i], x.ss[i + 1]);
    SweepIsReady(x.cfg, x.ss[i], x.es[i].now, x.es[i].keys, x.es[i].clk);
    SweepExitsIff(x.cfg, x.ss[i], x.es[i].now, x.es[i].keys, x.es[i].clk);
  }

  /** A sweep recreates the job if it is stalled and the backoff is over; otherwise the
      struct stays. */
  lemma SweepTries(x: Stretch, i: int)
    requires KeepsFailing(x) && x.IsSweep(i) && Registered(x, i)
    ensures Registered(x, i + 1)
    ensures var j, now := JobOf(x.ss[i], x.key), x.es[i].now;
      && (Stalled(x.cfg, j, now) && !Throttled(x.cfg, j, now) ==> RecreatesAt(x, i))
      && (!RecreatesAt(x, i) ==> Waits(j, JobOf(x.ss[i + 1], x.key)))
  {
    var s, e := x.ss[i], x.es[i];
    NoExit(x, i);
    SweepIsReady(x.cfg, s, e.now, e.keys, e.clk);
    var at := SweepSeen(x.cfg, s, e, x.ss[i + 1], x.key);
    if x.key in e.keys {
      SweepVisits(x.cfg, s, e.now, e.keys, e.clk, x.key);
    }
  }

  lemma BetweenSweeps(x: Stretch, i: int)
    requires KeepsFailing(x) && x.from <= i < x.upTo && !x.es[i].Sweep? && Registered(x, i)
    ensures Registered(x, i + 1) && Waits(JobOf(x.ss[i], x.key), JobOf(x.ss[i + 1], x.key))
  {
    assert Next(x.cfg, x.ss[i], x.es[i], x.ss[i + 1]);
    assert KeepsStruct(x.ss[i], x.ss[i + 1], x.key);
    if x.es[i].EndCycle? {
      CycleTimersKept(x.cfg, x.ss[i], x.es[i], x.ss[i + 1], x.key);
    } else {
      TimersKept(x.cfg, x.ss[i], x.es[i], x.ss[i + 1], x.key);
    }
    assert KeyOk(x.ss[i], x.key);
  }

  /** Event i leaves the job waiting. */
  ghost predicate LeavesWaiting(x: Stretch, i: int)
    requires x.Shaped()
  {
    Registered(x, i) ==> Registered(x, i + 1) && Waits(JobOf(x.ss[i], x.key), JobOf(x.ss[i + 1], x.key))
  }

  lemma OneEventWaits(x: Stretch, i: int)
    requires KeepsFailing(x) && x.from <= i < x.upTo && NoRecreate(x, i + 1)
    ensures LeavesWaiting(x, i)
  {
    if Registered(x, i) {
      if x.es[i].Sweep? {
        assert x.IsSweep(i);
        SweepTries(x, i);
      } else {
        BetweenSweeps(x, i);
      }
    }
  }

  lemma {:induction false} StillWaiting(x: Stretch, n: int)
    requires x.Shaped() && x.from <= n <= x.upTo && Registered(x, x.from)
    requires forall i :: x.from <= i < n ==> LeavesWaiting(x, i)
    ensures Registered(x, n) && Waits(JobOf(x.ss[x.from], x.key), JobOf(x.ss[n], x.key))
    decreases n
  {
    if n > x.from {
      StillWaiting(x, n - 1);
      assert LeavesWaiting(x, n - 1);
    }
  }

  /** Until it is recreated, the job waits. */
  lemma WaitsUntil(x: Stretch, n: int)
    requires KeepsFailing(x) && x.from <= n <= x.upTo && Registered(x, x.from) && NoRecreate(x, n)
    ensures Registered(x, n) && Waits(JobOf(x.ss[x.from], x.key), JobOf(x.ss[n], x.key))
  {
    forall i | x.from <= i < n
      ensures LeavesWaiting(x, i)
    {
      OneEventWaits(x, i);
    }
    StillWaiting(x, n);
  }

  /** When the job of the first state is next due for a recreate. */
  function DueAt(cfg: Config, j: Job): Time {
    var stalled := (if j.lastClean == 0 then j.createdAt else j.lastClean) + cfg.StallGrace();
    if j.lastRecreateAt != 0 && stalled < j.lastRecreateAt + cfg.Backoff() then j.lastRecreateAt + cfg.Backoff()
    else stalled
  }

  /** A job that keeps failing is recreated within a sweep period after the later of the
      end of its stall grace and the end of its backoff. */
  lemma FailingIsRecreated(x: Stretch)
    requires KeepsFailing(x) && Registered(x, x.from)
    requires var j := JobOf(x.ss[x.from], x.key); j.createdAt != 0 && (j.lastClean == 0 || j.createdAt <= j.lastClean)
    requires x.SweepSoonAfter(DueAt(x.cfg, JobOf(x.ss[x.from], x.key)))
    ensures exists i :: RecreatesAt(x, i) && x.es[i].now <= DueAt(x.cfg, JobOf(x.ss[x.from], x.key)) + x.period
  {
    var t := DueAt(x.cfg, JobOf(x.ss[x.from], x.key));
    var w :| x.IsSweep(w) && t < x.es[w].now <= t + x.period;
    var a := FirstPast(x, t, w);
    assert x.es[a].now <= x.es[w].now;
    if NoRecreate(x, a) {
      WaitsUntil(x, a);
      SweepTries(x, a);
      assert RecreatesAt(x, a);
    } else {
      var i :| x.IsSweep(i) && i < a && RecreatesAt(x, i);
      assert x.es[i].now <= t;
    }
  }

  /** What a recreate leaves behind. */
  lemma AfterRecreate(x: Stretch, a: int)
    requires KeepsFailing(x) && RecreatesAt(x, a) && Registered(x, a)
    ensures Registered(x, a + 1)
    ensures var j, now := JobOf(x.ss[a + 1], x.key), x.es[a].now;
      && j.lastClean == 0 && j.lastRecreateAt == now
      && 0 < now <= j.createdAt <= now + x.delay
  {
    var s, e := x.ss[a], x.es[a];
    NoExit(x, a);
    SweepIsReady(x.cfg, s, e.now, e.keys, e.clk);
    if x.key in e.keys {
      SweepVisits(x.cfg, s, e.now, e.keys, e.clk, x.key);
    } else {
      RestPassesBy(x.cfg, s, e.now, e.keys, e.clk, x.key);
    }
    var at := SweepSeen(x.cfg, s, e, x.ss[a + 1], x.key);
    var n :| 0 <= n < |e.clk| && e.clk[n] == at;
  }

  function Longer(a: int, b: int): int {
    if a < b then b else a
  }

  lemma DueSoon(x: Stretch, a: int) returns (t: Time)
    requires KeepsFailing(x) && RecreatesAt(x, a) && Registered(x, a)
    ensures Registered(x, a + 1) && JobOf(x.ss[a + 1], x.key).createdAt != 0 && JobOf(x.ss[a + 1], x.key).lastClean == 0
    ensures t == DueAt(x.cfg, JobOf(x.ss[a + 1], x.key))
    ensures 0 < t - x.es[a].now <= Longer(x.cfg.StallGrace(), x.cfg.Backoff()) + x.delay
  {
    AfterRecreate(x, a);
    t := DueAt(x.cfg, JobOf(x.ss[a + 1], x.key));
  }

  /** The counterpart of RecreateRate: a job that keeps failing is recreated again within
      the longer of stall grace and backoff, a sweep period and the longest sweep. */
  lemma RecreatedAgain(x: Stretch, a: int)
    requires KeepsFailing(x) && RecreatesAt(x, a) && Registered(x, a)
    requires forall t :: 0 < t - x.es[a].now <= Longer(x.cfg.StallGrace(), x.cfg.Backoff()) + x.delay ==>
      x.SweepSoonAfter(t)
    ensures var limit := x.es[a].now + Longer(x.cfg.StallGrace(), x.cfg.Backoff()) + x.period + x.delay;
      exists b :: RecreatesAt(x, b) && a < b && x.es[b].now <= limit
  {
    var t := DueSoon(x, a);
    assert x.SweepSoonAfter(t);
    LaterPart(x, a, t);
    var y := x.(from := a + 1);
    FailingIsRecreated(y);
    var b :| RecreatesAt(y, b) && y.es[b].now <= t + y.period;
    assert RecreatesAt(x, b);
  }

  /** The part of a stretch after sweep a. */
  lemma LaterPart(x: Stretch, a: int, t: Time)
    requires KeepsFailing(x) && x.IsSweep(a) && x.es[a].now < t && x.SweepSoonAfter(t)
    ensures var y := x.(from := a + 1); KeepsFailing(y) && y.SweepSoonAfter(t)
  {
    var y := x.(from := a + 1);
    assert forall i :: y.IsSweep(i) ==> x.IsSweep(i);
    var i :| x.IsSweep(i) && t < x.es[i].now <= t + x.period;
    assert i > a;
    assert y.IsSweep(i);
  }
}
