/** The real exit ends the process: its runs are those in which nothing follows the sweep
    that exits. */
module ProcessEnd {
  import opened MetricApi
  import opened JobHealth
  import opened ControllerSteps
  import opened History
  import opened ControllerRuns
  import opened SweepLaws
  import opened ControllerFrames

  /** Event e from s to s' is a sweep that exits. */
  ghost predicate Exiting(cfg: Config, s: State, e: Event, s': State) {
    e.Sweep? && Next(cfg, s, e, s') && SweepFrom(cfg, s, e.now, e.keys, e.clk).exited
  }

  /** A run in which at most the last event exits. */
  ghost predicate IsProcess(cfg: Config, start: Time, es: seq<Event>, ss: seq<State>) {
    && IsRun(cfg, start, es, ss)
    && forall i :: 0 <= i < |es| - 1 ==> !Exiting(cfg, ss[i], es[i], ss[i + 1])
  }

  lemma OtherEventsDoNotRestart(cfg: Config, s: State, e: Event, s': State)
    requires Next(cfg, s, e, s') && !e.Sweep?
    ensures s'.selfRestartTotal == s.selfRestartTotal
  {
    if e.ReconcileTo? {
      ReconcileKept(s, e.items, e.clk, e.leftovers);
    } else if e.StopAll? {
      StopKeysKept(s, e.keys);
    }
  }

  lemma EventRestarts(cfg: Config, s: State, e: Event, s': State)
    requires Next(cfg, s, e, s')
    ensures s'.selfRestartTotal == s.selfRestartTotal + (if Exiting(cfg, s, e, s') then 1 else 0)
  {
    if e.Sweep? {
      SweepIsReady(cfg, s, e.now, e.keys, e.clk);
      SweepExitsIff(cfg, s, e.now, e.keys, e.clk);
    } else {
      OtherEventsDoNotRestart(cfg, s, e, s');
    }
  }

  lemma {:induction false} ExitIsLast(cfg: Config, s: State, now: Time, keys: seq<Key>, clk: seq<Time>)
    requires SweepReady(cfg, s, now, keys, clk) && SweepFrom(cfg, s, now, keys, clk).exited
    ensures var log := SweepFrom(cfg, s, now, keys, clk).state.log; log != [] && Last(log).Exited?
    decreases |keys|
  {
    var r := SweepKey(cfg, s, keys[0], now, clk[0]);
    if !r.exited {
      SweepReadyRest(cfg, s, now, keys, clk);
      ExitIsLast(cfg, r.state, now, keys[1..], clk[1..]);
    }
  }

  lemma {:induction false} NoRestartBefore(cfg: Config, start: Time, es: seq<Event>, ss: seq<State>, i: nat)
    requires IsProcess(cfg, start, es, ss) && i < |es|
    ensures ss[i].selfRestartTotal == 0
  {
    if i > 0 {
      NoRestartBefore(cfg, start, es, ss, i - 1);
      assert Next(cfg, ss[i - 1], es[i - 1], ss[i]);
      EventRestarts(cfg, ss[i - 1], es[i - 1], ss[i]);
    }
  }

  /** With the real exit, a process restarts at most once: its log contains a restart iff
      its last event is a sweep that exits, and then the restart is its very last entry. */
  lemma ProcessExitsOnce(cfg: Config, start: Time, es: seq<Event>, ss: seq<State>)
    requires IsProcess(cfg, start, es, ss) && es != []
    ensures var n := |es|; var log := ss[n].log;
      && Exits(log) == (if Exiting(cfg, ss[n - 1], es[n - 1], ss[n]) then 1 else 0)
      && (Exits(log) == 1 ==> log != [] && Last(log).Exited?)
  {
    var n := |es|;
    var s, e := ss[n - 1], es[n - 1];
    NoRestartBefore(cfg, start, es, ss, n - 1);
    assert Next(cfg, s, e, ss[n]);
    EventRestarts(cfg, s, e, ss[n]);
    RunKeepsInvariant(cfg, start, es, ss, n);
    if Exiting(cfg, s, e, ss[n]) {
      SweepIsReady(cfg, s, e.now, e.keys, e.clk);
      ExitIsLast(cfg, s, e.now, e.keys, e.clk);
    }
  }
}
