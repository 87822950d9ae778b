/** Does a restart always come after a recreate that failed to end the same stall? Exactly
    when two times that the job carries say so; RestartTrace has a run in which it does not. */
module StallEpisodes {
  import opened JobHealth
  import opened ControllerSteps
  import opened History
  import opened ControllerInvariant
  import opened ControllerSafety

  predicate BySweep(e: Entry) {
    e.SeenStalled? || e.Recreated? || e.Exited?
  }

  /** Sweeps run one after the other and their readings do not go back. */
  predicate SweepsInOrder(log: Log) {
    forall i, j :: 0 <= i < j < |log| && BySweep(log[i]) && BySweep(log[j]) ==> log[i].at <= log[j].at
  }

  lemma {:induction false} StallStartWasSeen(log: Log, id: nat) returns (i: nat)
    requires StallStart(log, id) != 0
    ensures i < |log| && log[i].SeenStalled? && log[i].at == StallStart(log, id)
    decreases |log|
  {
    i := |log| - 1;
    match Last(log) {
      case SeenStalled(k, _, _) =>
        if k != id {
          i := StallStartWasSeen(Past(log), id);
        }
      case Recreated(k, _, previous, _) => i := StallStartWasSeen(Past(log), if k == id then previous else id);
      case _ => i := StallStartWasSeen(Past(log), id);
    }
  }

  /** The two times that a job carries tell whether its current stall saw a recreate. */
  lemma {:induction false} RecreatedInStall(cfg: Config, start: Time, log: Log, id: nat)
    requires LogJustified(cfg, start, log) && SweepsInOrder(log)
    ensures StallStart(log, id) == 0 ==> StallRecreates(log, id) == 0
    ensures StallStart(log, id) != 0 ==> (StallRecreates(log, id) > 0 <==> LastRecreate(log, id) >= StallStart(log, id))
    decreases |log|
  {
    if log != [] {
      RecreatedInStall(cfg, start, Past(log), id);
      match Last(log) {
        case Recreated(k, _, previous, at) =>
          if k == id {
            var i := StallStartWasSeen(Past(log), previous);
            assert log[i] == Past(log)[i] && BySweep(log[i]) && BySweep(Last(log));
          }
        case _ =>
      }
    }
  }

  /** A restart comes after a recreate in the same stall if and only if the job's last
      recreate is not older than its stall. */
  lemma ExitFollowsRecreateIff(cfg: Config, start: Time, log: Log, p: nat)
    requires IsLog(cfg, start, log) && p < |log| && log[p].Exited? && SweepsInOrder(log)
    ensures var past, id := log[..p], log[p].id;
      StallRecreates(past, id) > 0 <==> LastRecreate(past, id) >= StallStart(past, id)
  {
    ExitSafety(cfg, start, log, p);
    LogOfRun(cfg, start, log);
    PrefixJustified(cfg, start, log, p);
    RecreatedInStall(cfg, start, log[..p], log[p].id);
  }

  lemma {:induction false} PrefixJustified(cfg: Config, start: Time, log: Log, p: nat)
    requires LogJustified(cfg, start, log) && p <= |log|
    ensures LogJustified(cfg, start, log[..p])
    decreases |log|
  {
    if p == |log| {
      assert log[..p] == log;
    } else {
      PrefixJustified(cfg, start, Past(log), p);
      assert Past(log)[..p] == log[..p];
    }
  }
}
