/** What a log says about a job struct, read from the log alone. A recreated struct
    continues the lineage of the struct it replaced. */
module History {
  import opened MetricApi
  import opened JobHealth
  import opened ControllerSteps

  type Log = seq<Entry>

  function Past(log: Log): Log
    requires log != []
  {
    log[..|log| - 1]
  }

  function Last(log: Log): Entry
    requires log != []
  {
    log[|log| - 1]
  }

  lemma Snoc(log: Log, e: Entry)
    ensures log + [e] != []
    ensures Past(log + [e]) == log
    ensures Last(log + [e]) == e
  {}

  /** The struct registered under a key after the log. */
  function Holder(log: Log, key: Key): Option<nat>
    decreases |log|
  {
    if log == [] then None
    else match Last(log)
      case Created(id, k, _) => if k == key then Some(id) else Holder(Past(log), key)
      case Stopped(_, k) => if k == key then None else Holder(Past(log), key)
      case _ => Holder(Past(log), key)
  }

  /** When a struct was created. */
  function Birth(log: Log, id: nat): Time
    decreases |log|
  {
    if log == [] then 0
    else match Last(log)
      case Created(i, _, at) => if i == id then at else Birth(Past(log), id)
      case _ => Birth(Past(log), id)
  }

  /** The outcomes of a struct's cycles, oldest first. */
  function Cycles(log: Log, id: nat): seq<Outcome>
    decreases |log|
  {
    if log == [] then []
    else match Last(log)
      case Created(i, _, _) => if i == id then [] else Cycles(Past(log), id)
      case CycleEnded(i, _, _, o, _) => Cycles(Past(log), id) + (if i == id then [o] else [])
      case _ => Cycles(Past(log), id)
  }

  function TargetFailures(log: Log, id: nat): nat
    decreases |log|
  {
    if log == [] then 0
    else match Last(log)
      case Created(i, _, _) => if i == id then 0 else TargetFailures(Past(log), id)
      case TargetFailed(i) => TargetFailures(Past(log), id) + (if i == id then 1 else 0)
      case _ => TargetFailures(Past(log), id)
  }

  /** The time of a struct's latest clean cycle, 0 if none. */
  function LastCleanAt(log: Log, id: nat): Time
    decreases |log|
  {
    if log == [] then 0
    else match Last(log)
      case Created(i, _, _) => if i == id then 0 else LastCleanAt(Past(log), id)
      case CycleEnded(i, _, _, o, at) => if i == id && o.Clean() then at else LastCleanAt(Past(log), id)
      case _ => LastCleanAt(Past(log), id)
  }

  /** The latest target check of a lineage: did it find healthy targets? */
  function LastCheck(log: Log, id: nat): Option<bool>
    decreases |log|
  {
    if log == [] then None
    else match Last(log)
      case Created(i, _, _) => if i == id then None else LastCheck(Past(log), id)
      case Recreated(i, _, previous, _) => LastCheck(Past(log), if i == id then previous else id)
      case SawTargets(i) => if i == id then Some(true) else LastCheck(Past(log), id)
      case CycleEnded(i, _, _, o, _) =>
        if i == id && o.NoTargets? then Some(false) else LastCheck(Past(log), id)
      case _ => LastCheck(Past(log), id)
  }

  /** How many recreates led to a struct. */
  function Depth(log: Log, id: nat): nat
    decreases |log|
  {
    if log == [] then 0
    else match Last(log)
      case Created(i, _, _) => if i == id then 0 else Depth(Past(log), id)
      case Recreated(i, _, previous, _) =>
        if i == id then Depth(Past(log), previous) + 1 else Depth(Past(log), id)
      case _ => Depth(Past(log), id)
  }

  /** When the first struct of a lineage was created. */
  function Origin(log: Log, id: nat): Time
    decreases |log|
  {
    if log == [] then 0
    else match Last(log)
      case Created(i, _, at) => if i == id then at else Origin(Past(log), id)
      case Recreated(i, _, previous, _) => Origin(Past(log), if i == id then previous else id)
      case _ => Origin(Past(log), id)
  }

  /** The time of the recreate that made a struct, unless it has succeeded since. */
  function LastRecreate(log: Log, id: nat): Time
    decreases |log|
  {
    if log == [] then 0
    else match Last(log)
      case Created(i, _, _) => if i == id then 0 else LastRecreate(Past(log), id)
      case Recreated(i, _, _, at) => if i == id then at else LastRecreate(Past(log), id)
      case CycleEnded(i, _, _, o, _) =>
        if i == id && o.Success? then 0 else LastRecreate(Past(log), id)
      case _ => LastRecreate(Past(log), id)
  }

  /** When the continuous stall of a lineage was first seen, 0 if it is not stalled. */
  function StallStart(log: Log, id: nat): Time
    decreases |log|
  {
    if log == [] then 0
    else match Last(log)
      case Created(i, _, _) => if i == id then 0 else StallStart(Past(log), id)
      case Recreated(i, _, previous, _) => StallStart(Past(log), if i == id then previous else id)
      case SeenStalled(i, _, at) => if i == id then at else StallStart(Past(log), id)
      case CycleEnded(i, _, _, o, _) =>
        if i == id && o.Clean() then 0 else StallStart(Past(log), id)
      case _ => StallStart(Past(log), id)
  }

  /** How many recreates the current stall of a lineage has seen. */
  function StallRecreates(log: Log, id: nat): nat
    decreases |log|
  {
    if log == [] then 0
    else match Last(log)
      case Created(i, _, _) => if i == id then 0 else StallRecreates(Past(log), id)
      case Recreated(i, _, previous, _) =>
        if i == id then StallRecreates(Past(log), previous) + 1 else StallRecreates(Past(log), id)
      case CycleEnded(i, _, _, o, _) =>
        if i == id && o.Clean() then 0 else StallRecreates(Past(log), id)
      case _ => StallRecreates(Past(log), id)
  }

  // ---------------------------------------------------------------------------
  // Summaries of a cycle history

  /** The length of the longest suffix without a success. */
  function EmptySuffix(cycles: seq<Outcome>): nat
    decreases |cycles|
  {
    if cycles == [] || cycles[|cycles| - 1].Success? then 0
    else EmptySuffix(cycles[..|cycles| - 1]) + 1
  }

  function Successes(cycles: seq<Outcome>): nat
    decreases |cycles|
  {
    if cycles == [] then 0
    else Successes(cycles[..|cycles| - 1]) + (if cycles[|cycles| - 1].Success? then 1 else 0)
  }

  function SendFailures(cycles: seq<Outcome>): nat
    decreases |cycles|
  {
    if cycles == [] then 0
    else SendFailures(cycles[..|cycles| - 1]) + (if cycles[|cycles| - 1].SendFailed? then 1 else 0)
  }

  function SeriesSum(cycles: seq<Outcome>): nat
    decreases |cycles|
  {
    if cycles == [] then 0
    else
      var o := cycles[|cycles| - 1];
      SeriesSum(cycles[..|cycles| - 1]) + (if o.Success? then o.series else 0)
  }

  /** The last success of a history. */
  function LatestSuccess(cycles: seq<Outcome>): Option<Outcome>
    decreases |cycles|
  {
    if cycles == [] then None
    else if cycles[|cycles| - 1].Success? then Some(cycles[|cycles| - 1])
    else LatestSuccess(cycles[..|cycles| - 1])
  }

  /** The time of the last restart, 0 if none. */
  function LastExit(log: Log): Time
    decreases |log|
  {
    if log == [] then 0 else if Last(log).Exited? then Last(log).at else LastExit(Past(log))
  }

  function Exits(log: Log): nat
    decreases |log|
  {
    if log == [] then 0
    else Exits(Past(log)) + (if Last(log).Exited? then 1 else 0)
  }
}
