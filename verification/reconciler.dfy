/** Loading, reconciling and stopping the jobs of a controller. */
module Reconciler {
  import opened MetricApi
  import opened ConfigDiff
  import opened JobHealth
  import opened ControllerSteps
  import opened ControllerSoundness
  import opened ControllerLoops
  import opened RemoteWriteController
  import opened RemoteWriteJobs

  /** Stops the registered jobs that are not desired, in any order. */
  method StopLeftovers(c: Controller, desired: set<Key>) returns (ghost keys: seq<Key>)
    requires c.Valid() && Sound(c.st)
    modifies c`jobs, c`st, c.Repr()
    ensures c.Valid() && Sound(c.st)
    ensures ListsLeftovers(old(c.st), desired, keys) && c.st == StopKeys(old(c.st), keys)
    ensures c.jobs.Keys <= desired
  {
    var rest := c.jobs.Keys - desired;
    keys := [];
    while rest != {}
      invariant c.Valid() && Sound(c.st) && Stopping(old(c.st), c.st, desired, rest, keys)
      decreases rest
    {
      var key :| key in rest;
      StoppingSnoc(old(c.st), c.st, desired, rest, keys, key);
      c.StopRegistered(key, c.jobs[key]);
      keys := keys + [key];
      rest := rest - {key};
    }
  }

  method StopAllJobs(c: Controller) returns (ghost keys: seq<Key>)
    requires c.Valid() && Sound(c.st)
    modifies c`jobs, c`st, c.Repr()
    ensures c.Valid() && Sound(c.st) && c.jobs == map[]
    ensures ListsLeftovers(old(c.st), {}, keys) && c.st == StopKeys(old(c.st), keys)
  {
    keys := StopLeftovers(c, {});
  }

  // -------------------------------------------------------------------------
  // Loading and reconciling

  method LoadExistingRemoteWriteJobs(c: Controller, items: seq<MetricAccess>) returns (ghost clk: seq<Time>)
    requires c.Valid()
    modifies c`jobs, c`all, c`st, c`clock
    ensures c.Valid()
    ensures |clk| == |items| && Readings(old(c.clock), clk) && c.st == LoadFrom(old(c.st), items, clk)
  {
    clk := [];
    for i := 0 to |items|
      invariant c.Valid() && old(c.clock) <= c.clock
      invariant |clk| == i && Readings(old(c.clock), clk) && (forall j :: 0 <= j < i ==> clk[j] <= c.clock)
      invariant c.st == LoadFrom(old(c.st), items[..i], clk)
    {
      ghost var at := c.clock;
      var ma := items[i];
      if ma.remoteWrite.Some? && ma.remoteWrite.value.enabled {
        var created;
        created, at := c.CreateRemoteWriteJobLocked(ma);
      }
      LoadFromSnoc(old(c.st), items[..i], clk, ma, at);
      OneMore(items, i);
      clk := clk + [at];
    }
    assert items[..|items|] == items;
  }

  /** A desired resource that has a job: restart it if the configuration changed. */
  method ReconcileExisting(c: Controller, key: Key, job: RemoteWriteJob, ma: MetricAccess) returns (ghost at: Time)
    requires c.Valid() && key in c.jobs && c.jobs[key] == job && job.stopOpen && ma.remoteWrite.Some?
    modifies c`jobs, c`all, c`st, c`clock, job
    ensures c.Valid() && old(c.clock) <= at <= c.clock
    ensures c.st == if ConfigChanged(job.access, ma) then CreateJob(StopJob(old(c.st), key), ma, at) else old(c.st)
    ensures fresh(c.Repr() - old(c.Repr()))
  {
    at := c.clock;
    var changed := HasConfigurationChanged(job.access, ma);
    if changed {
      var restarted;
      restarted, at := c.Restart(key, job, ma);
    }
  }

  /** One resource of the desired list. */
  method ReconcileOne(c: Controller, ma: MetricAccess) returns (ghost at: Time)
    requires c.Valid() && Sound(c.st)
    modifies c`jobs, c`all, c`st, c`clock, c.Repr()
    ensures c.Valid() && old(c.clock) <= at <= c.clock
    ensures c.st == ReconcileItem(old(c.st), ma, at)
    ensures fresh(c.Repr() - old(c.Repr()))
  {
    at := c.clock;
    if ma.remoteWrite.Some? && ma.remoteWrite.value.enabled {
      var key := KeyOf(ma);
      if key in c.jobs {
        var job := c.jobs[key];
        assert KeyOk(c.st, key) && job.Rec() == JobOf(c.st, key);
        StopKeepsSound(c.st, key);
        at := ReconcileExisting(c, key, job, ma);
      } else {
        var created;
        created, at := c.CreateRemoteWriteJobLocked(ma);
      }
    }
  }

  method ReconcileRemoteWriteJobs(c: Controller, items: seq<MetricAccess>)
    returns (ghost clk: seq<Time>, ghost leftovers: seq<Key>)
    requires c.Valid() && Sound(c.st)
    modifies c`jobs, c`all, c`st, c`clock, c.Repr()
    ensures c.Valid() && Sound(c.st)
    ensures |clk| == |items| && Readings(old(c.clock), clk)
    ensures ListsLeftovers(ReconcileItems(old(c.st), items, clk), DesiredKeys(items), leftovers)
    ensures c.st == Reconcile(old(c.st), items, clk, leftovers)
  {
    var desired: set<Key> := {};
    clk := [];
    for i := 0 to |items|
      invariant c.Valid() && Sound(c.st) && Reconciling(old(c.st), c.st, items[..i], clk)
      invariant fresh(c.Repr() - old(c.Repr()))
      invariant desired == DesiredKeys(items[..i])
    {
      ghost var at;
      var ma := items[i];
      if ma.remoteWrite.Some? && ma.remoteWrite.value.enabled {
        desired := desired + {KeyOf(ma)};
      }
      OneMore(items, i);
      ghost var s := c.st;
      at := ReconcileOne(c, ma);
      ReconcilingSnoc(old(c.st), s, items, clk, i, at);
      clk := clk + [at];
    }
    assert items[..|items|] == items;
    leftovers := StopLeftovers(c, desired);
  }
}
