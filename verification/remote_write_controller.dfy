/** The controller itself: job objects, the registry that refers to them, and the critical
    sections. The ghost field st is the abstract state; each method says which step of the
    state machine it takes. */
module RemoteWriteController {
  import opened MetricApi
  import opened JobHealth
  import opened ControllerSteps
  import opened ControllerSoundness
  import opened RemoteWriteJobs

  class Controller {
    const cfg: Config
    var clock: Time
    var jobs: map<Key, RemoteWriteJob>
    var collectedMetrics: map<Key, seq<Metric>>
    var isLeader: bool
    var lastSelfRestartAt: Time
    var selfRestartTotal: int
    var exitCodes: seq<int>
    ghost var all: seq<RemoteWriteJob>
    ghost var st: State

    /** Every job object made so far. */
    ghost function Repr(): set<RemoteWriteJob>
      reads this`all
    {
      set o | o in all
    }

    /** The job objects are the structs of the abstract state, in order. */
    ghost predicate Objects()
      reads this, all
    {
      && |all| == |st.store|
      && forall i: nat {:trigger all[i]} :: i < |all| ==> all[i].id == i && all[i].Rec() == st.store[i]
    }

    ghost predicate Registry()
      reads this, all
    {
      && jobs.Keys == st.jobs.Keys
      && forall k :: k in jobs ==> st.jobs[k] < |all| && all[st.jobs[k]] == jobs[k]
    }

    ghost predicate Fields()
      reads this
    {
      && st.clock == clock
      && st.collected == collectedMetrics
      && st.isLeader == isLeader
      && st.lastSelfRestartAt == lastSelfRestartAt
      && st.selfRestartTotal == selfRestartTotal
    }

    /** job is one of the objects, registered or not. */
    ghost predicate Owns(job: RemoteWriteJob)
      reads this`all
    {
      job.id < |all| && all[job.id] == job
    }

    /** The fields and objects represent st. */
    ghost predicate Valid()
      reads this, all
    {
      Objects() && Registry() && Fields()
    }

    constructor (cfg: Config, start: Time)
      ensures Valid() && this.cfg == cfg && st == Fresh(start) && all == [] && exitCodes == []
    {
      this.cfg := cfg;
      clock := start;
      jobs, collectedMetrics := map[], map[];
      isLeader, lastSelfRestartAt, selfRestartTotal, exitCodes := false, 0, 0, [];
      all, st := [], Fresh(start);
    }

    /** Reads the clock, which never goes back. */
    method Now() returns (t: Time)
      requires Valid()
      modifies this`clock, this`st
      ensures Valid() && old(clock) <= t == clock && st == old(st).(clock := t)
    {
      var d: nat :| true;
      clock := clock + d;
      st := st.(clock := clock);
      t := clock;
    }

    method BecomeLeader()
      requires Valid()
      modifies this`isLeader, this`st
      ensures Valid() && st == Lead(old(st))
    {
      isLeader := true;
      st := Lead(st);
    }

    // -------------------------------------------------------------------------
    // From one set of objects to the next

    /** A job object was added at the end. */
    twostate lemma OneAdded(new job: RemoteWriteJob)
      requires old(Objects()) && all == old(all) + [job]
      requires job.id == |old(all)| && st.store == old(st.store) + [job.Rec()]
      requires forall o :: o in old(all) ==> unchanged(o)
      ensures Objects()
    {
      forall i: nat | i < |all|
        ensures all[i].id == i && all[i].Rec() == st.store[i]
      {
        if i < |old(all)| {
          assert all[i] == old(all)[i] && all[i] in old(all);
          assert old(all[i].Rec()) == old(st.store)[i];
        }
      }
    }

    /** Only object id was written to. */
    twostate lemma OneWritten(id: nat)
      requires old(Objects()) && all == old(all) && id < |all| == |st.store|
      requires all[id].Rec() == st.store[id]
      requires forall i: nat :: i < |all| && i != id ==> st.store[i] == old(st.store)[i]
      requires forall i: nat :: i < |all| && all[i] != all[id] ==> unchanged(all[i])
      ensures Objects()
    {
      forall i: nat | i < |all|
        ensures all[i].id == i && all[i].Rec() == st.store[i]
      {
        assert old(all[i].Rec()) == old(st.store)[i];
        assert all[id].id == id && all[i].id == i;
      }
    }

    // -------------------------------------------------------------------------
    // Creating and stopping

    method CreateRemoteWriteJobLocked(ma: MetricAccess) returns (ok: bool, ghost at: Time)
      requires Valid() && ma.remoteWrite.Some?
      modifies this`jobs, this`all, this`st, this`clock
      ensures Valid() && old(clock) <= at <= clock
      ensures ok <==> SupportedType(ma.remoteWrite.value.targetType)
      ensures st == CreateJob(old(st), ma, at)
      ensures fresh(Repr() - old(Repr()))
    {
      at := clock;
      var targetType := ma.remoteWrite.value.targetType;
      if targetType != "prometheus" && targetType != "pushgateway" && targetType != "remote_write" {
        return false, at;
      }
      var key := KeyOf(ma);
      var now := Now();
      at := now;
      var job := new RemoteWriteJob(|all|, ma, now);
      jobs := jobs[key := job];
      all := all + [job];
      st := CreateJob(st, ma, now);
      OneAdded(job);
      ok := true;
    }

    /** Closing a closed stop channel would panic. */
    method StopRemoteWriteJobLocked(key: Key, job: RemoteWriteJob)
      requires Valid() && key in jobs && jobs[key] == job
      requires job.stopOpen
      modifies this`jobs, this`st, job`stopOpen
      ensures Valid() && st == StopJob(old(st), key)
    {
      ghost var id := st.jobs[key];
      assert all[id].Rec() == st.store[id];
      job.Stop();
      st := StopJob(st, key);
      jobs := jobs - {key};
      OneWritten(id);
    }

    /** The stop channel of a registered job is open. */
    method StopRegistered(key: Key, job: RemoteWriteJob)
      requires Valid() && Sound(st) && key in jobs && jobs[key] == job
      modifies this`jobs, this`st, job`stopOpen
      ensures Valid() && Sound(st) && st == StopJob(old(st), key)
      ensures jobs.Keys == old(jobs).Keys - {key}
    {
      assert KeyOk(st, key) && job.Rec() == st.store[st.jobs[key]];
      StopKeepsSound(st, key);
      StopRemoteWriteJobLocked(key, job);
    }

    /** Stops a job and starts one for ma in its place. */
    method Restart(key: Key, job: RemoteWriteJob, ma: MetricAccess) returns (ok: bool, ghost at: Time)
      requires Valid() && key in jobs && jobs[key] == job && ma.remoteWrite.Some?
      requires job.stopOpen
      modifies this`jobs, this`all, this`st, this`clock, job`stopOpen
      ensures Valid() && old(clock) <= at <= clock
      ensures ok <==> SupportedType(ma.remoteWrite.value.targetType)
      ensures st == CreateJob(StopJob(old(st), key), ma, at)
      ensures fresh(Repr() - old(Repr()))
    {
      StopRemoteWriteJobLocked(key, job);
      ok, at := CreateRemoteWriteJobLocked(ma);
    }

    // -------------------------------------------------------------------------
    // What the watchdog asks and does

    method IsJobStalledLocked(job: RemoteWriteJob, now: Time) returns (stalled: bool)
      ensures stalled <==> Stalled(cfg, job.Rec(), now)
    {
      if job.access.remoteWrite.None? || !job.access.remoteWrite.value.enabled {
        return false;
      }
      var baseline := job.lastClean;
      if baseline == 0 {
        baseline := job.createdAt;
      }
      if baseline == 0 {
        return false;
      }
      stalled := now - baseline > cfg.StallGrace();
    }

    method ShouldEscalatePodRestart(job: RemoteWriteJob, now: Time) returns (escalate: bool)
      ensures escalate <==> Escalates(cfg, isLeader, job.Rec(), now)
    {
      if !cfg.RestartEnabled() || !isLeader || !job.lastHadTargets {
        return false;
      }
      if job.recreateCount < 1 || job.stalledSince == 0 {
        return false;
      }
      escalate := now - job.stalledSince > cfg.RestartGrace();
    }

    method ObserveStall(key: Key, job: RemoteWriteJob, now: Time)
      requires Valid() && key in jobs && jobs[key] == job
      modifies this`st, job`stalledSince
      ensures Valid() && st == SeedStall(old(st), key, now)
      ensures job.Rec() == JobOf(st, key)
    {
      assert job.Rec() == st.store[st.jobs[key]];
      job.ObserveStall(now);
      st := SeedStall(st, key, now);
      OneWritten(st.jobs[key]);
    }

    /** Exits, in the form in which the exit returns, unless a self-restart was too recent. */
    method TrySelfRestart(key: Key, now: Time) returns (exited: bool)
      requires Valid() && key in jobs
      modifies this`lastSelfRestartAt, this`selfRestartTotal, this`exitCodes, this`st
      ensures Valid() && exited == CooldownOpen(cfg, old(st), now)
      ensures st == if exited then Exit(old(st), key, now) else old(st)
      ensures exitCodes == old(exitCodes) + if exited then [1] else []
    {
      exited := lastSelfRestartAt == 0 || now - lastSelfRestartAt >= cfg.RestartCooldown();
      if exited {
        lastSelfRestartAt := now;
        selfRestartTotal := selfRestartTotal + 1;
        exitCodes := exitCodes + [1];
        st := Exit(st, key, now);
      }
    }

    /** Puts the throttle state of the previous struct onto the new one. */
    method CarryForward(key: Key, newJob: RemoteWriteJob, now: Time, ghost previous: nat,
                        nextRecreateCount: int, stalledSince: Time, hadTargets: bool)
      requires Valid() && key in jobs && jobs[key] == newJob && previous < |st.store|
      requires nextRecreateCount == st.store[previous].recreateCount + 1
      requires stalledSince == st.store[previous].stalledSince && hadTargets == st.store[previous].lastHadTargets
      modifies this`st, newJob`lastRecreateAt, newJob`recreateCount, newJob`stalledSince, newJob`lastHadTargets
      ensures Valid() && st == Carry(old(st), key, previous, now)
    {
      assert newJob.Rec() == st.store[st.jobs[key]];
      newJob.CarryForward(now, nextRecreateCount, stalledSince, hadTargets);
      st := Carry(st, key, previous, now);
      OneWritten(st.jobs[key]);
    }
  }
}
