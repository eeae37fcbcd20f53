/** The refill of the daemon's window (src/bin/ci-daemon.rs refill), written as the
    loop it is, while executors claim and report between its steps. */
module Refill {
  import opened Text
  import opened Jobs
  import opened Daemon
  import DesiredJobs

  /** The job map names exactly the existing jobs, one per key. */
  ghost predicate Exact(jobs: map<nat, ChoirJob>, jobMap: map<JobKey, nat>) {
    && (forall id | id in jobs :: jobs[id].key in jobMap && jobMap[jobs[id].key] == id)
    && forall k | k in jobMap :: jobMap[k] in jobs && jobs[jobMap[k]].key == k
  }

  /** What executors may do meanwhile: a job is claimed, a job is reported. */
  predicate Advances(was: map<nat, ChoirJob>, now: map<nat, ChoirJob>) {
    was.Keys == now.Keys && forall id | id in was ::
      now[id].key == was[id].key && (now[id].state.Pending? ==> was[id].state.Pending?)
  }

  /** jobkit::Choir as refill sees it. */
  class Choir {
    var jobs: map<nat, ChoirJob>
    var nextId: nat

    ghost predicate Valid()
      reads this
    {
      forall id | id in jobs :: id < nextId
    }

    /** `remove(|_| true)` drops the finished jobs and no others. */
    method Remove()
      requires Valid()
      modifies `jobs
      ensures Valid() && jobs == Unfinished(old(jobs))
      ensures forall id :: id in jobs <==> id in old(jobs) && !old(jobs)[id].state.Finished?
      ensures forall id | id in jobs :: jobs[id] == old(jobs)[id]
    {
      jobs := Unfinished(jobs);
    }

    method JobIds() returns (ids: set<nat>)
      ensures ids == jobs.Keys
    {
      ids := jobs.Keys;
    }

    method Submit(k: JobKey) returns (id: nat)
      requires Valid()
      modifies this
      ensures Valid() && id == old(nextId) && nextId == old(nextId) + 1
      ensures jobs == old(jobs)[id := ChoirJob(k, Pending)] && id !in old(jobs)
    {
      id := nextId;
      jobs := jobs[id := ChoirJob(k, Pending)];
      nextId := nextId + 1;
    }

    method OthersRun()
      requires Valid()
      modifies `jobs
      ensures Valid() && Advances(old(jobs), jobs)
    {
      assert Advances(jobs, jobs);
      var now :| Advances(jobs, now);
      assert Advances(jobs, now);
      jobs := now;
    }
  }

  /** The map entries of jobs that still exist. */
  method RetainExisting(jobMap: map<JobKey, nat>, ids: set<nat>) returns (kept: map<JobKey, nat>)
    ensures kept == Existing(jobMap, ids)
  {
    kept := jobMap;
    var todo := jobMap.Keys;
    while todo != {}
      invariant todo <= jobMap.Keys
      invariant kept.Keys == todo + Existing(jobMap, ids).Keys
      invariant forall k | k in kept :: kept[k] == jobMap[k]
      decreases todo
    {
      var k :| k in todo;
      if kept[k] !in ids {
        kept := kept - {k};
      }
      todo := todo - {k};
    }
  }

  /** One job in `jobs` that was not in `was`, for a key it did not have. */
  ghost predicate IsNew(was: map<JobKey, nat>, first: nat, jobs: map<nat, ChoirJob>, desired: seq<Job>, id: nat) {
    first <= id && id in jobs ==> jobs[id].key !in was && exists i | 0 <= i < |desired| ::
            desired[i].key == jobs[id].key
  }

  /** Where the submit loop stands: the map is exact and has the old entries and the
      first n desired keys, what is new was wanted, and no old job came, went or went back
      to waiting. */
  ghost predicate Stands(was: map<nat, ChoirJob>, jobMap: map<JobKey, nat>, first: nat, desired: seq<Job>,
                         n: nat, jobs: map<nat, ChoirJob>, newMap: map<JobKey, nat>)
    requires n <= |desired|
  {
    && Exact(jobs, newMap)
    && (forall k | k in jobMap :: k in newMap && newMap[k] == jobMap[k])
    && (forall k | k in newMap && k !in jobMap :: first <= newMap[k])
    && (forall i | 0 <= i < n :: desired[i].key in newMap)
    && (forall id :: IsNew(jobMap, first, jobs, desired, id))
    && forall id | id < first ::
         (id in jobs <==> id in was) && (id in jobs && jobs[id].state.Pending? ==> was[id].state.Pending?)
  }

  lemma StandsAtFirst(was: map<nat, ChoirJob>, jobMap: map<JobKey, nat>, first: nat, desired: seq<Job>)
    requires Exact(was, jobMap) && forall id | id in was :: id < first
    ensures Stands(was, jobMap, first, desired, 0, was, jobMap)
  {
  }

  lemma OthersKeepStands(was: map<nat, ChoirJob>, jobMap: map<JobKey, nat>, first: nat, desired: seq<Job>,
                         n: nat, jobs: map<nat, ChoirJob>, newMap: map<JobKey, nat>, now: map<nat, ChoirJob>)
    requires n <= |desired| && Stands(was, jobMap, first, desired, n, jobs, newMap) && Advances(jobs, now)
    ensures Stands(was, jobMap, first, desired, n, now, newMap)
  {
    forall id
      ensures IsNew(jobMap, first, now, desired, id)
    {
      assert IsNew(jobMap, first, jobs, desired, id);
    }
  }

  lemma KnownKeepsStands(was: map<nat, ChoirJob>, jobMap: map<JobKey, nat>, first: nat, desired: seq<Job>,
                         n: nat, jobs: map<nat, ChoirJob>, newMap: map<JobKey, nat>)
    requires n < |desired| && Stands(was, jobMap, first, desired, n, jobs, newMap) && desired[n].key in newMap
    ensures Stands(was, jobMap, first, desired, n + 1, jobs, newMap)
  {
    hide IsNew, Exact;
  }

  lemma SubmitKeepsStands(was: map<nat, ChoirJob>, jobMap: map<JobKey, nat>, first: nat, desired: seq<Job>,
                          n: nat, jobs: map<nat, ChoirJob>, newMap: map<JobKey, nat>, id: nat)
    requires n < |desired| && Stands(was, jobMap, first, desired, n, jobs, newMap)
    requires id !in jobs && first <= id && desired[n].key !in newMap
    ensures var k := desired[n].key;
            Stands(was, jobMap, first, desired, n + 1, jobs[id := ChoirJob(k, Pending)], newMap[k := id])
  {
    var k := desired[n].key;
    var now := jobs[id := ChoirJob(k, Pending)];
    forall d
      ensures IsNew(jobMap, first, now, desired, d)
    {
      assert IsNew(jobMap, first, jobs, desired, d);
    }
  }

  /** The submit loop: each desired job that is not tracked is submitted once. */
  method SubmitMissing(choir: Choir, jobMap: map<JobKey, nat>, desired: seq<Job>)
    returns (newMap: map<JobKey, nat>, submitted: nat)
    requires choir.Valid() && Exact(choir.jobs, jobMap)
    modifies choir
    ensures choir.Valid() && submitted <= |desired| && choir.nextId == old(choir.nextId) + submitted
    ensures Stands(old(choir.jobs), jobMap, old(choir.nextId), desired, |desired|, choir.jobs, newMap)
  {
    hide Advances, Stands, Exact;
    StandsAtFirst(choir.jobs, jobMap, choir.nextId, desired);
    newMap, submitted := jobMap, 0;
    ghost var was, first := choir.jobs, choir.nextId;
    for n := 0 to |desired|
      invariant choir.Valid() && Stands(was, jobMap, first, desired, n, choir.jobs, newMap)
      invariant submitted <= n && choir.nextId == first + submitted
    {
      ghost var before := choir.jobs;
      choir.OthersRun();
      OthersKeepStands(was, jobMap, first, desired, n, before, newMap, choir.jobs);
      var k := desired[n].key;
      if k !in newMap {
        ghost var now := choir.jobs;
        var id := choir.Submit(k);
        SubmitKeepsStands(was, jobMap, first, desired, n, now, newMap, id);
        newMap := newMap[k := id];
        submitted := submitted + 1;
      } else {
        KnownKeepsStands(was, jobMap, first, desired, n, choir.jobs, newMap);
      }
    }
  }

  /** The key has a job, and it has not finished. */
  predicate IsLive(jobs: map<nat, ChoirJob>, jobMap: map<JobKey, nat>, k: JobKey) {
    k in jobMap && jobMap[k] in jobs && !jobs[jobMap[k]].state.Finished?
  }

  /** After the removal and the pruning of the map, the map is exact again and has the
      keys whose jobs had not finished. */
  lemma ExactAfterPruning(was: map<nat, ChoirJob>, jobMap: map<JobKey, nat>, now: map<nat, ChoirJob>)
    requires Exact(was, jobMap) && Advances(Unfinished(was), now)
    ensures var kept := Existing(jobMap, now.Keys);
            && Exact(now, kept)
            && forall k :: (k in kept <==> IsLive(was, jobMap, k)) && (k in kept ==> kept[k] == jobMap[k])
  {
  }

  lemma AdvancesOn(a: map<nat, ChoirJob>, b: map<nat, ChoirJob>, c: map<nat, ChoirJob>)
    requires Advances(a, b) && Advances(b, c)
    ensures Advances(a, c)
  {
  }

  lemma AdvancesExact(a: map<nat, ChoirJob>, b: map<nat, ChoirJob>, jobMap: map<JobKey, nat>)
    requires Advances(a, b) && Exact(a, jobMap)
    ensures Exact(b, jobMap)
  {
  }

  /** src/bin/ci-daemon.rs refill. Afterwards the job map is exactly the existing
      jobs, one per key; the jobs that had finished are gone and no other is; every
      desired job is there; at most a window of jobs is new, each of a desired key
      that had no job; and no old job went back to waiting. */
  method RefillWindow(choir: Choir, jobMap: map<JobKey, nat>, cfg: Config, store: DesiredJobs.LiveStore, window: nat)
    returns (newMap: map<JobKey, nat>, ghost snap: Snapshot, submitted: nat)
    requires choir.Valid() && store.log == [] && Exact(choir.jobs, jobMap)
    modifies choir, store
    ensures choir.Valid() && Exact(choir.jobs, newMap)
    ensures forall id | id in old(choir.jobs) :: id in choir.jobs <==> !old(choir.jobs)[id].state.Finished?
    ensures DesiredJobs.IsReadOnce(store.log, snap)
    ensures forall j | j in DesiredJobs.Desired(cfg, snap, window) ::
              j.key in newMap && if IsLive(old(choir.jobs), jobMap, j.key) then newMap[j.key] == jobMap[j.key]
                                 else old(choir.nextId) <= newMap[j.key]
    ensures submitted <= window && choir.nextId == old(choir.nextId) + submitted
    ensures forall id | id in choir.jobs && old(choir.nextId) <= id ::
              && !IsLive(old(choir.jobs), jobMap, choir.jobs[id].key)
              && exists j :: j in DesiredJobs.Desired(cfg, snap, window) && j.key == choir.jobs[id].key
    ensures forall id | id in choir.jobs && choir.jobs[id].state.Pending? ::
              (id in old(choir.jobs) && old(choir.jobs)[id].state.Pending?) || old(choir.nextId) <= id < choir.nextId
  {
    hide Exact, IsNew, Existing, IsLive;
    ghost var was := choir.jobs;
    choir.Remove();
    choir.OthersRun();
    ghost var pruned := choir.jobs;
    ExactAfterPruning(was, jobMap, pruned);
    var existing := choir.JobIds();
    var kept := RetainExisting(jobMap, existing);
    choir.OthersRun();
    ghost var meanwhile := choir.jobs;
    var desired;
    desired, snap := DesiredJobs.ComputeDesired(cfg, store, window);
    DesiredJobs.DesiredSound(cfg, snap, window);
    choir.OthersRun();
    AdvancesOn(pruned, meanwhile, choir.jobs);
    AdvancesExact(pruned, choir.jobs, kept);
    newMap, submitted := SubmitMissing(choir, kept, desired);
    NewAreWanted(choir.jobs, kept, choir.nextId - submitted, desired);
  }

  lemma NewAreWanted(jobs: map<nat, ChoirJob>, kept: map<JobKey, nat>, first: nat, desired: seq<Job>)
    requires forall id :: IsNew(kept, first, jobs, desired, id)
    ensures forall id | id in jobs && first <= id ::
              jobs[id].key !in kept && exists j :: j in desired && j.key == jobs[id].key
  {
    forall id | id in jobs && first <= id
      ensures jobs[id].key !in kept && exists j :: j in desired && j.key == jobs[id].key
    {
      assert IsNew(kept, first, jobs, desired, id);
      var i :| 0 <= i < |desired| && desired[i].key == jobs[id].key;
      assert desired[i] in desired;
    }
  }
}
