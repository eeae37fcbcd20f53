/** The daemon as a step system (src/bin/ci-daemon.rs): the main thread refills
    the choir while executors claim, mark, run, merge, sweep and report. Each step
    is what one thread does between two points where others can cut in. */
module Daemon {
  import opened Text
  import opened Status
  import opened Jobs
  import Batch
  import DesiredJobs

  /** Where a job's result is filed: commit and result key. */
  type Loc = (string, string)

  function LocOf(k: JobKey): Loc {
    (k.commit, Batch.ResultKey(k))
  }

  datatype JobState = Pending | Taken(e: nat) | Finished

  datatype ChoirJob = ChoirJob(key: JobKey, state: JobState)

  datatype Claimed = Claimed(id: nat, key: JobKey)

  /** An executor, by what it does next. */
  datatype Executor =
    | Free
    | Marking(batch: seq<Claimed>)
    | Running(batch: seq<Claimed>, remaining: set<Loc>, cleaned: bool)
    | Sweeping(batch: seq<Claimed>, checked: nat, stuck: set<Loc>)
    | Reporting(batch: seq<Claimed>, reported: nat)

  /** The main thread, by what it does next; `seen` is what was read of the
      commits in `read`. */
  datatype Main =
    | Starting
    | Removed
    | Reading(read: set<string>, seen: map<Loc, TestStatus>)
    | Submitting(read: set<string>, seen: map<Loc, TestStatus>, todo: seq<JobKey>)
    | Draining

  /** `disk` is what the commit files hold; loading reads it, no step does. */
  datatype State = State(
    store: map<Loc, TestStatus>,
    disk: map<Loc, TestStatus>,
    choir: map<nat, ChoirJob>,
    nextId: nat,
    jobMap: map<JobKey, nat>,
    main: Main,
    execs: seq<Executor>)

  /** The matrices the daemon may be asked for while it runs, branches, subtests and
      statistics being what they are at each refill, and the window. */
  datatype Farm = Farm(cfgs: iset<Config>, window: nat)

  // --- the batch key ---

  function BatchFields(k: JobKey): seq<string> {
    [k.user, k.repo, k.commit, k.kernel, k.env, k.test]
  }

  /** src/bin/ci-daemon.rs make_job_spec: everything but the subtest. */
  function BatchKey(k: JobKey): string {
    Join(BatchFields(k), NUL)
  }

  predicate NoNul(k: JobKey) {
    forall i | 0 <= i < 6 :: NUL !in BatchFields(k)[i]
  }

  /** Jobs claimed under one batch key differ in their subtest only: the batch
      run_ktest_job gets satisfies what it takes for granted. */
  lemma ClaimIsBatch(keys: seq<JobKey>)
    requires keys != [] && forall i | 0 <= i < |keys| :: NoNul(keys[i]) && BatchKey(keys[i]) == BatchKey(keys[0])
    ensures forall i | 0 <= i < |keys| :: keys[i].(subtest := keys[0].subtest) == keys[0]
    ensures Batch.IsBatch(keys)
  {
    forall i | 0 <= i < |keys|
      ensures keys[i].(subtest := keys[0].subtest) == keys[0]
    {
      var a, b := BatchFields(keys[i]), BatchFields(keys[0]);
      JoinInjective(a, b, NUL);
      assert a[0] == b[0] && a[1] == b[1] && a[2] == b[2] && a[3] == b[3] && a[4] == b[4] && a[5] == b[5];
    }
  }

  // --- events ---

  datatype Event =
    | Remove                                          // choir.remove: finished jobs go
    | Retain                                          // job_ids, job_map.retain
    | Read(commit: string)                            // one commit's results
    | Decide(cfg: Config)                             // the rest of desired_jobs
    | Submit                                          // one turn of the submit loop
    | FinishRefill
    | Drained                                         // pending <= window / 4
    | Claim(e: nat, ids: seq<nat>)
    | Mark(e: nat, writes: bool)                      // whether the commit's file could be rewritten
    | NotConfigured(e: nat)                           // no repository URL
    | Turn(e: nat, onDisk: map<Loc, TestStatus>, writes: bool)   // a VM run whose results were read back
    | StepFails(e: nat)                               // any ssh, pull or clean step fails
    | SweepCheck(e: nat)                              // look one key up
    | SweepWrite(e: nat, writes: bool)
    | Report(e: nat)                                  // one job of the batch

  function StatusAt(m: map<Loc, TestStatus>, l: Loc): Option<TestStatus> {
    if l in m then Some(m[l]) else None
  }

  function Pendings(s: State): set<nat> {
    set id | id in s.choir && s.choir[id].state.Pending?
  }

  predicate CanClaim(s: State, ids: seq<nat>) {
    && ids != []
    && (forall i, j | 0 <= i < j < |ids| :: ids[i] != ids[j])
    && (forall i | 0 <= i < |ids| :: ids[i] in s.choir && s.choir[ids[i]].state.Pending?)
    && forall i | 0 <= i < |ids| :: BatchKey(s.choir[ids[i]].key) == BatchKey(s.choir[ids[0]].key)
  }

  // --- what desired_jobs makes of the reads ---

  function ResultsIn(seen: map<Loc, TestStatus>, c: string): TestResultsMap {
    map l | l in seen && l.0 == c :: l.1 := TestResult(seen[l], 0, 0)
  }

  function SnapOf(read: set<string>, seen: map<Loc, TestStatus>): Snapshot {
    map c | c in read :: ResultsIn(seen, c)
  }

  function KeysOf(jobs: seq<Job>): (keys: seq<JobKey>)
    ensures |keys| == |jobs| && forall i | 0 <= i < |keys| :: keys[i] == jobs[i].key
  {
    seq(|jobs|, i requires 0 <= i < |jobs| => jobs[i].key)
  }

  /** desired_jobs on what was read. */
  function Chosen(f: Farm, cfg: Config, read: set<string>, seen: map<Loc, TestStatus>): seq<JobKey> {
    KeysOf(DesiredJobs.Desired(cfg, SnapOf(read, seen), f.window))
  }

  ghost predicate CanDecide(f: Farm, read: set<string>, cfg: Config) {
    cfg in f.cfgs && Commits(cfg) <= read
  }

  ghost predicate Enabled(f: Farm, s: State, ev: Event) {
    match ev
    case Remove => s.main.Starting?
    case Retain => s.main.Removed?
    case Read(c) => s.main.Reading? && c !in s.main.read
    case Decide(cfg) => s.main.Reading? && CanDecide(f, s.main.read, cfg)
    case Submit => s.main.Submitting? && s.main.todo != []
    case FinishRefill => s.main.Submitting? && s.main.todo == []
    case Drained => s.main.Draining? && |Pendings(s)| <= f.window / 4
    case Claim(e, ids) => e < |s.execs| && s.execs[e].Free? && CanClaim(s, ids)
    case Mark(e, _) => e < |s.execs| && s.execs[e].Marking?
    case NotConfigured(e) => e < |s.execs| && s.execs[e].Marking?
    case Turn(e, _, _) => e < |s.execs| && s.execs[e].Running?
    case StepFails(e) => e < |s.execs| && s.execs[e].Running?
    case SweepCheck(e) => e < |s.execs| && s.execs[e].Sweeping? && s.execs[e].checked < |s.execs[e].batch|
    case SweepWrite(e, _) => e < |s.execs| && s.execs[e].Sweeping? && s.execs[e].checked >= |s.execs[e].batch|
    case Report(e) => e < |s.execs| && s.execs[e].Reporting?
  }

  function LocsOf(batch: seq<Claimed>): set<Loc> {
    set i | 0 <= i < |batch| :: LocOf(batch[i].key)
  }

  function ReadBack(onDisk: map<Loc, TestStatus>, l: Loc): TestStatus {
    if l in onDisk then onDisk[l] else Inprogress
  }

  function SetExec(s: State, e: nat, x: Executor): State
    requires e < |s.execs|
  {
    s.(execs := s.execs[e := x])
  }

  function Take(choir: map<nat, ChoirJob>, e: nat, ids: seq<nat>): map<nat, ChoirJob> {
    map id | id in choir :: if id in ids then choir[id].(state := Taken(e)) else choir[id]
  }

  /** What `choir.remove(|_| true)` leaves. */
  function Unfinished(choir: map<nat, ChoirJob>): map<nat, ChoirJob> {
    map id | id in choir && !choir[id].state.Finished? :: choir[id]
  }

  function Existing(jobMap: map<JobKey, nat>, ids: set<nat>): map<JobKey, nat> {
    map k | k in jobMap && jobMap[k] in ids :: jobMap[k]
  }

  function AfterTurn(x: Executor, onDisk: map<Loc, TestStatus>): Executor
    requires x.Running?
  {
    var next := set l | l in x.remaining && ReadBack(onDisk, l) == Inprogress;
    if next == x.remaining && next != {} then
      if x.cleaned then Sweeping(x.batch, 0, {}) else Running(x.batch, next, true)
    else if next == {} then Reporting(x.batch, 0)
    else Running(x.batch, next, x.cleaned)
  }

  /** The results the step records. */
  function Changes(s: State, ev: Event): map<Loc, TestStatus> {
    match ev
    case Mark(e, _) =>
      if e < |s.execs| && s.execs[e].Marking? then map l | l in LocsOf(s.execs[e].batch) :: Inprogress else map[]
    case Turn(e, onDisk, _) =>
      if e < |s.execs| && s.execs[e].Running? then map l | l in s.execs[e].remaining :: ReadBack(onDisk, l) else map[]
    case SweepWrite(e, _) =>
      if e < |s.execs| && s.execs[e].Sweeping? then map l | l in s.execs[e].stuck :: FailedToRun else map[]
    case _ => map[]
  }

  /** The file of every commit with a change becomes what memory holds of it. */
  function Rewritten(disk: map<Loc, TestStatus>, store: map<Loc, TestStatus>,
                     commits: set<string>): map<Loc, TestStatus> {
    (map l | l in disk && l.0 !in commits :: disk[l]) + (map l | l in store && l.0 in commits :: store[l])
  }

  function CommitsOf(changes: map<Loc, TestStatus>): set<string> {
    set l | l in changes :: l.0
  }

  /** Merge, then rewrite the file if the write works. */
  function Record(s: State, changes: map<Loc, TestStatus>, writes: bool): State {
    var store := s.store + changes;
    s.(store := store, disk := if writes then Rewritten(s.disk, store, CommitsOf(changes)) else s.disk)
  }

  ghost function Step(f: Farm, s: State, ev: Event): State
    requires Enabled(f, s, ev)
  {
    match ev
    case Remove => s.(choir := Unfinished(s.choir), main := Removed)
    case Retain => s.(jobMap := Existing(s.jobMap, s.choir.Keys), main := Reading({}, map[]))
    case Read(c) =>
      s.(main := Reading(s.main.read + {c}, s.main.seen + map l | l in s.store && l.0 == c :: s.store[l]))
    case Decide(cfg) => s.(main := Submitting(s.main.read, s.main.seen, Chosen(f, cfg, s.main.read, s.main.seen)))
    case Submit =>
      var k := s.main.todo[0];
      var s' := s.(main := s.main.(todo := s.main.todo[1..]));
      if k in s.jobMap then s'
      else s'.(choir := s.choir[s.nextId := ChoirJob(k, Pending)], jobMap := s.jobMap[k := s.nextId],
              nextId := s.nextId + 1)
    case FinishRefill => s.(main := Draining)
    case Drained => s.(main := Starting)
    case Claim(e, ids) =>
      var batch := seq(|ids|, i requires 0 <= i < |ids| => Claimed(ids[i], s.choir[ids[i]].key));
      SetExec(s.(choir := Take(s.choir, e, ids)), e, Marking(batch))
    case Mark(e, writes) =>
      var b := s.execs[e].batch;
      SetExec(Record(s, Changes(s, ev), writes), e, Running(b, LocsOf(b), false))
    case NotConfigured(e) => SetExec(s, e, Sweeping(s.execs[e].batch, 0, {}))
    case Turn(e, onDisk, writes) => SetExec(Record(s, Changes(s, ev), writes), e, AfterTurn(s.execs[e], onDisk))
    case StepFails(e) => SetExec(s, e, Sweeping(s.execs[e].batch, 0, {}))
    case SweepCheck(e) =>
      var x := s.execs[e];
      var l := LocOf(x.batch[x.checked].key);
      SetExec(s, e, x.(checked := x.checked + 1,
                       stuck := if StatusAt(s.store, l) == Some(Inprogress) then x.stuck + {l} else x.stuck))
    case SweepWrite(e, writes) => SetExec(Record(s, Changes(s, ev), writes), e, Reporting(s.execs[e].batch, 0))
    case Report(e) =>
      var x := s.execs[e];
      if x.reported >= |x.batch| then SetExec(s, e, Free)
      else
        var id := x.batch[x.reported].id;
        SetExec(s.(choir := if id in s.choir then s.choir[id := s.choir[id].(state := Finished)] else s.choir),
                e, x.(reported := x.reported + 1))
  }

  /** A freshly started daemon: nothing submitted, and (see Store.Loaded) no
      result in progress, and in memory only what was on disk. */
  predicate Init(s: State, executors: nat) {
    && s.choir == map[] && s.jobMap == map[] && s.main.Starting?
    && |s.execs| == executors && (forall e | 0 <= e < |s.execs| :: s.execs[e].Free?)
    && forall l | l in s.store :: s.store[l] != Inprogress && l in s.disk && s.disk[l] == s.store[l]
  }

  ghost function Exec(f: Farm, s: State, events: seq<Event>): Option<State>
    decreases |events|
  {
    if events == [] then Some(s)
    else if Enabled(f, s, events[0]) then Exec(f, Step(f, s, events[0]), events[1..])
    else None
  }

  lemma {:induction false} ExecAppend(f: Farm, s: State, a: seq<Event>, b: seq<Event>)
    requires Exec(f, s, a).Some?
    ensures Exec(f, s, a + b) == Exec(f, Exec(f, s, a).value, b)
    decreases |a|
  {
    if a == [] {
      assert a + b == b;
    } else {
      assert (a + b)[1..] == a[1..] + b;
      ExecAppend(f, Step(f, s, a[0]), a[1..], b);
    }
  }
}
