/** One claimed batch (src/bin/ci-daemon.rs run_ktest_job): mark, set up, the
    resume loop with its one git-clean retry, and the sweep after a failure. The
    worker is an oracle: any step may fail, and any statuses may come back. While
    this executor waits for the worker, others may change the store everywhere but
    at this batch's results. */
module Batch {
  import opened Text
  import opened Status
  import opened Store
  import opened Jobs

  /** One turn of the resume loop as the world answers it: whether the supervisor
      could be run, whether the results could be pulled, the results then on disk by
      result key, and whether the git clean could be run. */
  datatype Turn = Turn(runs: bool, pulls: bool, onDisk: TestResultsMap, cleans: bool)

  datatype World = World(
    repoUrl: string,
    setup: seq<bool>,            // checkout, ktest sync, supervisor build, prepare
    turns: nat -> Turn,
    now: int,                    // when the batch was marked
    sweepTime: int)

  datatype TaskError = Fatal | Retry

  predicate IsBatch(batch: seq<JobKey>) {
    batch != [] && forall i | 0 <= i < |batch| ::
      && batch[i].commit == batch[0].commit && batch[i].kernel == batch[0].kernel
      && batch[i].env == batch[0].env && batch[i].test == batch[0].test
  }

  function ResultKey(j: JobKey): string {
    SubtestResultKey(j.test, j.subtest, j.kernel, j.env)
  }

  function KeysOf(batch: seq<JobKey>): set<string> {
    set i | 0 <= i < |batch| :: ResultKey(batch[i])
  }

  /** The key the resume loop files a subtest of the batch under. */
  function KeyFor(p: JobKey, subtest: string): string {
    SubtestResultKey(p.test, subtest, p.kernel, p.env)
  }

  function Entry(mem: ByCommit, commit: string, key: string): Option<TestResult> {
    if commit in mem && key in mem[commit] then Some(mem[commit][key]) else None
  }

  /** What read_test_result finds; no status file counts as not reached. */
  function ReadBack(turn: Turn, now: int, key: string): TestResult {
    if key in turn.onDisk then turn.onDisk[key] else TestResult(Inprogress, now, 0)
  }

  /** The first result read back for the key in the first n turns that is not in
      progress; in this module that is what a verdict is, unknown ones included. */
  function FirstVerdict(w: World, n: nat, key: string): (r: Option<TestResult>)
    ensures r.Some? <==> exists t | 0 <= t < n :: ReadBack(w.turns(t), w.now, key).status != Inprogress
    ensures r.Some? ==> r.value.status != Inprogress
  {
    if n == 0 then None
    else
      var earlier := FirstVerdict(w, n - 1, key);
      var here := ReadBack(w.turns(n - 1), w.now, key);
      if earlier.Some? then earlier
      else if here.status != Inprogress then Some(here)
      else None
  }

  /** The subtests that still owe a verdict after n turns, in batch order. */
  function Owed(w: World, n: nat, p: JobKey, subtests: seq<string>): seq<string> {
    if subtests == [] then []
    else
      Owed(w, n, p, subtests[..|subtests| - 1])
      + if FirstVerdict(w, n, KeyFor(p, subtests[|subtests| - 1])).None? then [subtests[|subtests| - 1]] else []
  }

  function Subtests(batch: seq<JobKey>): (s: seq<string>)
    ensures |s| == |batch| && forall i | 0 <= i < |s| :: s[i] == batch[i].subtest
  {
    seq(|batch|, i requires 0 <= i < |batch| => batch[i].subtest)
  }

  predicate IsSubsequence(a: seq<string>, b: seq<string>) {
    if a == [] then true
    else if b == [] then false
    else if a[|a| - 1] == b[|b| - 1] then IsSubsequence(a[..|a| - 1], b[..|b| - 1])
    else IsSubsequence(a, b[..|b| - 1])
  }

  lemma {:induction false} DropLastSubsequence(a: seq<string>, b: seq<string>)
    requires a != [] && IsSubsequence(a, b)
    ensures IsSubsequence(a[..|a| - 1], b)
    decreases |b|
  {
    var init, b' := a[..|a| - 1], b[..|b| - 1];
    if a[|a| - 1] != b[|b| - 1] {
      DropLastSubsequence(a, b');
      if init != [] && init[|init| - 1] == b[|b| - 1] {
        DropLastSubsequence(init, b');
      }
    } else if init != [] {
      if init[|init| - 1] == b[|b| - 1] {
        DropLastSubsequence(init, b');
      }
    }
  }

  /** Every turn's list is a subsequence of the one before. */
  lemma {:induction false} OwedShrinks(w: World, n: nat, p: JobKey, subtests: seq<string>)
    ensures IsSubsequence(Owed(w, n + 1, p, subtests), Owed(w, n, p, subtests))
    ensures |Owed(w, n + 1, p, subtests)| <= |Owed(w, n, p, subtests)| <= |subtests|
  {
    if subtests != [] {
      var init, last := subtests[..|subtests| - 1], subtests[|subtests| - 1];
      OwedShrinks(w, n, p, init);
      var a, b := Owed(w, n + 1, p, init), Owed(w, n, p, init);
      assert a + [] == a && b + [] == b;
      if FirstVerdict(w, n, KeyFor(p, last)).None? {
        assert (b + [last])[..|b|] == b;
        if FirstVerdict(w, n + 1, KeyFor(p, last)).None? {
          assert (a + [last])[..|a|] == a;
        } else if a != [] && a[|a| - 1] == last {
          DropLastSubsequence(a, b);
        }
      }
    }
  }

  lemma {:induction false} InOwed(w: World, n: nat, p: JobKey, subtests: seq<string>, st: string)
    ensures st in Owed(w, n, p, subtests) <==> st in subtests && FirstVerdict(w, n, KeyFor(p, st)).None?
  {
    if subtests != [] {
      InOwed(w, n, p, subtests[..|subtests| - 1], st);
      assert subtests == subtests[..|subtests| - 1] + [subtests[|subtests| - 1]];
    }
  }

  // --- the loops that build the updates ---

  /** One in-progress entry per subtest. */
  method Marks(p: JobKey, subtests: seq<string>, now: int) returns (updates: TestResultsMap)
    ensures updates.Keys == set i | 0 <= i < |subtests| :: KeyFor(p, subtests[i])
    ensures forall k | k in updates :: updates[k] == TestResult(Inprogress, now, 0)
  {
    updates := map[];
    for i := 0 to |subtests|
      invariant updates.Keys == set j | 0 <= j < i :: KeyFor(p, subtests[j])
      invariant forall k | k in updates :: updates[k] == TestResult(Inprogress, now, 0)
    {
      updates := updates[KeyFor(p, subtests[i]) := TestResult(Inprogress, now, 0)];
    }
  }

  function NotReached(turn: Turn, now: int, p: JobKey, subtests: seq<string>): seq<string> {
    if subtests == [] then []
    else
      NotReached(turn, now, p, subtests[..|subtests| - 1])
      + if ReadBack(turn, now, KeyFor(p, subtests[|subtests| - 1])).status == Inprogress
        then [subtests[|subtests| - 1]] else []
  }

  /** The read-back loop: every result read, and the subtests not reached. */
  method Collect(p: JobKey, remaining: seq<string>, turn: Turn, now: int)
    returns (next: seq<string>, verdicts: TestResultsMap)
    ensures next == NotReached(turn, now, p, remaining)
    ensures verdicts.Keys == set i | 0 <= i < |remaining| :: KeyFor(p, remaining[i])
    ensures forall k | k in verdicts :: verdicts[k] == ReadBack(turn, now, k)
  {
    next, verdicts := [], map[];
    for i := 0 to |remaining|
      invariant next == NotReached(turn, now, p, remaining[..i])
      invariant verdicts.Keys == set j | 0 <= j < i :: KeyFor(p, remaining[j])
      invariant forall k | k in verdicts :: verdicts[k] == ReadBack(turn, now, k)
    {
      assert remaining[..i + 1][..i] == remaining[..i];
      var key := KeyFor(p, remaining[i]);
      var r := if key in turn.onDisk then turn.onDisk[key] else TestResult(Inprogress, now, 0);
      if r.status == Inprogress {
        next := next + [remaining[i]];
      }
      verdicts := verdicts[key := r];
    }
    assert remaining[..|remaining|] == remaining;
  }

  /** Retrying what this turn did not reach is owing after one more turn. */
  lemma {:induction false} NotReachedIsOwed(w: World, n: nat, p: JobKey, subtests: seq<string>)
    ensures NotReached(w.turns(n), w.now, p, Owed(w, n, p, subtests)) == Owed(w, n + 1, p, subtests)
  {
    if subtests != [] {
      var init, last := subtests[..|subtests| - 1], subtests[|subtests| - 1];
      NotReachedIsOwed(w, n, p, init);
      var o := Owed(w, n, p, init);
      assert o + [] == o && (o + [last])[..|o|] == o;
    }
  }

  // --- other executors ---

  /** Anything may change but this batch's own results. */
  method OthersRun(store: TestResultsStore, commit: string, keys: set<string>)
    modifies store
    ensures forall k | k in keys :: Entry(store.byCommit, commit, k) == Entry(old(store.byCommit), commit, k)
  {
    var mem :| forall k | k in keys :: Entry(mem, commit, k) == Entry(store.byCommit, commit, k);
    store.byCommit := mem;
  }

  // --- the batch ---

  /** After n turns of the resume loop every key holds its first verdict, or the mark. */
  ghost predicate Recorded(w: World, n: nat, mem: ByCommit, commit: string, keys: set<string>) {
    forall k | k in keys ::
      Entry(mem, commit, k).Some? &&
      if FirstVerdict(w, n, k).Some? then Entry(mem, commit, k) == FirstVerdict(w, n, k)
      else Entry(mem, commit, k).value.status == Inprogress
  }

  method TakeTurn(store: TestResultsStore, w: World, n: nat, batch: seq<JobKey>, remaining: seq<string>)
    returns (next: seq<string>)
    requires IsBatch(batch) && remaining == Owed(w, n, batch[0], Subtests(batch))
    requires Recorded(w, n, store.byCommit, batch[0].commit, KeysOf(batch))
    modifies store
    ensures next == Owed(w, n + 1, batch[0], Subtests(batch))
    ensures Recorded(w, n + 1, store.byCommit, batch[0].commit, KeysOf(batch))
  {
    var p, commit := batch[0], batch[0].commit;
    ghost var before := store.byCommit;
    var verdicts;
    next, verdicts := Collect(p, remaining, w.turns(n), w.now);
    NotReachedIsOwed(w, n, p, Subtests(batch));
    var writeWorks: bool := *;
    store.Update(commit, verdicts, writeWorks);
    MergeRecords(w, n, batch, before, verdicts, store.byCommit);
  }

  lemma MergeRecords(w: World, n: nat, batch: seq<JobKey>, before: ByCommit, verdicts: TestResultsMap, after: ByCommit)
    requires IsBatch(batch) && Recorded(w, n, before, batch[0].commit, KeysOf(batch))
    requires var remaining := Owed(w, n, batch[0], Subtests(batch));
             verdicts.Keys == set i | 0 <= i < |remaining| :: KeyFor(batch[0], remaining[i])
    requires forall k | k in verdicts :: verdicts[k] == ReadBack(w.turns(n), w.now, k)
    requires after == Apply(before, Op.Update(batch[0].commit, verdicts))
    ensures Recorded(w, n + 1, after, batch[0].commit, KeysOf(batch))
  {
    var p, commit := batch[0], batch[0].commit;
    var remaining := Owed(w, n, p, Subtests(batch));
    forall k | k in KeysOf(batch)
      ensures k in verdicts <==> FirstVerdict(w, n, k).None?
    {
      var i :| 0 <= i < |batch| && ResultKey(batch[i]) == k;
      assert KeyFor(p, batch[i].subtest) == k;
      InOwed(w, n, p, Subtests(batch), batch[i].subtest);
      assert Subtests(batch)[i] == batch[i].subtest;
      if FirstVerdict(w, n, k).None? {
        assert batch[i].subtest in remaining;
        var j :| 0 <= j < |remaining| && remaining[j] == batch[i].subtest;
        assert KeyFor(p, remaining[j]) == k;
      }
      if k in verdicts {
        var j :| 0 <= j < |remaining| && KeyFor(p, remaining[j]) == k;
        InOwed(w, n, p, Subtests(batch), remaining[j]);
        assert remaining[j] in remaining;
      }
    }
    forall k | k in KeysOf(batch)
      ensures Entry(after, commit, k).Some?
      ensures if FirstVerdict(w, n + 1, k).Some? then Entry(after, commit, k) == FirstVerdict(w, n + 1, k)
              else Entry(after, commit, k).value.status == Inprogress
    {
      assert Entry(after, commit, k) == if k in verdicts then Some(verdicts[k]) else Entry(before, commit, k);
    }
  }

  // --- when the loop gives up, as the world has it ---

  function OwedBy(w: World, batch: seq<JobKey>, n: nat): seq<string>
    requires batch != []
  {
    Owed(w, n, batch[0], Subtests(batch))
  }

  /** The turn could not be run, or its results not pulled. */
  predicate Broke(w: World, t: nat) {
    !w.turns(t).runs || !w.turns(t).pulls
  }

  /** The turn decided none of the subtests that owed a verdict. */
  predicate Idle(w: World, batch: seq<JobKey>, t: nat)
    requires batch != []
  {
    OwedBy(w, batch, t + 1) == OwedBy(w, batch, t)
  }

  /** The loop ends in an error after this turn: it broke, or it was idle and either the
      git clean failed or a turn before it had been idle too. */
  predicate GivesUp(w: World, batch: seq<JobKey>, t: nat)
    requires batch != []
  {
    Broke(w, t)
    || (Idle(w, batch, t) && (!w.turns(t).cleans || exists s | 0 <= s < t :: Idle(w, batch, s)))
  }

  /** How the loop ended: after the first turn that left nothing owed, or else after the
      first that gave up; every turn that did not break was read back. */
  ghost predicate Ended(w: World, batch: seq<JobKey>, ok: bool, turns: nat, vmRuns: nat)
    requires batch != []
  {
    && (forall t | 0 <= t < vmRuns :: OwedBy(w, batch, t) != [])
    && (forall t: nat | t < vmRuns && (ok || t + 1 < vmRuns) :: !GivesUp(w, batch, t))
    && (if ok then OwedBy(w, batch, vmRuns) == [] else vmRuns > 0 && GivesUp(w, batch, vmRuns - 1))
    && turns == if !ok && Broke(w, vmRuns - 1) then vmRuns - 1 else vmRuns
  }

  /** Some turn leaves nothing owed, and none up to it gives up. */
  ghost predicate Succeeds(w: World, batch: seq<JobKey>)
    requires batch != []
  {
    exists n: nat :: OwedBy(w, batch, n) == [] && forall t: nat | t < n :: !GivesUp(w, batch, t)
  }

  /** The world alone decides whether the loop succeeds. */
  lemma EndedIff(w: World, batch: seq<JobKey>, ok: bool, turns: nat, vmRuns: nat)
    requires batch != [] && Ended(w, batch, ok, turns, vmRuns)
    ensures ok <==> Succeeds(w, batch)
  {
    hide Owed, OwedBy, GivesUp;
  }

  /** And how many turns it takes. */
  lemma EndedOnce(w: World, batch: seq<JobKey>, ok: bool, turns: nat, vmRuns: nat, turns': nat, vmRuns': nat)
    requires batch != [] && Ended(w, batch, ok, turns, vmRuns) && Ended(w, batch, ok, turns', vmRuns')
    ensures turns == turns' && vmRuns == vmRuns'
  {
    hide Owed, OwedBy, GivesUp;
  }

  /** If every VM run works, its results are pulled, and it decides something, the batch
      succeeds. */
  lemma ProgressSucceeds(w: World, batch: seq<JobKey>)
    requires batch != []
    requires forall t: nat | OwedBy(w, batch, t) != [] :: !Broke(w, t) && !Idle(w, batch, t)
    ensures Succeeds(w, batch)
  {
    OwedAtStart(w, batch[0], Subtests(batch));
    ProgressFrom(w, batch, 0);
  }

  lemma {:induction false} ProgressFrom(w: World, batch: seq<JobKey>, n: nat)
    requires batch != []
    requires forall t: nat | OwedBy(w, batch, t) != [] :: !Broke(w, t) && !Idle(w, batch, t)
    requires forall t: nat | t < n :: !GivesUp(w, batch, t)
    ensures Succeeds(w, batch)
    decreases |OwedBy(w, batch, n)|
  {
    hide Owed, FirstVerdict, IsSubsequence;
    if OwedBy(w, batch, n) != [] {
      OwedShrinks(w, n, batch[0], Subtests(batch));
      if |OwedBy(w, batch, n + 1)| == |OwedBy(w, batch, n)| {
        SameLengthSame(w, n, batch[0], Subtests(batch));
      }
      ProgressFrom(w, batch, n + 1);
    }
  }

  lemma IdleIff(w: World, batch: seq<JobKey>, t: nat)
    requires batch != []
    ensures Idle(w, batch, t) <==>
            |Owed(w, t + 1, batch[0], Subtests(batch))| == |Owed(w, t, batch[0], Subtests(batch))|
    ensures Idle(w, batch, t) ==> Owed(w, t + 1, batch[0], Subtests(batch)) == Owed(w, t, batch[0], Subtests(batch))
  {
    hide Owed;
    if |OwedBy(w, batch, t + 1)| == |OwedBy(w, batch, t)| {
      SameLengthSame(w, t, batch[0], Subtests(batch));
    }
  }

  /** The resume loop: at most |batch| + 1 runs whatever comes back, and it ends as the
      world has it. */
  method ResumeLoop(store: TestResultsStore, w: World, batch: seq<JobKey>)
    returns (r: Result<(), TaskError>, ghost turns: nat, ghost vmRuns: nat, ghost rounds: seq<seq<string>>)
    requires IsBatch(batch) && Recorded(w, 0, store.byCommit, batch[0].commit, KeysOf(batch))
    modifies store
    ensures Recorded(w, turns, store.byCommit, batch[0].commit, KeysOf(batch))
    ensures Ended(w, batch, r.Ok?, turns, vmRuns) && (r.Err? ==> r.error.Retry?)
    ensures r.Ok? <==> Owed(w, turns, batch[0], Subtests(batch)) == []
    ensures turns <= vmRuns <= |batch| + 1 && |rounds| == vmRuns
    ensures forall i | 0 <= i < |rounds| :: rounds[i] == Owed(w, i, batch[0], Subtests(batch))
  {
    hide Owed, KeysOf, FirstVerdict, IsSubsequence, Idle, Recorded, Entry;
    var p, commit := batch[0], batch[0].commit;
    var remaining := Subtests(batch);
    OwedAtStart(w, p, remaining);
    var didClean := false;
    var i: nat := 0;
    turns, vmRuns, rounds := 0, 0, [];
    while remaining != []
      invariant turns == i == vmRuns == |rounds|
      invariant remaining == Owed(w, i, p, Subtests(batch))
      invariant Recorded(w, i, store.byCommit, commit, KeysOf(batch))
      invariant vmRuns + |remaining| + (if didClean then 0 else 1) <= |batch| + 1
      invariant forall k | 0 <= k < |rounds| :: rounds[k] == Owed(w, k, p, Subtests(batch))
      invariant forall t | 0 <= t < vmRuns :: OwedBy(w, batch, t) != [] && !GivesUp(w, batch, t)
      invariant didClean <==> exists t | 0 <= t < vmRuns :: Idle(w, batch, t)
      decreases |remaining|, if didClean then 0 else 1
    {
      var turn := w.turns(i);
      vmRuns, rounds := vmRuns + 1, rounds + [remaining];
      WaitKeepsRecorded(store, w, i, batch);
      if !turn.runs {
        return Err(Retry), turns, vmRuns, rounds;
      }
      WaitKeepsRecorded(store, w, i, batch);
      if !turn.pulls {
        return Err(Retry), turns, vmRuns, rounds;
      }
      OwedShrinks(w, i, p, Subtests(batch));
      IdleIff(w, batch, i);
      var next := TakeTurn(store, w, i, batch, remaining);
      i := i + 1;
      turns := i;
      if |next| == |remaining| {
        if !didClean {
          didClean := true;
          WaitKeepsRecorded(store, w, i, batch);
          if !turn.cleans {
            return Err(Retry), turns, vmRuns, rounds;
          }
          continue;
        }
        return Err(Retry), turns, vmRuns, rounds;
      }
      remaining := next;
    }
    return Ok(()), turns, vmRuns, rounds;
  }

  lemma NoVerdictYet(w: World, key: string)
    ensures FirstVerdict(w, 0, key).None?
  {
  }

  lemma {:induction false} OwedAtStart(w: World, p: JobKey, subtests: seq<string>)
    ensures Owed(w, 0, p, subtests) == subtests
  {
    hide FirstVerdict, KeyFor;
    if subtests != [] {
      OwedAtStart(w, p, subtests[..|subtests| - 1]);
      NoVerdictYet(w, KeyFor(p, subtests[|subtests| - 1]));
    }
  }

  lemma {:induction false} SameLengthSame(w: World, n: nat, p: JobKey, subtests: seq<string>)
    requires |Owed(w, n + 1, p, subtests)| == |Owed(w, n, p, subtests)|
    ensures Owed(w, n + 1, p, subtests) == Owed(w, n, p, subtests)
  {
    if subtests != [] {
      OwedShrinks(w, n, p, subtests[..|subtests| - 1]);
      SameLengthSame(w, n, p, subtests[..|subtests| - 1]);
    }
  }

  lemma MarksRecord(w: World, batch: seq<JobKey>, before: ByCommit, marks: TestResultsMap)
    requires IsBatch(batch)
    requires marks.Keys == set i | 0 <= i < |batch| :: KeyFor(batch[0], Subtests(batch)[i])
    requires forall k | k in marks :: marks[k] == TestResult(Inprogress, w.now, 0)
    ensures Recorded(w, 0, Apply(before, Op.Update(batch[0].commit, marks)), batch[0].commit, KeysOf(batch))
  {
    forall k | k in KeysOf(batch)
      ensures k in marks
    {
      var i :| 0 <= i < |batch| && ResultKey(batch[i]) == k;
      assert KeyFor(batch[0], Subtests(batch)[i]) == k;
    }
  }

  predicate SetsUp(w: World) {
    forall i | 0 <= i < |w.setup| :: w.setup[i]
  }

  /** src/bin/ci-daemon.rs run_ktest_job_inner. */
  method RunInner(store: TestResultsStore, w: World, batch: seq<JobKey>)
    returns (r: Result<(), TaskError>, ghost turns: nat, ghost vmRuns: nat)
    requires IsBatch(batch)
    modifies store
    ensures w.repoUrl == "" ==> r == Err(Fatal) && store.byCommit == old(store.byCommit)
    ensures w.repoUrl != "" ==> Recorded(w, turns, store.byCommit, batch[0].commit, KeysOf(batch))
    ensures r == Err(Fatal) <==> w.repoUrl == ""
    ensures w.repoUrl != "" && SetsUp(w) ==> Ended(w, batch, r.Ok?, turns, vmRuns)
    ensures w.repoUrl == "" || !SetsUp(w) ==> r.Err? && turns == vmRuns == 0
    ensures r.Ok? <==> w.repoUrl != "" && Owed(w, turns, batch[0], Subtests(batch)) == []
    ensures vmRuns <= |batch| + 1
  {
    hide Owed, OwedBy, GivesUp, KeysOf, Recorded;
    var p := batch[0];
    turns, vmRuns := 0, 0;
    if w.repoUrl == "" {
      return Err(Fatal), 0, 0;
    }
    var marks := Marks(p, Subtests(batch), w.now);
    MarksRecord(w, batch, store.byCommit, marks);
    var writeWorks: bool := *;
    store.Update(p.commit, marks, writeWorks);
    OwedAtStart(w, p, Subtests(batch));
    for i := 0 to |w.setup|
      invariant Recorded(w, 0, store.byCommit, p.commit, KeysOf(batch))
      invariant forall k | 0 <= k < i :: w.setup[k]
    {
      WaitKeepsRecorded(store, w, 0, batch);
      if !w.setup[i] {
        return Err(Retry), 0, 0;
      }
    }
    ghost var rounds;
    r, turns, vmRuns, rounds := ResumeLoop(store, w, batch);
  }

  /** Waiting for the worker: the others run, this batch's results stand. */
  method WaitKeepsRecorded(store: TestResultsStore, w: World, n: nat, batch: seq<JobKey>)
    requires IsBatch(batch) && Recorded(w, n, store.byCommit, batch[0].commit, KeysOf(batch))
    modifies store
    ensures Recorded(w, n, store.byCommit, batch[0].commit, KeysOf(batch))
  {
    OthersRun(store, batch[0].commit, KeysOf(batch));
  }

  /** The sweep: whatever is still in progress failed to run. */
  method Sweep(store: TestResultsStore, batch: seq<JobKey>, now: int)
    requires IsBatch(batch)
    modifies store
    ensures forall k | k in KeysOf(batch) ::
              Entry(store.byCommit, batch[0].commit, k) == Swept(Entry(old(store.byCommit), batch[0].commit, k), now)
  {
    hide ResultKey;
    var commit := batch[0].commit;
    ghost var start := store.byCommit;
    var updates: TestResultsMap := map[];
    for i := 0 to |batch|
      invariant forall k | k in KeysOf(batch) :: Entry(store.byCommit, commit, k) == Entry(start, commit, k)
      invariant forall k | k in updates :: IsStuck(start, commit, k) && updates[k] == TestResult(FailedToRun, now, 0)
      invariant forall k | k in KeysOf(batch[..i]) && IsStuck(start, commit, k) :: k in updates
    {
      OthersRun(store, commit, KeysOf(batch));
      var key := ResultKey(batch[i]);
      assert key in KeysOf(batch);
      assert batch[..i + 1][..i] == batch[..i];
      KeysOfLonger(batch, i);
      var s := store.Lookup(commit, key);
      if s == Some(Inprogress) {
        updates := updates[key := TestResult(FailedToRun, now, 0)];
      }
    }
    assert batch[..|batch|] == batch;
    var writeWorks: bool := *;
    store.Update(commit, updates, writeWorks);
  }

  lemma KeysOfLonger(batch: seq<JobKey>, i: nat)
    requires i < |batch|
    ensures KeysOf(batch[..i + 1]) == KeysOf(batch[..i]) + {ResultKey(batch[i])}
  {
    hide ResultKey;
    var longer := batch[..i + 1];
    forall k | k in KeysOf(longer)
      ensures k in KeysOf(batch[..i]) + {ResultKey(batch[i])}
    {
      var j :| 0 <= j < |longer| && ResultKey(longer[j]) == k;
      if j < i {
        assert batch[..i][j] == longer[j];
      }
    }
    forall k | k in KeysOf(batch[..i]) + {ResultKey(batch[i])}
      ensures k in KeysOf(longer)
    {
      if k == ResultKey(batch[i]) {
        assert longer[i] == batch[i];
      } else {
        var j :| 0 <= j < i && ResultKey(batch[..i][j]) == k;
        assert longer[j] == batch[..i][j];
      }
    }
  }

  predicate IsStuck(mem: ByCommit, commit: string, key: string) {
    Entry(mem, commit, key).Some? && Entry(mem, commit, key).value.status == Inprogress
  }

  function Swept(e: Option<TestResult>, now: int): Option<TestResult> {
    if e.Some? && e.value.status == Inprogress then Some(TestResult(FailedToRun, now, 0)) else e
  }

  /** src/bin/ci-daemon.rs run_ktest_job: on every path out, whatever the worker
      did, each subtest of the batch has the first verdict read back for it, or
      failed to run; nothing is left in progress; success means every subtest got
      a verdict; and a verdict once read stands. It succeeds exactly when there is a
      repository URL, the setup works and so does the resume loop, which ends where the
      world has it end. Without a repository URL nothing is run and only a stale mark is
      touched. */
  method RunKtestJob(store: TestResultsStore, w: World, batch: seq<JobKey>)
    returns (r: Result<(), TaskError>, ghost turns: nat, ghost vmRuns: nat)
    requires IsBatch(batch)
    modifies store
    ensures vmRuns <= |batch| + 1
    ensures forall k | k in KeysOf(batch) :: !IsStuck(store.byCommit, batch[0].commit, k)
    ensures w.repoUrl != "" ==> forall k | k in KeysOf(batch) ::
              Entry(store.byCommit, batch[0].commit, k) ==
              if FirstVerdict(w, turns, k).Some? then FirstVerdict(w, turns, k)
              else Some(TestResult(FailedToRun, w.sweepTime, 0))
    ensures w.repoUrl == "" ==> forall k | k in KeysOf(batch) ::
              Entry(store.byCommit, batch[0].commit, k)
              == Swept(Entry(old(store.byCommit), batch[0].commit, k), w.sweepTime)
    ensures r.Ok? <==> w.repoUrl != "" && forall k | k in KeysOf(batch) :: FirstVerdict(w, turns, k).Some?
    ensures r.Ok? <==> w.repoUrl != "" && SetsUp(w) && Succeeds(w, batch)
    ensures r == Err(Fatal) <==> w.repoUrl == ""
    ensures w.repoUrl != "" && SetsUp(w) ==> Ended(w, batch, r.Ok?, turns, vmRuns)
    ensures w.repoUrl == "" || !SetsUp(w) ==> turns == vmRuns == 0
  {
    hide Ended, Succeeds, SetsUp;
    r, turns, vmRuns := RunInner(store, w, batch);
    AllDecidedIff(w, turns, batch);
    if w.repoUrl != "" && SetsUp(w) {
      EndedIff(w, batch, r.Ok?, turns, vmRuns);
    }
    OthersRun(store, batch[0].commit, KeysOf(batch));
    if r.Err? {
      Sweep(store, batch, w.sweepTime);
    }
  }

  lemma AllDecidedIff(w: World, n: nat, batch: seq<JobKey>)
    requires IsBatch(batch)
    ensures Owed(w, n, batch[0], Subtests(batch)) == [] <==> forall k | k in KeysOf(batch) ::
            FirstVerdict(w, n, k).Some?
  {
    var p, subtests := batch[0], Subtests(batch);
    var owed := Owed(w, n, p, subtests);
    if owed == [] {
      forall k | k in KeysOf(batch)
        ensures FirstVerdict(w, n, k).Some?
      {
        var i :| 0 <= i < |batch| && ResultKey(batch[i]) == k;
        InOwed(w, n, p, subtests, subtests[i]);
      }
    } else {
      InOwed(w, n, p, subtests, owed[0]);
      var i :| 0 <= i < |subtests| && subtests[i] == owed[0];
      assert ResultKey(batch[i]) in KeysOf(batch);
    }
  }
}
