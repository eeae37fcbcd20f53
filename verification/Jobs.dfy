/** The job matrix (src/jobs.rs desired_jobs): candidates are enumerated, sorted,
    deduplicated and truncated, with one read of the store per commit. */
module Jobs {
  import opened Text
  import opened Status
  import Durations
  import Groups

  datatype JobKey = JobKey(user: string, repo: string, commit: string, kernel: string, env: string,
                           test: string, subtest: string)

  datatype Job = Job(key: JobKey, age: nat, nice: int, duration: nat)

  /** One test of one group on one branch, with the branch's commits newest first. */
  datatype TestSpec = TestSpec(user: string, repo: string, test: string, env: string, group: Groups.Group,
                               subtests: seq<string>, kernels: seq<string>, commits: seq<string>)

  /** What the matrix is computed from: the specs, the statistics filed under a
      result key, and the duration of a test nobody has timed. */
  datatype Config = Config(specs: seq<TestSpec>, stats: map<string, Durations.Entry>, dflt: nat)

  function StatsOf(cfg: Config, key: string): Option<Durations.Entry> {
    if key in cfg.stats then Some(cfg.stats[key]) else None
  }

  type Snapshot = map<string, TestResultsMap>

  /** src/jobs.rs job_nice. */
  function JobNice(g: Groups.Group, stats: Option<Durations.Entry>): int {
    match stats
    case None => g.nice
    case Some(s) =>
      g.nice
      + (if g.alwaysPassesNice != 0 && s.passed != s.failed && s.passed + s.failed > g.alwaysPassesNice
         then g.alwaysPassesNice else 0)
      + (if g.durationNice != 0 then s.duration / g.durationNice else 0)
  }

  /** src/jobs.rs job_weight. */
  function Weight(j: Job): int {
    j.age + j.nice
  }

  // --- the candidates ---

  function ResultsOf(snap: Snapshot, commit: string): TestResultsMap {
    if commit in snap then snap[commit] else map[]
  }

  function MakeJob(cfg: Config, spec: TestSpec, age: nat, commit: string, subtest: string, kernel: string): Job {
    var timed := StatsOf(cfg, SubtestResultKey(spec.test, subtest, kernel, spec.env));
    Job(JobKey(spec.user, spec.repo, commit, kernel, spec.env, spec.test, subtest),
        age,
        JobNice(spec.group, StatsOf(cfg, SubtestResultKey(spec.test, subtest, "", ""))),
        if timed.Some? then timed.value.duration else cfg.dflt)
  }

  function KeyIn(spec: TestSpec, subtest: string, kernel: string): string {
    SubtestResultKey(spec.test, subtest, kernel, spec.env)
  }

  predicate IsWanted(results: TestResultsMap, spec: TestSpec, subtest: string, kernel: string) {
    JobWanted(StatusOf(results, KeyIn(spec, subtest, kernel)))
  }

  function KernelJobs(cfg: Config, results: TestResultsMap, spec: TestSpec, age: nat, commit: string,
          subtest: string, n: nat): seq<Job>
    requires n <= |spec.kernels|
  {
    if n == 0 then []
    else
      KernelJobs(cfg, results, spec, age, commit, subtest, n - 1)
      + if IsWanted(results, spec, subtest, spec.kernels[n - 1])
        then [MakeJob(cfg, spec, age, commit, subtest, spec.kernels[n - 1])] else []
  }

  function SubtestJobs(cfg: Config, results: TestResultsMap, spec: TestSpec, age: nat, commit: string, n: nat): seq<Job>
    requires n <= |spec.subtests|
  {
    if n == 0 then []
    else SubtestJobs(cfg, results, spec, age, commit, n - 1)
         + KernelJobs(cfg, results, spec, age, commit, spec.subtests[n - 1], |spec.kernels|)
  }

  function SpecJobs(cfg: Config, snap: Snapshot, age: nat, n: nat): seq<Job>
    requires n <= |cfg.specs|
  {
    if n == 0 then []
    else
      var spec := cfg.specs[n - 1];
      SpecJobs(cfg, snap, age, n - 1)
      + if age < |spec.commits|
        then SubtestJobs(cfg, ResultsOf(snap, spec.commits[age]), spec, age, spec.commits[age], |spec.subtests|)
        else []
  }

  function AgeJobs(cfg: Config, snap: Snapshot, ages: nat): seq<Job> {
    if ages == 0 then [] else AgeJobs(cfg, snap, ages - 1) + SpecJobs(cfg, snap, ages - 1, |cfg.specs|)
  }

  function MaxAge(specs: seq<TestSpec>): (m: nat)
    ensures forall i | 0 <= i < |specs| :: |specs[i].commits| <= m
  {
    if specs == [] then 0
    else
      var m := MaxAge(specs[..|specs| - 1]);
      var l := |specs[|specs| - 1].commits|;
      if l > m then l else m
  }

  /** The commits the matrix looks at. */
  function Commits(cfg: Config): set<string> {
    set i, a | 0 <= i < |cfg.specs| && 0 <= a < |cfg.specs[i].commits| :: cfg.specs[i].commits[a]
  }

  function Candidates(cfg: Config, snap: Snapshot): seq<Job> {
    AgeJobs(cfg, snap, MaxAge(cfg.specs))
  }

  /** The niceness of a subtest: its group's, more if it has statistics. The group's
      extra for tests with a record goes to those with more than so many verdicts that
      are not half and half; and one more for every so many seconds it takes. */
  predicate NiceIs(g: Groups.Group, stats: map<string, Durations.Entry>, name: string, nice: int) {
    if name !in stats then nice == g.nice
    else
      var e, often := stats[name], g.alwaysPassesNice;
      var record := if e.passed != e.failed && e.passed + e.failed > often then often else 0;
      var slow := nice - g.nice - record;
      if g.durationNice == 0 then slow == 0
      else slow * g.durationNice <= e.duration < (slow + 1) * g.durationNice
  }

  /** The job of this subtest and kernel of the spec, at the age it has: there is nothing
      recorded at its place, or an unknown status. */
  predicate Yields(cfg: Config, snap: Snapshot, spec: TestSpec, subtest: string, kernel: string, j: Job) {
    && j.age < |spec.commits|
    && var commit, place := spec.commits[j.age], SubtestResultKey(spec.test, subtest, kernel, spec.env);
       && (commit in snap && place in snap[commit] ==> snap[commit][place].status == Unknown)
       && j.key == JobKey(spec.user, spec.repo, commit, kernel, spec.env, spec.test, subtest)
       && j.duration == (if place in cfg.stats then cfg.stats[place].duration else cfg.dflt)
       && NiceIs(spec.group, cfg.stats, SubtestResultKey(spec.test, subtest, "", ""), j.nice)
  }

  lemma NiceIsIff(g: Groups.Group, stats: map<string, Durations.Entry>, name: string, nice: int)
    ensures NiceIs(g, stats, name, nice) <==>
            nice == JobNice(g, if name in stats then Some(stats[name]) else None)
  {
    if name in stats && g.durationNice != 0 {
      var e, often := stats[name], g.alwaysPassesNice;
      var record := if e.passed != e.failed && e.passed + e.failed > often then often else 0;
      QuotientIff(e.duration, g.durationNice, nice - g.nice - record);
    }
  }

  lemma QuotientIff(a: nat, n: nat, q: int)
    requires n > 0
    ensures q == a / n <==> q * n <= a < (q + 1) * n
  {
    if q >= 0 {
      Durations.QuotientAtLeast(a, n, q);
      Durations.QuotientAtLeast(a, n, q + 1);
    } else {
      Durations.MulMonotone(0, -(q + 1), n);
      assert (q + 1) * n == -(-(q + 1) * n);
    }
  }

  lemma YieldsIff(cfg: Config, snap: Snapshot, spec: TestSpec, subtest: string, kernel: string, j: Job)
    requires j.age < |spec.commits|
    ensures Yields(cfg, snap, spec, subtest, kernel, j) <==>
            IsWanted(ResultsOf(snap, spec.commits[j.age]), spec, subtest, kernel)
            && j == MakeJob(cfg, spec, j.age, spec.commits[j.age], subtest, kernel)
  {
    hide SubtestResultKey, NiceIs, JobNice;
    NiceIsIff(spec.group, cfg.stats, SubtestResultKey(spec.test, subtest, "", ""), j.nice);
  }

  predicate YieldsAny(cfg: Config, snap: Snapshot, spec: TestSpec, j: Job) {
    exists s, k | 0 <= s < |spec.subtests| && 0 <= k < |spec.kernels| ::
      Yields(cfg, snap, spec, spec.subtests[s], spec.kernels[k], j)
  }

  /** The matrix by membership: some spec has this commit at this age, this
      subtest and this kernel, and what is recorded for them is no verdict and no run. */
  predicate IsCandidate(cfg: Config, snap: Snapshot, j: Job) {
    exists i | 0 <= i < |cfg.specs| :: YieldsAny(cfg, snap, cfg.specs[i], j)
  }

  predicate InKernel(cfg: Config, results: TestResultsMap, spec: TestSpec, age: nat, commit: string,
          subtest: string, kernel: string, j: Job) {
    IsWanted(results, spec, subtest, kernel) && j == MakeJob(cfg, spec, age, commit, subtest, kernel)
  }

  lemma {:induction false} InKernelJobs(cfg: Config, results: TestResultsMap, spec: TestSpec, age: nat,
          commit: string, subtest: string, n: nat, j: Job)
    requires n <= |spec.kernels|
    ensures j in KernelJobs(cfg, results, spec, age, commit, subtest, n) <==>
            exists k | 0 <= k < n :: InKernel(cfg, results, spec, age, commit, subtest, spec.kernels[k], j)
  {
    hide MakeJob, IsWanted;
    if n > 0 {
      InKernelJobs(cfg, results, spec, age, commit, subtest, n - 1, j);
      assert j in KernelJobs(cfg, results, spec, age, commit, subtest, n) <==>
             j in KernelJobs(cfg, results, spec, age, commit, subtest, n - 1)
             || InKernel(cfg, results, spec, age, commit, subtest, spec.kernels[n - 1], j);
    }
  }

  predicate InSubtest(cfg: Config, results: TestResultsMap, spec: TestSpec, age: nat, commit: string,
          subtest: string, j: Job) {
    j in KernelJobs(cfg, results, spec, age, commit, subtest, |spec.kernels|)
  }

  lemma {:induction false} InSubtestJobs(cfg: Config, results: TestResultsMap, spec: TestSpec, age: nat,
          commit: string, n: nat, j: Job)
    requires n <= |spec.subtests|
    ensures j in SubtestJobs(cfg, results, spec, age, commit, n) <==>
            exists s | 0 <= s < n :: InSubtest(cfg, results, spec, age, commit, spec.subtests[s], j)
  {
    hide KernelJobs;
    if n > 0 {
      InSubtestJobs(cfg, results, spec, age, commit, n - 1, j);
      assert j in SubtestJobs(cfg, results, spec, age, commit, n) <==>
             j in SubtestJobs(cfg, results, spec, age, commit, n - 1)
             || InSubtest(cfg, results, spec, age, commit, spec.subtests[n - 1], j);
    }
  }

  predicate InSpec(cfg: Config, snap: Snapshot, age: nat, spec: TestSpec, j: Job) {
    age < |spec.commits|
    && j in SubtestJobs(cfg, ResultsOf(snap, spec.commits[age]), spec, age, spec.commits[age], |spec.subtests|)
  }

  lemma {:induction false} InSpecJobs(cfg: Config, snap: Snapshot, age: nat, n: nat, j: Job)
    requires n <= |cfg.specs|
    ensures j in SpecJobs(cfg, snap, age, n) <==> exists i | 0 <= i < n :: InSpec(cfg, snap, age, cfg.specs[i], j)
  {
    hide SubtestJobs, ResultsOf;
    if n > 0 {
      InSpecJobs(cfg, snap, age, n - 1, j);
      assert j in SpecJobs(cfg, snap, age, n) <==>
             j in SpecJobs(cfg, snap, age, n - 1) || InSpec(cfg, snap, age, cfg.specs[n - 1], j);
    }
  }

  predicate InAge(cfg: Config, snap: Snapshot, age: nat, j: Job) {
    j in SpecJobs(cfg, snap, age, |cfg.specs|)
  }

  lemma {:induction false} InAgeJobs(cfg: Config, snap: Snapshot, ages: nat, j: Job)
    ensures j in AgeJobs(cfg, snap, ages) <==> exists a | 0 <= a < ages :: InAge(cfg, snap, a, j)
  {
    hide SpecJobs;
    if ages > 0 {
      InAgeJobs(cfg, snap, ages - 1, j);
      assert j in AgeJobs(cfg, snap, ages) <==> j in AgeJobs(cfg, snap, ages - 1) || InAge(cfg, snap, ages - 1, j);
    }
  }

  lemma InSpecIff(cfg: Config, snap: Snapshot, age: nat, spec: TestSpec, j: Job)
    ensures InSpec(cfg, snap, age, spec, j) <==> j.age == age && YieldsAny(cfg, snap, spec, j)
  {
    hide IsWanted, SubtestResultKey, KernelJobs, SubtestJobs, JobNice, NiceIs;
    if age < |spec.commits| {
      var commit := spec.commits[age];
      var results := ResultsOf(snap, commit);
      InSubtestJobs(cfg, results, spec, age, commit, |spec.subtests|, j);
      forall s | 0 <= s < |spec.subtests|
        ensures InSubtest(cfg, results, spec, age, commit, spec.subtests[s], j) <==>
                exists k | 0 <= k < |spec.kernels| ::
                  InKernel(cfg, results, spec, age, commit, spec.subtests[s], spec.kernels[k], j)
      {
        InKernelJobs(cfg, results, spec, age, commit, spec.subtests[s], |spec.kernels|, j);
      }
      forall s, k | 0 <= s < |spec.subtests| && 0 <= k < |spec.kernels|
        ensures InKernel(cfg, results, spec, age, commit, spec.subtests[s], spec.kernels[k], j) <==>
                j.age == age && Yields(cfg, snap, spec, spec.subtests[s], spec.kernels[k], j)
      {
        if j.age == age {
          YieldsIff(cfg, snap, spec, spec.subtests[s], spec.kernels[k], j);
        }
      }
    }
  }

  lemma InAgeIff(cfg: Config, snap: Snapshot, age: nat, j: Job)
    ensures InAge(cfg, snap, age, j) <==> j.age == age && IsCandidate(cfg, snap, j)
  {
    InSpecJobs(cfg, snap, age, |cfg.specs|, j);
    hide SpecJobs, InSpec, YieldsAny;
    forall i | 0 <= i < |cfg.specs|
      ensures InSpec(cfg, snap, age, cfg.specs[i], j) <==> j.age == age && YieldsAny(cfg, snap, cfg.specs[i], j)
    {
      InSpecIff(cfg, snap, age, cfg.specs[i], j);
    }
  }

  /** The nested loops enumerate exactly the candidates. */
  lemma CandidatesExact(cfg: Config, snap: Snapshot, j: Job)
    ensures j in Candidates(cfg, snap) <==> IsCandidate(cfg, snap, j)
  {
    var m := MaxAge(cfg.specs);
    InAgeJobs(cfg, snap, m, j);
    hide AgeJobs, InAge;
    forall a: nat
      ensures InAge(cfg, snap, a, j) <==> j.age == a && IsCandidate(cfg, snap, j)
    {
      InAgeIff(cfg, snap, a, j);
    }
    if IsCandidate(cfg, snap, j) {
      var i :| 0 <= i < |cfg.specs| && YieldsAny(cfg, snap, cfg.specs[i], j);
      assert j.age < |cfg.specs[i].commits| <= m;
      assert InAge(cfg, snap, j.age, j);
    }
  }
}
