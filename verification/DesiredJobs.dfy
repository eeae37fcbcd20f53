/** What desired_jobs (src/jobs.rs) returns: candidates in weight order, one per
    key, at most `limit` of them. */
module DesiredJobs {
  import opened Text
  import opened Status
  import opened Jobs

  // --- the order ---

  predicate StringsLess(a: seq<string>, b: seq<string>)
    requires |a| == |b|
  {
    a != [] && (Less(a[0], b[0]) || (a[0] == b[0] && StringsLess(a[1..], b[1..])))
  }

  lemma {:induction false} StringsTrichotomy(a: seq<string>, b: seq<string>)
    requires |a| == |b|
    ensures StringsLess(a, b) || a == b || StringsLess(b, a)
    ensures !(StringsLess(a, b) && StringsLess(b, a)) && !StringsLess(a, a)
  {
    if a != [] {
      LessTrichotomy(a[0], b[0]);
      StringsTrichotomy(a[1..], b[1..]);
      StringsTrichotomy(a[1..], a[1..]);
      assert a == [a[0]] + a[1..] && b == [b[0]] + b[1..];
    }
  }

  lemma {:induction false} StringsTransitive(a: seq<string>, b: seq<string>, c: seq<string>)
    requires |a| == |b| == |c| && StringsLess(a, b) && StringsLess(b, c)
    ensures StringsLess(a, c)
  {
    LessTrichotomy(a[0], a[0]);
    if a[0] == b[0] == c[0] {
      StringsTransitive(a[1..], b[1..], c[1..]);
    } else if a[0] != b[0] && b[0] != c[0] {
      LessTransitive(a[0], b[0], c[0]);
    }
  }

  function Names(j: Job): seq<string> {
    [j.key.commit, j.key.test, j.key.kernel, j.key.env]
  }

  /** The comparator of the sort: weight, then commit, test, kernel, env, duration. */
  predicate Before(a: Job, b: Job) {
    || Weight(a) < Weight(b)
    || (Weight(a) == Weight(b)
        && (StringsLess(Names(a), Names(b)) || (Names(a) == Names(b) && a.duration < b.duration)))
  }

  /** The order by its fields: the sum of age and niceness, then commit, test, kernel,
      environment and duration. */
  predicate InOrder(a: Job, b: Job) {
    var x, y, k, l := a.age + a.nice, b.age + b.nice, a.key, b.key;
    || x < y
    || (x == y
        && (|| Less(k.commit, l.commit)
            || (k.commit == l.commit && Less(k.test, l.test))
            || (k.commit == l.commit && k.test == l.test && Less(k.kernel, l.kernel))
            || (k.commit == l.commit && k.test == l.test && k.kernel == l.kernel && Less(k.env, l.env))
            || (k.commit == l.commit && k.test == l.test && k.kernel == l.kernel && k.env == l.env
                && a.duration <= b.duration)))
  }

  lemma NotAfterIs(a: Job, b: Job)
    ensures NotAfter(a, b) <==> InOrder(a, b)
  {
    var k, l := a.key, b.key;
    LessTrichotomy(k.commit, l.commit);
    LessTrichotomy(k.test, l.test);
    LessTrichotomy(k.kernel, l.kernel);
    LessTrichotomy(k.env, l.env);
    hide Less, StringsLess;
    FrontLess(l.commit, k.commit, [l.test, l.kernel, l.env], [k.test, k.kernel, k.env]);
    FrontLess(l.test, k.test, [l.kernel, l.env], [k.kernel, k.env]);
    FrontLess(l.kernel, k.kernel, [l.env], [k.env]);
    FrontLess(l.env, k.env, [], []);
    assert Names(a) == [k.commit] + [k.test, k.kernel, k.env] && Names(b) == [l.commit] + [l.test, l.kernel, l.env];
    assert [k.test, k.kernel, k.env] == [k.test] + [k.kernel, k.env];
    assert [l.test, l.kernel, l.env] == [l.test] + [l.kernel, l.env];
    assert [k.kernel, k.env] == [k.kernel] + [k.env] && [l.kernel, l.env] == [l.kernel] + [l.env];
    assert [k.env] == [k.env] + [] && [l.env] == [l.env] + [];
    if Names(a) == Names(b) {
      assert Names(a)[0] == Names(b)[0] && Names(a)[1] == Names(b)[1];
      assert Names(a)[2] == Names(b)[2] && Names(a)[3] == Names(b)[3];
    }
  }

  lemma FrontLess(x: string, y: string, xs: seq<string>, ys: seq<string>)
    requires |xs| == |ys|
    ensures StringsLess([x] + xs, [y] + ys) <==> Less(x, y) || (x == y && StringsLess(xs, ys))
    ensures !StringsLess([], [])
  {
    assert ([x] + xs)[1..] == xs && ([y] + ys)[1..] == ys;
  }

  predicate NotAfter(a: Job, b: Job) {
    !Before(b, a)
  }

  lemma NotAfterTotal(a: Job, b: Job)
    ensures NotAfter(a, b) || NotAfter(b, a)
    ensures Before(a, b) ==> NotAfter(a, b)
  {
    StringsTrichotomy(Names(a), Names(b));
  }

  lemma NotAfterTransitive(a: Job, b: Job, c: Job)
    requires NotAfter(a, b) && NotAfter(b, c)
    ensures NotAfter(a, c)
  {
    var x, y, z := Names(a), Names(b), Names(c);
    StringsTrichotomy(x, y);
    StringsTrichotomy(y, z);
    StringsTrichotomy(x, z);
    if StringsLess(x, y) && StringsLess(y, z) {
      StringsTransitive(x, y, z);
    }
    hide StringsLess, Names, Weight;
  }

  predicate Sorted(s: seq<Job>) {
    forall i, j | 0 <= i < j < |s| :: NotAfter(s[i], s[j])
  }

  /** After every job that is not after x: the place a stable sort gives a later x. */
  function Insert(s: seq<Job>, x: Job): seq<Job> {
    if s == [] || NotAfter(s[|s| - 1], x) then s + [x]
    else Insert(s[..|s| - 1], x) + [s[|s| - 1]]
  }

  /** sort_by: stable. */
  function Sort(s: seq<Job>): seq<Job> {
    if s == [] then [] else Insert(Sort(s[..|s| - 1]), s[|s| - 1])
  }

  lemma {:induction false} InsertKeeps(s: seq<Job>, x: Job)
    requires Sorted(s)
    ensures Sorted(Insert(s, x)) && multiset(Insert(s, x)) == multiset(s) + multiset{x}
    ensures forall j :: j in Insert(s, x) <==> j == x || j in s
  {
    hide NotAfter;
    if s != [] {
      var init, last := s[..|s| - 1], s[|s| - 1];
      assert s == init + [last];
      if NotAfter(last, x) {
        forall i | 0 <= i < |init|
          ensures NotAfter(s[i], x)
        {
          NotAfterTransitive(s[i], last, x);
        }
      } else {
        InsertKeeps(init, x);
        NotAfterTotal(last, x);
        var t := Insert(init, x);
        forall i | 0 <= i < |t|
          ensures NotAfter(t[i], last)
        {
          assert t[i] in t;
          if t[i] != x {
            var k :| 0 <= k < |init| && init[k] == t[i];
            assert s[k] == t[i];
          }
        }
      }
    }
  }

  lemma {:induction false} SortKeeps(s: seq<Job>)
    ensures Sorted(Sort(s)) && multiset(Sort(s)) == multiset(s)
    ensures forall j :: j in Sort(s) <==> j in s
  {
    if s != [] {
      SortKeeps(s[..|s| - 1]);
      InsertKeeps(Sort(s[..|s| - 1]), s[|s| - 1]);
      assert s == s[..|s| - 1] + [s[|s| - 1]];
    }
  }

  /** The jobs of s that neither come before x nor after it. */
  function Ties(s: seq<Job>, x: Job): seq<Job> {
    if s == [] then []
    else Ties(s[..|s| - 1], x) + if NotAfter(s[|s| - 1], x) && NotAfter(x, s[|s| - 1]) then [s[|s| - 1]] else []
  }

  lemma TiesLast(s: seq<Job>, last: Job, x: Job)
    ensures Ties(s + [last], x) == Ties(s, x) + if NotAfter(last, x) && NotAfter(x, last) then [last] else []
  {
    assert (s + [last])[..|s|] == s;
  }

  lemma {:induction false} InsertStable(s: seq<Job>, y: Job, x: Job)
    ensures Ties(Insert(s, y), x) == Ties(s + [y], x)
  {
    hide NotAfter, Ties;
    TiesLast(s, y, x);
    if s != [] && !NotAfter(s[|s| - 1], y) {
      var init, last := s[..|s| - 1], s[|s| - 1];
      assert s == init + [last];
      InsertStable(init, y, x);
      TiesLast(init, y, x);
      TiesLast(init, last, x);
      TiesLast(Insert(init, y), last, x);
      NotAfterTotal(last, y);
      if NotAfter(last, x) && NotAfter(x, y) {
        NotAfterTransitive(last, x, y);
      }
    }
  }

  /** Jobs that tie stay as they were. */
  lemma {:induction false} SortStable(s: seq<Job>, x: Job)
    ensures Ties(Sort(s), x) == Ties(s, x)
  {
    hide NotAfter;
    if s != [] {
      var init, last := s[..|s| - 1], s[|s| - 1];
      SortStable(init, x);
      InsertStable(Sort(init), last, x);
      TiesLast(Sort(init), last, x);
    }
  }

  // --- one job per key ---

  predicate HasKey(s: seq<Job>, k: JobKey) {
    exists i | 0 <= i < |s| :: s[i].key == k
  }

  /** `retain` with a set of keys already seen: the first job of every key. */
  function Firsts(s: seq<Job>): seq<Job> {
    if s == [] then []
    else
      var init := s[..|s| - 1];
      Firsts(init) + if HasKey(init, s[|s| - 1].key) then [] else [s[|s| - 1]]
  }

  predicate DistinctKeys(s: seq<Job>) {
    forall i, j | 0 <= i < j < |s| :: s[i].key != s[j].key
  }

  lemma {:induction false} FirstsKeep(s: seq<Job>)
    requires Sorted(s)
    ensures Sorted(Firsts(s)) && DistinctKeys(Firsts(s))
    ensures forall i | 0 <= i < |Firsts(s)| :: Firsts(s)[i] in s
    ensures forall k :: HasKey(Firsts(s), k) <==> HasKey(s, k)
    ensures forall i, j | 0 <= i < |Firsts(s)| && 0 <= j < |s| && Firsts(s)[i].key == s[j].key ::
            NotAfter(Firsts(s)[i], s[j])
  {
    hide NotAfter;
    if s != [] {
      var init, last := s[..|s| - 1], s[|s| - 1];
      FirstsKeep(init);
      var f := Firsts(init);
      assert forall i | 0 <= i < |init| :: init[i] == s[i];
      NotAfterTotal(last, last);
      forall i | 0 <= i < |f|
        ensures f[i] in s && NotAfter(f[i], last)
      {
        var k :| 0 <= k < |init| && init[k] == f[i];
        assert s[k] == f[i];
      }
      KeysAppend(init, last);
      assert s == init + [last];
      if HasKey(init, last.key) {
        assert Firsts(s) == f;
      } else {
        KeysAppend(f, last);
        assert !HasKey(f, last.key);
        forall i | 0 <= i < |f|
          ensures f[i].key != last.key
        {
        }
        forall j | 0 <= j < |init|
          ensures s[j].key != last.key
        {
          assert init[j].key != last.key;
        }
      }
    }
  }

  lemma KeysAppend(s: seq<Job>, x: Job)
    ensures forall k :: HasKey(s + [x], k) <==> HasKey(s, k) || k == x.key
  {
    forall k
      ensures HasKey(s + [x], k) <==> HasKey(s, k) || k == x.key
    {
      if HasKey(s, k) {
        var i :| 0 <= i < |s| && s[i].key == k;
        assert (s + [x])[i].key == k;
      }
      assert (s + [x])[|s|].key == x.key;
    }
  }

  // --- the whole function ---

  /** The matrix computed from one snapshot of the store. */
  function Desired(cfg: Config, snap: Snapshot, limit: nat): seq<Job> {
    var all := Firsts(Sort(Candidates(cfg, snap)));
    if limit < |all| then all[..limit] else all
  }

  /** Jobs come in order, each key once, each a wanted candidate, and of all
      candidates with its key one that no other comes before. */
  lemma DesiredSound(cfg: Config, snap: Snapshot, limit: nat)
    ensures var out := Desired(cfg, snap, limit);
            && |out| <= limit && Sorted(out) && DistinctKeys(out)
            && (forall i, j | 0 <= i < j < |out| :: InOrder(out[i], out[j]))
            && (forall i | 0 <= i < |out| :: IsCandidate(cfg, snap, out[i]))
            && forall i, j | 0 <= i < |out| && IsCandidate(cfg, snap, j) && j.key == out[i].key :: InOrder(out[i], j)
  {
    hide Sort, Firsts, Candidates, IsCandidate, NotAfter, InOrder;
    var c := Candidates(cfg, snap);
    var s := Sort(c);
    var all := Firsts(s);
    SortKeeps(c);
    FirstsKeep(s);
    var out := Desired(cfg, snap, limit);
    forall i | 0 <= i < |out|
      ensures IsCandidate(cfg, snap, out[i])
    {
      assert out[i] == all[i] && all[i] in s;
      CandidatesExact(cfg, snap, out[i]);
    }
    forall i, j | 0 <= i < j < |out|
      ensures InOrder(out[i], out[j])
    {
      NotAfterIs(out[i], out[j]);
    }
    forall i, j | 0 <= i < |out| && IsCandidate(cfg, snap, j) && j.key == out[i].key
      ensures InOrder(out[i], j)
    {
      CandidatesExact(cfg, snap, j);
      assert j in s;
      var k :| 0 <= k < |s| && s[k] == j;
      assert all[i].key == s[k].key && NotAfter(all[i], s[k]);
      NotAfterIs(all[i], s[k]);
    }
  }

  /** What is left out: a candidate whose key is not returned comes after everything
      returned, and it is left out only when the limit is reached. */
  lemma DesiredComplete(cfg: Config, snap: Snapshot, limit: nat, j: Job)
    requires IsCandidate(cfg, snap, j)
    ensures var out := Desired(cfg, snap, limit);
            HasKey(out, j.key) || (|out| == limit && forall i | 0 <= i < |out| :: InOrder(out[i], j))
  {
    hide Sort, Firsts, Candidates, IsCandidate, NotAfter, InOrder;
    var c := Candidates(cfg, snap);
    var s := Sort(c);
    var all := Firsts(s);
    SortKeeps(c);
    FirstsKeep(s);
    var out := Desired(cfg, snap, limit);
    CandidatesExact(cfg, snap, j);
    assert j in s;
    var k :| 0 <= k < |s| && s[k] == j;
    assert HasKey(s, j.key);
    var m :| 0 <= m < |all| && all[m].key == j.key;
    assert NotAfter(all[m], s[k]);
    if m < |out| {
      assert out[m].key == j.key;
    } else {
      forall i | 0 <= i < |out|
        ensures InOrder(out[i], j)
      {
        assert NotAfter(all[i], all[m]);
        NotAfterTransitive(all[i], all[m], j);
        NotAfterIs(all[i], j);
      }
    }
  }

  /** Nothing that has a verdict or is in progress is returned. */
  lemma DesiredUndecided(cfg: Config, snap: Snapshot, limit: nat, i: nat)
    requires i < |Desired(cfg, snap, limit)|
    ensures var k := Desired(cfg, snap, limit)[i].key;
            var place := SubtestResultKey(k.test, k.subtest, k.kernel, k.env);
            k.commit in snap && place in snap[k.commit] ==>
              snap[k.commit][place].status !in {Passed, Failed, Notrun, FailedToRun, Inprogress}
  {
    hide Desired, SubtestResultKey, NiceIs;
    DesiredSound(cfg, snap, limit);
    assert IsCandidate(cfg, snap, Desired(cfg, snap, limit)[i]);
  }

  // --- desired_jobs ---

  /** A store other threads keep writing to: every read may see something new. */
  class LiveStore {
    ghost var log: seq<(string, TestResultsMap)>

    /** `commit_results(commit).unwrap_or_default()`. */
    method CommitResults(commit: string) returns (m: TestResultsMap)
      modifies this
      ensures log == old(log) + [(commit, m)]
    {
      m := *;
      log := log + [(commit, m)];
    }
  }

  /** The snapshot made of the reads in the log, no commit read twice. */
  predicate IsReadOnce(log: seq<(string, TestResultsMap)>, cache: Snapshot) {
    && (forall i, j | 0 <= i < j < |log| :: log[i].0 != log[j].0)
    && (forall i | 0 <= i < |log| :: log[i].0 in cache && cache[log[i].0] == log[i].1)
    && (forall c | c in cache :: exists i | 0 <= i < |log| :: log[i].0 == c)
  }

  lemma ReadOne(log: seq<(string, TestResultsMap)>, cache: Snapshot, c: string, m: TestResultsMap)
    requires IsReadOnce(log, cache) && c !in cache
    ensures IsReadOnce(log + [(c, m)], cache[c := m])
  {
    var longer := log + [(c, m)];
    var next := cache[c := m];
    forall d | d in next
      ensures exists i | 0 <= i < |longer| :: longer[i].0 == d
    {
      if d == c {
        assert longer[|log|].0 == c;
      } else {
        var i :| 0 <= i < |log| && log[i].0 == d;
        assert longer[i].0 == d;
      }
    }
  }

  /** The commits of the ages below `ages`, and at that age of the first n specs, were read. */
  predicate Covers(cfg: Config, cache: Snapshot, ages: nat, n: nat) {
    forall i, a | 0 <= i < |cfg.specs| && 0 <= a < |cfg.specs[i].commits| && (a < ages || (a == ages && i < n)) ::
      cfg.specs[i].commits[a] in cache
  }

  predicate Extends(snap: Snapshot, cache: Snapshot) {
    forall c | c in cache :: c in snap && snap[c] == cache[c]
  }

  /** The innermost loop. */
  method JobsOfSubtest(cfg: Config, results: TestResultsMap, spec: TestSpec, age: nat, commit: string,
          subtest: string, before: seq<Job>)
    returns (out: seq<Job>)
    ensures out == before + KernelJobs(cfg, results, spec, age, commit, subtest, |spec.kernels|)
  {
    hide MakeJob, IsWanted;
    out := before;
    for k := 0 to |spec.kernels|
      invariant out == before + KernelJobs(cfg, results, spec, age, commit, subtest, k)
    {
      if IsWanted(results, spec, subtest, spec.kernels[k]) {
        out := out + [MakeJob(cfg, spec, age, commit, subtest, spec.kernels[k])];
      }
    }
  }

  /** The two inner loops, over one spec at one commit. */
  method JobsOfSpec(cfg: Config, results: TestResultsMap, spec: TestSpec, age: nat, commit: string, before: seq<Job>)
    returns (out: seq<Job>)
    ensures out == before + SubtestJobs(cfg, results, spec, age, commit, |spec.subtests|)
  {
    hide KernelJobs;
    out := before;
    for s := 0 to |spec.subtests|
      invariant out == before + SubtestJobs(cfg, results, spec, age, commit, s)
    {
      out := JobsOfSubtest(cfg, results, spec, age, commit, spec.subtests[s], out);
    }
  }

  /** One turn of the outer loop: every spec with a commit of that age. The
      results of a commit are fetched once and then shared. */
  method JobsOfAge(cfg: Config, store: LiveStore, age: nat, cached: Snapshot, before: seq<Job>)
    returns (cache: Snapshot, out: seq<Job>)
    requires IsReadOnce(store.log, cached) && Covers(cfg, cached, age, 0)
    modifies store
    ensures IsReadOnce(store.log, cache) && Extends(cache, cached) && Covers(cfg, cache, age + 1, 0)
    ensures forall snap | Extends(snap, cache) :: out == before + SpecJobs(cfg, snap, age, |cfg.specs|)
  {
    hide SubtestJobs, IsReadOnce;
    cache, out := cached, before;
    for i := 0 to |cfg.specs|
      invariant IsReadOnce(store.log, cache) && Extends(cache, cached) && Covers(cfg, cache, age, i)
      invariant forall snap | Extends(snap, cache) :: out == before + SpecJobs(cfg, snap, age, i)
    {
      var spec := cfg.specs[i];
      if age < |spec.commits| {
        var commit := spec.commits[age];
        ghost var known := cache;
        if commit !in cache {
          var m := store.CommitResults(commit);
          ReadOne(store.log[..|store.log| - 1], cache, commit, m);
          cache := cache[commit := m];
        }
        ghost var start := out;
        out := JobsOfSpec(cfg, cache[commit], spec, age, commit, out);
        forall snap | Extends(snap, cache)
          ensures out == before + SpecJobs(cfg, snap, age, i + 1)
        {
          assert Extends(snap, known);
          assert ResultsOf(snap, commit) == cache[commit];
        }
      }
    }
  }

  /** `retain` with the `seen` set. */
  method Retain(sorted: seq<Job>) returns (out: seq<Job>)
    ensures out == Firsts(sorted)
  {
    out := [];
    var seen: set<JobKey> := {};
    for i := 0 to |sorted|
      invariant out == Firsts(sorted[..i])
      invariant forall k :: k in seen <==> HasKey(sorted[..i], k)
    {
      assert sorted[..i + 1][..i] == sorted[..i] && sorted[..i + 1] == sorted[..i] + [sorted[i]];
      KeysAppend(sorted[..i], sorted[i]);
      if sorted[i].key !in seen {
        seen := seen + {sorted[i].key};
        out := out + [sorted[i]];
      }
    }
    assert sorted[..|sorted|] == sorted;
  }

  /** src/jobs.rs desired_jobs: even while the store changes under it, the answer
      is the matrix of one snapshot, in which every commit's results are what its
      single read returned. */
  method ComputeDesired(cfg: Config, store: LiveStore, limit: nat) returns (out: seq<Job>, ghost snap: Snapshot)
    requires store.log == []
    modifies store
    ensures IsReadOnce(store.log, snap) && Commits(cfg) <= snap.Keys
    ensures out == Desired(cfg, snap, limit)
  {
    var cache: Snapshot := map[];
    out := [];
    var maxAge := MaxAge(cfg.specs);
    for age := 0 to maxAge
      invariant IsReadOnce(store.log, cache) && Covers(cfg, cache, age, 0)
      invariant forall snap | Extends(snap, cache) :: out == AgeJobs(cfg, snap, age)
    {
      ghost var known := cache;
      cache, out := JobsOfAge(cfg, store, age, cache, out);
      assert forall snap | Extends(snap, cache) :: Extends(snap, known);
    }
    snap := cache;
    assert Extends(snap, cache) && Commits(cfg) <= snap.Keys;
    var sorted := Sort(out);
    out := Retain(sorted);
    if limit < |out| {
      out := out[..limit];
    }
  }
}
