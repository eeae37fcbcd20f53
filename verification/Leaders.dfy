/** Which jobs the daemon may ever run: at every result place the first `window` jobs
    the matrix lists for it. Recorded verdicts thin the matrix out by place, so they
    change which places are served, not which jobs serve them. */
module Leaders {
  import opened Text
  import opened Status
  import opened Jobs
  import opened Daemon
  import DesiredJobs

  /** The jobs at places that are not closed, in order. */
  function Open(s: seq<Job>, closed: set<Loc>): seq<Job> {
    if s == [] then []
    else if LocOf(s[|s| - 1].key) in closed then Open(s[..|s| - 1], closed)
    else Open(s[..|s| - 1], closed) + [s[|s| - 1]]
  }

  lemma {:induction false} OpenAppend(a: seq<Job>, b: seq<Job>, closed: set<Loc>)
    ensures Open(a + b, closed) == Open(a, closed) + Open(b, closed)
  {
    hide LocOf;
    if b == [] {
      assert a + b == a;
    } else {
      assert (a + b)[..|a + b| - 1] == a + b[..|b| - 1];
      OpenAppend(a, b[..|b| - 1], closed);
    }
  }

  lemma {:induction false} InOpen(s: seq<Job>, closed: set<Loc>)
    ensures forall j :: j in Open(s, closed) <==> j in s && LocOf(j.key) !in closed
  {
    hide LocOf;
    if s != [] {
      InOpen(s[..|s| - 1], closed);
      assert s == s[..|s| - 1] + [s[|s| - 1]];
    }
  }

  /** Closing more places later is closing them at once. */
  lemma {:induction false} OpenTwice(s: seq<Job>, some: set<Loc>, all: set<Loc>)
    requires forall j | j in s && LocOf(j.key) in some :: LocOf(j.key) in all
    ensures Open(Open(s, some), all) == Open(s, all)
  {
    hide LocOf;
    if s != [] {
      var init, last := s[..|s| - 1], s[|s| - 1];
      assert forall j | j in init :: j in s;
      OpenTwice(init, some, all);
      OpenAppend(Open(init, some), [last], all);
      OpenOne(last, all);
      assert last in s;
    }
  }

  /** A job that stays moves forward only. */
  lemma {:induction false} OpenIndex(s: seq<Job>, closed: set<Loc>, i: nat) returns (k: nat)
    requires i < |s| && LocOf(s[i].key) !in closed
    ensures k <= i && k < |Open(s, closed)| && Open(s, closed)[k] == s[i]
  {
    hide LocOf;
    var init := s[..|s| - 1];
    if i < |init| {
      k := OpenIndex(init, closed, i);
    } else {
      k := |Open(init, closed)|;
      OpenShorter(init, closed);
    }
  }

  lemma {:induction false} OpenShorter(s: seq<Job>, closed: set<Loc>)
    ensures |Open(s, closed)| <= |s|
  {
    if s != [] {
      OpenShorter(s[..|s| - 1], closed);
    }
  }

  // --- sorting and deduplicating what is open ---

  lemma {:induction false} OpenSorted(s: seq<Job>, closed: set<Loc>)
    requires DesiredJobs.Sorted(s)
    ensures DesiredJobs.Sorted(Open(s, closed))
  {
    hide LocOf, DesiredJobs.NotAfter;
    if s != [] {
      var init, last := s[..|s| - 1], s[|s| - 1];
      OpenSorted(init, closed);
      InOpen(init, closed);
      forall i | 0 <= i < |Open(init, closed)|
        ensures DesiredJobs.NotAfter(Open(init, closed)[i], last)
      {
        var k :| 0 <= k < |init| && init[k] == Open(init, closed)[i];
        assert s[k] == init[k];
      }
    }
  }

  lemma {:induction false} OpenInsert(s: seq<Job>, x: Job, closed: set<Loc>)
    requires DesiredJobs.Sorted(s)
    ensures Open(DesiredJobs.Insert(s, x), closed)
         == if LocOf(x.key) in closed then Open(s, closed) else DesiredJobs.Insert(Open(s, closed), x)
  {
    hide LocOf, DesiredJobs.NotAfter;
    OpenOne(x, closed);
    if s == [] {
      assert [] + [x] == [x];
    } else {
      var init, last := s[..|s| - 1], s[|s| - 1];
      if DesiredJobs.NotAfter(last, x) {
        OpenAppend(s, [x], closed);
        if LocOf(x.key) !in closed {
          InsertAtEnd(s, x, closed);
        }
      } else {
        OpenInsert(init, x, closed);
        OpenAppend(DesiredJobs.Insert(init, x), [last], closed);
        OpenOne(last, closed);
        if LocOf(last.key) !in closed {
          assert (Open(init, closed) + [last])[..|Open(init, closed)|] == Open(init, closed);
        }
      }
    }
  }

  lemma OpenOne(x: Job, closed: set<Loc>)
    ensures Open([x], closed) == if LocOf(x.key) in closed then [] else [x]
  {
    assert [x][..0] == [] && Open([], closed) == [];
  }

  /** Nothing in s is after x, so nothing that stays is. */
  lemma InsertAtEnd(s: seq<Job>, x: Job, closed: set<Loc>)
    requires DesiredJobs.Sorted(s) && s != [] && DesiredJobs.NotAfter(s[|s| - 1], x)
    ensures DesiredJobs.Insert(Open(s, closed), x) == Open(s, closed) + [x]
  {
    hide LocOf, DesiredJobs.NotAfter;
    var o := Open(s, closed);
    if o != [] {
      InOpen(s, closed);
      assert o[|o| - 1] in o;
      var k :| 0 <= k < |s| && s[k] == o[|o| - 1];
      if k < |s| - 1 {
        DesiredJobs.NotAfterTransitive(s[k], s[|s| - 1], x);
      }
    }
  }

  lemma {:induction false} OpenSort(s: seq<Job>, closed: set<Loc>)
    ensures Open(DesiredJobs.Sort(s), closed) == DesiredJobs.Sort(Open(s, closed))
  {
    hide LocOf, DesiredJobs.Insert;
    if s != [] {
      var init, last := s[..|s| - 1], s[|s| - 1];
      OpenSort(init, closed);
      DesiredJobs.SortKeeps(init);
      OpenInsert(DesiredJobs.Sort(init), last, closed);
      if LocOf(last.key) !in closed {
        assert (Open(init, closed) + [last])[..|Open(init, closed)|] == Open(init, closed);
      }
    }
  }

  lemma {:induction false} OpenFirsts(s: seq<Job>, closed: set<Loc>)
    ensures Open(DesiredJobs.Firsts(s), closed) == DesiredJobs.Firsts(Open(s, closed))
  {
    hide LocOf;
    if s != [] {
      var init, last := s[..|s| - 1], s[|s| - 1];
      OpenFirsts(init, closed);
      OpenOne(last, closed);
      if LocOf(last.key) !in closed {
        SameKeys(init, closed, last.key);
        assert (Open(init, closed) + [last])[..|Open(init, closed)|] == Open(init, closed);
      }
      hide DesiredJobs.HasKey;
      assert DesiredJobs.Firsts(init) + [] == DesiredJobs.Firsts(init);
      var f := DesiredJobs.Firsts(Open(init, closed));
      assert f + [] == f;
      OpenAppend(DesiredJobs.Firsts(init), [last], closed);
    }
  }

  lemma SameKeys(s: seq<Job>, closed: set<Loc>, k: JobKey)
    requires LocOf(k) !in closed
    ensures DesiredJobs.HasKey(Open(s, closed), k) <==> DesiredJobs.HasKey(s, k)
  {
    hide LocOf;
    InOpen(s, closed);
    if DesiredJobs.HasKey(s, k) {
      var i :| 0 <= i < |s| && s[i].key == k;
      assert s[i] in Open(s, closed);
      var m :| 0 <= m < |Open(s, closed)| && Open(s, closed)[m] == s[i];
    }
    if DesiredJobs.HasKey(Open(s, closed), k) {
      var m :| 0 <= m < |Open(s, closed)| && Open(s, closed)[m].key == k;
      assert Open(s, closed)[m] in s;
    }
  }

  // --- the matrix by what is recorded ---

  function Flat(snap: Snapshot): map<Loc, TestStatus> {
    map c, k | c in snap && k in snap[c] :: (c, k) := snap[c][k].status
  }

  /** The places whose recorded status leaves nothing wanted. */
  function Closed(snap: Snapshot): set<Loc> {
    set l | l in Flat(snap) && !JobWanted(Some(Flat(snap)[l]))
  }

  lemma WantedIffOpen(snap: Snapshot, spec: TestSpec, commit: string, subtest: string, kernel: string)
    ensures IsWanted(ResultsOf(snap, commit), spec, subtest, kernel)
            <==> (commit, KeyIn(spec, subtest, kernel)) !in Closed(snap)
    ensures IsWanted(map[], spec, subtest, kernel)
  {
    hide KeyIn;
  }

  lemma OpenNone(closed: set<Loc>)
    ensures Open([], closed) == []
  {
  }

  lemma KernelStep(cfg: Config, results: TestResultsMap, spec: TestSpec, age: nat, commit: string,
                   subtest: string, n: nat)
    requires n <= |spec.kernels|
    ensures KernelJobs(cfg, results, spec, age, commit, subtest, n) ==
            if n == 0 then []
            else if IsWanted(results, spec, subtest, spec.kernels[n - 1]) then
              KernelJobs(cfg, results, spec, age, commit, subtest, n - 1)
              + [MakeJob(cfg, spec, age, commit, subtest, spec.kernels[n - 1])]
            else KernelJobs(cfg, results, spec, age, commit, subtest, n - 1)
  {
    hide IsWanted, MakeJob;
    if n > 0 {
      var before := KernelJobs(cfg, results, spec, age, commit, subtest, n - 1);
      assert before + [] == before;
    }
  }

  lemma {:induction false} KernelOpen(cfg: Config, snap: Snapshot, spec: TestSpec, age: nat, commit: string,
                                      subtest: string, n: nat)
    requires n <= |spec.kernels|
    ensures KernelJobs(cfg, ResultsOf(snap, commit), spec, age, commit, subtest, n)
         == Open(KernelJobs(cfg, map[], spec, age, commit, subtest, n), Closed(snap))
  {
    hide *;
    KernelStep(cfg, ResultsOf(snap, commit), spec, age, commit, subtest, n);
    KernelStep(cfg, map[], spec, age, commit, subtest, n);
    if n == 0 {
      OpenNone(Closed(snap));
    } else {
      KernelOpen(cfg, snap, spec, age, commit, subtest, n - 1);
      WantedIffOpen(snap, spec, commit, subtest, spec.kernels[n - 1]);
      var j := MakeJob(cfg, spec, age, commit, subtest, spec.kernels[n - 1]);
      PlaceOfJob(cfg, spec, age, commit, subtest, spec.kernels[n - 1]);
      OpenLast(KernelJobs(cfg, map[], spec, age, commit, subtest, n - 1), j, Closed(snap));
    }
  }

  lemma OpenLast(s: seq<Job>, x: Job, closed: set<Loc>)
    ensures Open(s + [x], closed) == if LocOf(x.key) in closed then Open(s, closed) else Open(s, closed) + [x]
  {
    hide LocOf;
    assert (s + [x])[..|s|] == s;
  }

  lemma PlaceOfJob(cfg: Config, spec: TestSpec, age: nat, commit: string, subtest: string, kernel: string)
    ensures LocOf(MakeJob(cfg, spec, age, commit, subtest, kernel).key) == (commit, KeyIn(spec, subtest, kernel))
  {
    hide SubtestResultKey;
  }

  lemma SubtestStep(cfg: Config, results: TestResultsMap, spec: TestSpec, age: nat, commit: string, n: nat)
    requires n <= |spec.subtests|
    ensures SubtestJobs(cfg, results, spec, age, commit, n) ==
            if n == 0 then []
            else SubtestJobs(cfg, results, spec, age, commit, n - 1)
                 + KernelJobs(cfg, results, spec, age, commit, spec.subtests[n - 1], |spec.kernels|)
  {
    hide KernelJobs;
  }

  lemma {:induction false} SubtestOpen(cfg: Config, snap: Snapshot, spec: TestSpec, age: nat, commit: string, n: nat)
    requires n <= |spec.subtests|
    ensures SubtestJobs(cfg, ResultsOf(snap, commit), spec, age, commit, n)
         == Open(SubtestJobs(cfg, map[], spec, age, commit, n), Closed(snap))
  {
    hide *;
    SubtestStep(cfg, ResultsOf(snap, commit), spec, age, commit, n);
    SubtestStep(cfg, map[], spec, age, commit, n);
    if n == 0 {
      OpenNone(Closed(snap));
    } else {
      SubtestOpen(cfg, snap, spec, age, commit, n - 1);
      KernelOpen(cfg, snap, spec, age, commit, spec.subtests[n - 1], |spec.kernels|);
      OpenAppend(SubtestJobs(cfg, map[], spec, age, commit, n - 1),
                 KernelJobs(cfg, map[], spec, age, commit, spec.subtests[n - 1], |spec.kernels|), Closed(snap));
    }
  }

  lemma SpecStep(cfg: Config, snap: Snapshot, age: nat, n: nat)
    requires n <= |cfg.specs|
    ensures SpecJobs(cfg, snap, age, n) ==
            if n == 0 then []
            else if age < |cfg.specs[n - 1].commits| then
              SpecJobs(cfg, snap, age, n - 1)
              + SubtestJobs(cfg, ResultsOf(snap, cfg.specs[n - 1].commits[age]), cfg.specs[n - 1], age,
                            cfg.specs[n - 1].commits[age], |cfg.specs[n - 1].subtests|)
            else SpecJobs(cfg, snap, age, n - 1)
  {
    hide SubtestJobs;
    if n > 0 {
      assert SpecJobs(cfg, snap, age, n - 1) + [] == SpecJobs(cfg, snap, age, n - 1);
    }
  }

  lemma NoResults(commit: string)
    ensures ResultsOf(map[], commit) == map[]
  {
  }

  lemma {:induction false} SpecOpen(cfg: Config, snap: Snapshot, age: nat, n: nat)
    requires n <= |cfg.specs|
    ensures SpecJobs(cfg, snap, age, n) == Open(SpecJobs(cfg, map[], age, n), Closed(snap))
  {
    hide *;
    SpecStep(cfg, snap, age, n);
    SpecStep(cfg, map[], age, n);
    if n == 0 {
      OpenNone(Closed(snap));
    } else {
      SpecOpen(cfg, snap, age, n - 1);
      var spec := cfg.specs[n - 1];
      if age < |spec.commits| {
        NoResults(spec.commits[age]);
        SubtestOpen(cfg, snap, spec, age, spec.commits[age], |spec.subtests|);
        OpenAppend(SpecJobs(cfg, map[], age, n - 1),
                   SubtestJobs(cfg, map[], spec, age, spec.commits[age], |spec.subtests|), Closed(snap));
      }
    }
  }

  lemma AgeStep(cfg: Config, snap: Snapshot, ages: nat)
    ensures AgeJobs(cfg, snap, ages) ==
            if ages == 0 then [] else AgeJobs(cfg, snap, ages - 1) + SpecJobs(cfg, snap, ages - 1, |cfg.specs|)
  {
    hide SpecJobs;
  }

  lemma {:induction false} AgeOpen(cfg: Config, snap: Snapshot, ages: nat)
    ensures AgeJobs(cfg, snap, ages) == Open(AgeJobs(cfg, map[], ages), Closed(snap))
  {
    hide *;
    AgeStep(cfg, snap, ages);
    AgeStep(cfg, map[], ages);
    if ages == 0 {
      OpenNone(Closed(snap));
    } else {
      AgeOpen(cfg, snap, ages - 1);
      SpecOpen(cfg, snap, ages - 1, |cfg.specs|);
      OpenAppend(AgeJobs(cfg, map[], ages - 1), SpecJobs(cfg, map[], ages - 1, |cfg.specs|), Closed(snap));
    }
  }

  /** Everything the matrix lists, in its order, as if nothing were recorded. */
  function All(cfg: Config): seq<Job> {
    DesiredJobs.Firsts(DesiredJobs.Sort(Candidates(cfg, map[])))
  }

  function Cut(s: seq<Job>, n: nat): seq<Job> {
    if n < |s| then s[..n] else s
  }

  /** desired_jobs is the whole list less the closed places, cut at the limit. */
  lemma DesiredIs(cfg: Config, snap: Snapshot, limit: nat)
    ensures DesiredJobs.Desired(cfg, snap, limit) == Cut(Open(All(cfg), Closed(snap)), limit)
  {
    hide AgeJobs, Closed, DesiredJobs.Sort, DesiredJobs.Firsts;
    var c := Candidates(cfg, map[]);
    AgeOpen(cfg, snap, MaxAge(cfg.specs));
    OpenSort(c, Closed(snap));
    OpenFirsts(DesiredJobs.Sort(c), Closed(snap));
  }

  // --- leaders ---

  function Places(jobs: seq<Job>): set<Loc> {
    set i | 0 <= i < |jobs| :: LocOf(jobs[i].key)
  }

  /** The first `window` jobs listed for a place. */
  function LeadersAt(cfg: Config, window: nat, l: Loc): seq<Job> {
    Cut(Open(All(cfg), Places(All(cfg)) - {l}), window)
  }

  /** Some matrix has k among the leaders of its place. */
  ghost predicate IsLeader(f: Farm, k: JobKey) {
    exists cfg | cfg in f.cfgs :: DesiredJobs.HasKey(LeadersAt(cfg, f.window, LocOf(k)), k)
  }

  /** No place has two leaders. */
  ghost predicate OneLeader(f: Farm) {
    forall a, b | IsLeader(f, a) && IsLeader(f, b) && LocOf(a) == LocOf(b) :: a == b
  }

  /** Whatever is recorded, desired_jobs returns leaders only. */
  lemma DesiredAreLeaders(cfg: Config, snap: Snapshot, window: nat, i: nat)
    requires i < |DesiredJobs.Desired(cfg, snap, window)|
    ensures var j := DesiredJobs.Desired(cfg, snap, window)[i];
            j in LeadersAt(cfg, window, LocOf(j.key))
  {
    hide LocOf, All, Closed;
    var all, closed := All(cfg), Closed(snap);
    DesiredIs(cfg, snap, window);
    var open := Open(all, closed);
    var j := open[i];
    var l := LocOf(j.key);
    InOpen(all, closed);
    assert j in open;
    OpenTwice(all, closed, Places(all) - {l});
    var k := OpenIndex(open, Places(all) - {l}, i);
    assert LeadersAt(cfg, window, l)[k] == j;
  }

  /** With every other place of the matrix closed and this one open, desired_jobs
      returns exactly the leaders of the place. */
  lemma DesiredOfOnePlace(cfg: Config, snap: Snapshot, window: nat, l: Loc)
    requires l !in Closed(snap) && Places(All(cfg)) - {l} <= Closed(snap)
    ensures DesiredJobs.Desired(cfg, snap, window) == LeadersAt(cfg, window, l)
  {
    hide LocOf, All, Closed;
    var all := All(cfg);
    DesiredIs(cfg, snap, window);
    OpenSame(all, Closed(snap), Places(all) - {l});
  }

  lemma {:induction false} OpenSame(s: seq<Job>, a: set<Loc>, b: set<Loc>)
    requires forall j | j in s :: LocOf(j.key) in a <==> LocOf(j.key) in b
    ensures Open(s, a) == Open(s, b)
  {
    hide LocOf;
    if s != [] {
      assert forall j | j in s[..|s| - 1] :: j in s;
      OpenSame(s[..|s| - 1], a, b);
      assert s[|s| - 1] in s;
    }
  }

  /** The leaders of a place are jobs filed there, each key once. */
  lemma LeadersFileThere(cfg: Config, window: nat, l: Loc)
    ensures DesiredJobs.DistinctKeys(LeadersAt(cfg, window, l)) && |LeadersAt(cfg, window, l)| <= window
    ensures forall i | 0 <= i < |LeadersAt(cfg, window, l)| ::
              LocOf(LeadersAt(cfg, window, l)[i].key) == l && LeadersAt(cfg, window, l)[i] in All(cfg)
  {
    hide LocOf, All;
    var all := All(cfg);
    AllDistinct(cfg);
    InOpen(all, Places(all) - {l});
    OpenDistinct(all, Places(all) - {l});
    var leaders := LeadersAt(cfg, window, l);
    forall i | 0 <= i < |leaders|
      ensures LocOf(leaders[i].key) == l && leaders[i] in all
    {
      assert leaders[i] in Open(all, Places(all) - {l});
      var k :| 0 <= k < |all| && all[k] == leaders[i];
      assert LocOf(all[k].key) in Places(all);
    }
  }

  lemma AllDistinct(cfg: Config)
    ensures DesiredJobs.DistinctKeys(All(cfg))
  {
    hide Candidates, DesiredJobs.Sort, DesiredJobs.Firsts;
    DesiredJobs.SortKeeps(Candidates(cfg, map[]));
    DesiredJobs.FirstsKeep(DesiredJobs.Sort(Candidates(cfg, map[])));
  }

  lemma {:induction false} OpenDistinct(s: seq<Job>, closed: set<Loc>)
    requires DesiredJobs.DistinctKeys(s)
    ensures DesiredJobs.DistinctKeys(Open(s, closed))
  {
    hide LocOf;
    if s != [] {
      var init, last := s[..|s| - 1], s[|s| - 1];
      OpenDistinct(init, closed);
      InOpen(init, closed);
      forall i | 0 <= i < |Open(init, closed)|
        ensures Open(init, closed)[i].key != last.key
      {
        assert Open(init, closed)[i] in init;
        var k :| 0 <= k < |init| && init[k] == Open(init, closed)[i];
        assert s[k] == init[k];
      }
    }
  }

  // --- what the main thread may submit ---

  lemma FlatOfReads(read: set<string>, seen: map<Loc, TestStatus>, l: Loc)
    ensures StatusAt(Flat(SnapOf(read, seen)), l) == if l.0 in read then StatusAt(seen, l) else None
  {
  }

  /** A duplicate-free list of at most `window` leaders, each of a commit that was
      read and wanted by what was read. */
  lemma ChosenAre(f: Farm, cfg: Config, read: set<string>, seen: map<Loc, TestStatus>)
    requires CanDecide(f, read, cfg)
    ensures var todo := Chosen(f, cfg, read, seen);
            && |todo| <= f.window
            && (forall i, j | 0 <= i < j < |todo| :: todo[i] != todo[j])
            && forall i | 0 <= i < |todo| ::
                 IsLeader(f, todo[i]) && todo[i].commit in read && JobWanted(StatusAt(seen, LocOf(todo[i])))
  {
    hide IsCandidate, DesiredJobs.Desired, DesiredJobs.Sorted, LocOf, Flat, Weight, SnapOf, LeadersAt;
    var snap := SnapOf(read, seen);
    var desired := DesiredJobs.Desired(cfg, snap, f.window);
    DesiredJobs.DesiredSound(cfg, snap, f.window);
    forall i | 0 <= i < |desired|
      ensures IsLeader(f, desired[i].key) && desired[i].key.commit in read
              && JobWanted(StatusAt(seen, LocOf(desired[i].key)))
    {
      var j := desired[i];
      DesiredAreLeaders(cfg, snap, f.window, i);
      var leaders := LeadersAt(cfg, f.window, LocOf(j.key));
      var k :| 0 <= k < |leaders| && leaders[k] == j;
      assert DesiredJobs.HasKey(leaders, j.key);
      CandidateWanted(cfg, snap, j);
      FlatOfReads(read, seen, LocOf(j.key));
      PlaceCommit(j.key);
    }
  }

  lemma PlaceCommit(k: JobKey)
    ensures LocOf(k).0 == k.commit
  {
  }

  lemma CandidateWanted(cfg: Config, snap: Snapshot, j: Job)
    requires IsCandidate(cfg, snap, j)
    ensures JobWanted(StatusAt(Flat(snap), LocOf(j.key))) && j.key.commit in Commits(cfg)
  {
    hide SubtestResultKey, JobNice, StatsOf;
    var i :| 0 <= i < |cfg.specs| && YieldsAny(cfg, snap, cfg.specs[i], j);
    var spec := cfg.specs[i];
    var s, k :| 0 <= s < |spec.subtests| && 0 <= k < |spec.kernels|
             && Yields(cfg, snap, spec, spec.subtests[s], spec.kernels[k], j);
    var c, key := j.key.commit, KeyIn(spec, spec.subtests[s], spec.kernels[k]);
    PlaceOfJob(cfg, spec, j.age, c, spec.subtests[s], spec.kernels[k]);
    assert StatusAt(Flat(snap), (c, key)) == StatusOf(ResultsOf(snap, c), key);
  }

  /** The step of the daemon is desired_jobs itself: run over a changing store, it
      can be decided on the commits it read, and submits what it returned. */
  lemma DesiredIsChosen(f: Farm, cfg: Config, snap: Snapshot)
    requires cfg in f.cfgs && Commits(cfg) <= snap.Keys
    ensures CanDecide(f, snap.Keys, cfg)
    ensures Chosen(f, cfg, snap.Keys, Flat(snap)) == KeysOf(DesiredJobs.Desired(cfg, snap, f.window))
  {
    hide All, Cut, Open, DesiredJobs.Desired;
    var again := SnapOf(snap.Keys, Flat(snap));
    forall l: Loc
      ensures StatusAt(Flat(again), l) == StatusAt(Flat(snap), l)
    {
      FlatOfReads(snap.Keys, Flat(snap), l);
    }
    SameClosed(again, snap);
    DesiredIs(cfg, again, f.window);
    DesiredIs(cfg, snap, f.window);
  }

  lemma SameClosed(a: Snapshot, b: Snapshot)
    requires forall l: Loc :: StatusAt(Flat(a), l) == StatusAt(Flat(b), l)
    ensures Closed(a) == Closed(b)
  {
    hide Flat;
    assert forall l: Loc :: l in Flat(a) <==> StatusAt(Flat(a), l).Some?;
    assert forall l: Loc :: l in Flat(b) <==> StatusAt(Flat(b), l).Some?;
    forall l: Loc
      ensures l in Closed(a) <==> l in Closed(b)
    {
      assert StatusAt(Flat(a), l) == StatusAt(Flat(b), l);
    }
  }
}
