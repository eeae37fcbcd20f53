/** Historical durations: what src/bin/gen-avg-duration.rs aggregates and
    writes, and the binary search of src/lib.rs test_stats that reads it. */
module Durations {
  import opened Text
  import opened Status

  const U64: int := 0x1_0000_0000_0000_0000

  datatype TestDuration = TestDuration(secs: nat, nr: nat, passed: nat, failed: nat)

  /** One entry of the durations file; `TestStats` in src/lib.rs has the same numbers. */
  datatype Entry = Entry(test: string, nr: nat, passed: nat, failed: nat, duration: nat)

  // --- the aggregate of a list of commits ---

  function Total(commits: seq<TestResultsMap>, test: string): nat {
    if commits == [] then 0
    else Total(commits[..|commits| - 1], test)
         + var last := commits[|commits| - 1]; if test in last then last[test].duration else 0
  }

  /** How many commits have a result for the test, of the wanted status if one is given. */
  function Count(commits: seq<TestResultsMap>, test: string, want: Option<TestStatus>): (n: nat)
    ensures n <= |commits|
  {
    if commits == [] then 0
    else
      var last := commits[|commits| - 1];
      Count(commits[..|commits| - 1], test, want)
      + if test in last && (want.None? || want.value == last[test].status) then 1 else 0
  }

  function Runs(commits: seq<TestResultsMap>, test: string): (n: nat) {
    Count(commits, test, None)
  }

  /** Some commit has a result for the test. */
  predicate Seen(commits: seq<TestResultsMap>, test: string) {
    exists i | 0 <= i < |commits| :: test in commits[i]
  }

  /** The accumulator of a test after those commits; `secs` is a wrapping u64. */
  function Aggregate(commits: seq<TestResultsMap>, test: string): TestDuration {
    TestDuration(Total(commits, test) % U64, Runs(commits, test),
                 Count(commits, test, Some(Passed)), Count(commits, test, Some(Failed)))
  }

  lemma {:induction false} SeenIffRuns(commits: seq<TestResultsMap>, test: string)
    ensures Seen(commits, test) <==> Runs(commits, test) > 0
  {
    if commits != [] {
      var init, last := commits[..|commits| - 1], commits[|commits| - 1];
      SeenIffRuns(init, test);
      if Seen(init, test) {
        var i :| 0 <= i < |init| && test in init[i];
        assert test in commits[i];
      }
      if Seen(commits, test) && test !in last {
        var i :| 0 <= i < |commits| && test in commits[i];
        assert test in init[i];
      }
    }
  }

  lemma {:induction false} CountsAdd(commits: seq<TestResultsMap>, test: string)
    ensures Count(commits, test, Some(Passed)) + Count(commits, test, Some(Failed)) <= Runs(commits, test)
  {
    if commits != [] {
      CountsAdd(commits[..|commits| - 1], test);
    }
  }

  /** The commits a count is about. */
  function Counted(commits: seq<TestResultsMap>, test: string, want: Option<TestStatus>): set<int> {
    set i | 0 <= i < |commits| && test in commits[i] && (want.None? || commits[i][test].status == want.value)
  }

  lemma {:induction false} CountIs(commits: seq<TestResultsMap>, test: string, want: Option<TestStatus>)
    ensures Count(commits, test, want) == |Counted(commits, test, want)|
  {
    if commits != [] {
      var n := |commits| - 1;
      CountIs(commits[..n], test, want);
      CountedLast(commits, test, want);
    }
  }

  lemma CountedLast(commits: seq<TestResultsMap>, test: string, want: Option<TestStatus>)
    requires commits != []
    ensures var n := |commits| - 1;
            Counted(commits, test, want) ==
            Counted(commits[..n], test, want) +
            if test in commits[n] && (want.None? || commits[n][test].status == want.value) then {n} else {}
  {
  }

  lemma MulMonotone(a: nat, b: nat, n: nat)
    requires a <= b
    ensures a * n <= b * n
  {
  }

  /** Division by n against multiplication by n. */
  lemma QuotientAtLeast(a: nat, n: nat, q: nat)
    requires n > 0
    ensures q <= a / n <==> q * n <= a
  {
    if q <= a / n {
      MulMonotone(q, a / n, n);
    } else {
      MulMonotone(a / n + 1, q, n);
    }
  }

  /** Every duration lies between lo and hi, so the total lies between the multiples. */
  lemma TimesNext(a: nat, k: nat)
    ensures a * (k + 1) == a * k + a
  {
  }

  lemma LastAdds(commits: seq<TestResultsMap>, test: string)
    requires commits != []
    ensures var init, last := commits[..|commits| - 1], commits[|commits| - 1];
            if test in last then
              Runs(commits, test) == Runs(init, test) + 1
              && Total(commits, test) == Total(init, test) + last[test].duration
            else Runs(commits, test) == Runs(init, test) && Total(commits, test) == Total(init, test)
  {
  }

  lemma {:induction false} TotalBounds(commits: seq<TestResultsMap>, test: string, lo: nat, hi: nat)
    requires forall i | 0 <= i < |commits| && test in commits[i] :: lo <= commits[i][test].duration <= hi
    ensures lo * Runs(commits, test) <= Total(commits, test) <= hi * Runs(commits, test)
  {
    if commits != [] {
      var init := commits[..|commits| - 1];
      assert forall i | 0 <= i < |init| :: init[i] == commits[i];
      TotalBounds(init, test, lo, hi);
      LastAdds(commits, test);
      hide Runs, Total;
      TimesNext(lo, Runs(init, test));
      TimesNext(hi, Runs(init, test));
    }
  }

  lemma {:induction false} MinMax(commits: seq<TestResultsMap>, test: string) returns (i: nat, j: nat)
    requires Seen(commits, test)
    ensures i < |commits| && j < |commits| && test in commits[i] && test in commits[j]
    ensures forall k | 0 <= k < |commits| && test in commits[k] ::
              commits[i][test].duration <= commits[k][test].duration <= commits[j][test].duration
  {
    i :| 0 <= i < |commits| && test in commits[i];
    j := i;
    for n := 0 to |commits|
      invariant i < |commits| && j < |commits| && test in commits[i] && test in commits[j]
      invariant forall k | 0 <= k < n && test in commits[k] ::
                  commits[i][test].duration <= commits[k][test].duration <= commits[j][test].duration
    {
      if test in commits[n] && commits[n][test].duration < commits[i][test].duration {
        i := n;
      }
      if test in commits[n] && commits[n][test].duration > commits[j][test].duration {
        j := n;
      }
    }
  }

  /** The stored duration is the floor average of the recorded ones exactly when
      their sum fits in 64 bits. */
  lemma AverageIff(commits: seq<TestResultsMap>, test: string)
    requires Runs(commits, test) > 0 && |commits| < U64
    ensures EntryFor(commits, test).duration == Total(commits, test) / Runs(commits, test)
            <==> Total(commits, test) < U64
  {
    WrappedQuotient(Total(commits, test), Runs(commits, test));
  }

  lemma WrappedQuotient(total: nat, n: nat)
    requires 0 < n < U64
    ensures total % U64 / n == total / n <==> total < U64
  {
    if total >= U64 {
      var low := total % U64;
      assert low + n <= total;
      var q := low / n;
      QuotientAtLeast(low, n, q);
      assert (q + 1) * n == q * n + n;
      QuotientAtLeast(total, n, q + 1);
    }
  }

  lemma QuotientBetween(lo: nat, hi: nat, total: nat, n: nat)
    requires n > 0 && lo * n <= total <= hi * n
    ensures lo <= total / n <= hi
  {
    QuotientAtLeast(total, n, lo);
    assert (hi + 1) * n == hi * n + n;
    QuotientAtLeast(total, n, hi + 1);
  }

  /** The floor average, and so the duration written while the sum fits, lies between
      the shortest and the longest recorded duration. */
  lemma AverageBetween(commits: seq<TestResultsMap>, test: string) returns (i: nat, j: nat)
    requires Runs(commits, test) > 0
    ensures i < |commits| && j < |commits| && test in commits[i] && test in commits[j]
    ensures commits[i][test].duration <= Total(commits, test) / Runs(commits, test) <= commits[j][test].duration
    ensures Total(commits, test) < U64 ==>
              commits[i][test].duration <= EntryFor(commits, test).duration <= commits[j][test].duration
  {
    hide Total, Count, EntryFor;
    SeenIffRuns(commits, test);
    i, j := MinMax(commits, test);
    TotalBounds(commits, test, commits[i][test].duration, commits[j][test].duration);
    QuotientBetween(commits[i][test].duration, commits[j][test].duration, Total(commits, test), Runs(commits, test));
    if Total(commits, test) < U64 {
      FittingAverage(commits, test);
    }
  }

  lemma FittingAverage(commits: seq<TestResultsMap>, test: string)
    requires Runs(commits, test) > 0 && Total(commits, test) < U64
    ensures EntryFor(commits, test).duration == Total(commits, test) / Runs(commits, test)
  {
    hide Total, Runs;
  }

  /** Two durations whose sum wraps: the average written is zero. */
  lemma AverageWraps()
    ensures var half := TestResult(Passed, 0, 0x8000_0000_0000_0000);
            var commits := [map["t" := half], map["t" := half]];
            && Runs(commits, "t") == 2 && Total(commits, "t") == U64
            && EntryFor(commits, "t").duration == 0 && Total(commits, "t") / Runs(commits, "t") == half.duration
  {
    var half := TestResult(Passed, 0, 0x8000_0000_0000_0000);
    var m := map["t" := half];
    assert [m, m][..1] == [m] && [m][..0] == [];
    assert Total([], "t") == 0 && Count([], "t", None) == 0;
    assert Total([m], "t") == half.duration && Runs([m], "t") == 1;
    assert Total([m, m], "t") == U64 && Runs([m, m], "t") == 2;
  }

  // --- independence of the directory order ---

  lemma {:induction false} RemoveAt(commits: seq<TestResultsMap>, test: string, want: Option<TestStatus>, i: nat)
    requires i < |commits|
    ensures var rest := commits[..i] + commits[i + 1..];
            && Total(commits, test) == Total(rest, test) + Total([commits[i]], test)
            && Count(commits, test, want) == Count(rest, test, want) + Count([commits[i]], test, want)
  {
    var n := |commits| - 1;
    var rest := commits[..i] + commits[i + 1..];
    assert [commits[i]][..0] == [];
    if i == n {
      assert rest == commits[..n];
    } else {
      RemoveAt(commits[..n], test, want, i);
      assert rest[..|rest| - 1] == commits[..n][..i] + commits[..n][i + 1..];
      assert rest[|rest| - 1] == commits[n];
    }
  }

  lemma TakeOut(a: seq<TestResultsMap>, b: seq<TestResultsMap>) returns (i: nat)
    requires a != [] && multiset(a) == multiset(b)
    ensures i < |b| && b[i] == a[|a| - 1]
    ensures multiset(b[..i] + b[i + 1..]) == multiset(a[..|a| - 1])
  {
    var n := |a| - 1;
    assert a == a[..n] + [a[n]];
    assert a[n] in multiset(b);
    i :| 0 <= i < |b| && b[i] == a[n];
    assert b == b[..i] + [b[i]] + b[i + 1..];
    assert multiset(b) == multiset(b[..i]) + multiset{a[n]} + multiset(b[i + 1..]);
    assert multiset(b[..i] + b[i + 1..]) == multiset(b) - multiset{a[n]};
    assert multiset(a[..n]) == multiset(a) - multiset{a[n]};
  }

  lemma {:induction false} CountPermutes(a: seq<TestResultsMap>, b: seq<TestResultsMap>, test: string,
          want: Option<TestStatus>)
    requires multiset(a) == multiset(b)
    ensures Total(a, test) == Total(b, test) && Count(a, test, want) == Count(b, test, want)
    decreases |a|
  {
    if a == [] {
      assert |multiset(b)| == |b| == 0;
    } else {
      var n := |a| - 1;
      var i := TakeOut(a, b);
      CountPermutes(a[..n], b[..i] + b[i + 1..], test, want);
      RemoveAt(b, test, want, i);
      RemoveAt(a, test, want, n);
      assert a[..n] + a[n + 1..] == a[..n];
    }
  }

  /** Reading the commits in another order changes no entry. */
  lemma OrderIndependent(a: seq<TestResultsMap>, b: seq<TestResultsMap>, test: string)
    requires multiset(a) == multiset(b)
    ensures Aggregate(a, test) == Aggregate(b, test)
  {
    CountPermutes(a, b, test, None);
    CountPermutes(a, b, test, Some(Passed));
    CountPermutes(a, b, test, Some(Failed));
  }

  // --- gen-avg-duration ---

  /** Adding one result to the accumulator of its test. */
  function Accumulate(t: TestDuration, r: TestResult): TestDuration {
    TestDuration((t.secs + r.duration) % U64, t.nr + 1,
                 t.passed + if r.status == Passed then 1 else 0,
                 t.failed + if r.status == Failed then 1 else 0)
  }

  lemma AggregateStep(commits: seq<TestResultsMap>, i: nat, test: string)
    requires i < |commits|
    ensures test !in commits[i] ==> Aggregate(commits[..i + 1], test) == Aggregate(commits[..i], test)
    ensures test in commits[i] ==>
              Aggregate(commits[..i + 1], test) == Accumulate(Aggregate(commits[..i], test), commits[i][test])
  {
    assert commits[..i + 1][..i] == commits[..i];
  }

  const ZERO := TestDuration(0, 0, 0, 0)

  function Get(m: map<string, TestDuration>, t: string): TestDuration {
    if t in m then m[t] else ZERO
  }

  /** The inner loop: one commit's results, in any order. */
  method AddCommit(before: map<string, TestDuration>, results: TestResultsMap)
      returns (durations: map<string, TestDuration>)
    ensures durations.Keys == before.Keys + results.Keys
    ensures forall t | t in durations ::
              durations[t] == if t in results then Accumulate(Get(before, t), results[t]) else before[t]
  {
    durations := before;
    var todo := results.Keys;
    while todo != {}
      invariant todo <= results.Keys
      invariant durations.Keys == before.Keys + (results.Keys - todo)
      invariant forall t | t in durations ::
                  durations[t] == if t in results && t !in todo then Accumulate(Get(before, t), results[t])
                                  else before[t]
      decreases todo
    {
      var test :| test in todo;
      var t := ZERO;
      if test in durations {
        t := durations[test];
      }
      durations := durations[test := Accumulate(t, results[test])];
      todo := todo - {test};
    }
  }

  /** The accumulator map holds the aggregate of every test seen. */
  predicate IsSums(commits: seq<TestResultsMap>, durations: map<string, TestDuration>) {
    && (forall t | t in durations :: Runs(commits, t) > 0 && durations[t] == Aggregate(commits, t))
    && forall i | 0 <= i < |commits| :: commits[i].Keys <= durations.Keys
  }

  /** src/bin/gen-avg-duration.rs read_duration_sums over the commits' results. */
  method ReadDurationSums(commits: seq<TestResultsMap>) returns (durations: map<string, TestDuration>)
    ensures IsSums(commits, durations)
  {
    durations := map[];
    for i := 0 to |commits|
      invariant IsSums(commits[..i], durations)
    {
      var next := AddCommit(durations, commits[i]);
      SumsStep(commits, i, durations, next);
      durations := next;
    }
    assert commits[..|commits|] == commits;
  }

  lemma SumsStep(commits: seq<TestResultsMap>, i: nat, before: map<string, TestDuration>,
                 after: map<string, TestDuration>)
    requires i < |commits| && IsSums(commits[..i], before)
    requires after.Keys == before.Keys + commits[i].Keys
    requires forall t | t in after ::
               after[t] == if t in commits[i] then Accumulate(Get(before, t), commits[i][t]) else before[t]
    ensures IsSums(commits[..i + 1], after)
  {
    forall t | t in after
      ensures Runs(commits[..i + 1], t) > 0 && after[t] == Aggregate(commits[..i + 1], t)
    {
      AggregateStep(commits, i, t);
      if t !in before {
        UnseenIsZero(commits[..i], t);
      }
    }
    var longer := commits[..i + 1];
    forall k | 0 <= k < |longer|
      ensures longer[k].Keys <= after.Keys
    {
      if k < i {
        assert longer[k] == commits[..i][k];
      }
    }
  }

  lemma {:induction false} UnseenIsZero(commits: seq<TestResultsMap>, test: string)
    requires forall i | 0 <= i < |commits| :: test !in commits[i]
    ensures Total(commits, test) == 0 && Aggregate(commits, test) == ZERO
  {
    if commits != [] {
      var init := commits[..|commits| - 1];
      assert forall i | 0 <= i < |init| :: init[i] == commits[i];
      UnseenIsZero(init, test);
      assert test !in commits[|commits| - 1];
    }
  }

  predicate Ascending(tests: seq<string>) {
    forall i, j | 0 <= i < j < |tests| :: Less(tests[i], tests[j])
  }

  /** The keys of a BTreeMap in iteration order. */
  method SortedKeys(keys: set<string>) returns (tests: seq<string>)
    ensures Ascending(tests)
    ensures forall t :: t in tests <==> t in keys
  {
    tests := [];
    var todo := keys;
    while todo != {}
      invariant todo <= keys && Ascending(tests)
      invariant forall t :: t in tests <==> t in keys && t !in todo
      decreases todo
    {
      var t :| t in todo;
      var i := 0;
      while i < |tests| && Less(tests[i], t)
        invariant 0 <= i <= |tests| && forall j | 0 <= j < i :: Less(tests[j], t)
      {
        i := i + 1;
      }
      InsertAscends(tests, t, i);
      var longer := tests[..i] + [t] + tests[i..];
      assert forall x :: x in longer <==> x == t || x in tests[..i] || x in tests[i..];
      assert forall x :: x in tests <==> x in tests[..i] || x in tests[i..] by {
        assert tests == tests[..i] + tests[i..];
      }
      tests := longer;
      todo := todo - {t};
    }
  }

  lemma InsertAscends(tests: seq<string>, t: string, i: nat)
    requires Ascending(tests) && t !in tests && i <= |tests|
    requires forall j | 0 <= j < i :: Less(tests[j], t)
    requires i < |tests| ==> !Less(tests[i], t)
    ensures Ascending(tests[..i] + [t] + tests[i..])
  {
    forall j | i <= j < |tests|
      ensures Less(t, tests[j])
    {
      LessTrichotomy(tests[i], t);
      if j > i {
        LessTransitive(t, tests[i], tests[j]);
      }
    }
  }

  function EntryFor(commits: seq<TestResultsMap>, test: string): Entry
    requires Runs(commits, test) > 0
  {
    var a := Aggregate(commits, test);
    Entry(test, a.nr, a.passed, a.failed, a.secs / a.nr)
  }

  predicate SortedEntries(entries: seq<Entry>) {
    forall i, j | 0 <= i < j < |entries| :: Less(entries[i].test, entries[j].test)
  }

  /** The entry-writing loop of src/bin/gen-avg-duration.rs write_durations_capnp;
      the division is by a counter that is never zero. */
  method WriteDurations(durations: map<string, TestDuration>) returns (entries: seq<Entry>)
    requires forall t | t in durations :: durations[t].nr > 0
    ensures SortedEntries(entries)
    ensures forall e | e in entries :: e.test in durations && durations[e.test].nr > 0
              && e == Entry(e.test, durations[e.test].nr, durations[e.test].passed, durations[e.test].failed,
                            durations[e.test].secs / durations[e.test].nr)
    ensures forall t | t in durations :: exists e | e in entries :: e.test == t
  {
    var tests := SortedKeys(durations.Keys);
    entries := [];
    for idx := 0 to |tests|
      invariant |entries| == idx && forall i | 0 <= i < idx :: entries[i].test == tests[i]
      invariant forall e | e in entries :: e.test in durations && durations[e.test].nr > 0
                  && e == Entry(e.test, durations[e.test].nr, durations[e.test].passed, durations[e.test].failed,
                                durations[e.test].secs / durations[e.test].nr)
    {
      var t := tests[idx];
      assert t in durations;
      var d := durations[t];
      entries := entries + [Entry(t, d.nr, d.passed, d.failed, d.secs / d.nr)];
    }
    forall t | t in durations
      ensures exists e | e in entries :: e.test == t
    {
      assert t in tests;
      var i :| 0 <= i < |tests| && tests[i] == t;
      assert entries[i].test == t && entries[i] in entries;
    }
  }

  // --- test_stats ---

  /** The binary search of src/lib.rs test_stats over the file's entries. */
  method TestStats(entries: seq<Entry>, fullTest: string) returns (r: Option<Entry>)
    requires SortedEntries(entries)
    ensures r.Some? ==> r.value in entries && r.value.test == fullTest
    ensures r.None? ==> forall e | e in entries :: e.test != fullTest
  {
    var lo, hi := 0, |entries|;
    while lo < hi
      invariant 0 <= lo <= hi <= |entries|
      invariant forall i | 0 <= i < lo :: entries[i].test != fullTest
      invariant forall i | hi <= i < |entries| :: entries[i].test != fullTest
    {
      var m := lo + (hi - lo) / 2;
      var here := entries[m].test;
      LessTrichotomy(fullTest, here);
      forall i | 0 <= i < |entries|
        ensures Less(fullTest, here) && m <= i ==> entries[i].test != fullTest
        ensures Less(here, fullTest) && i <= m ==> entries[i].test != fullTest
      {
        LessTrichotomy(entries[i].test, here);
      }
      if Less(fullTest, here) {
        hi := m;
      } else if Less(here, fullTest) {
        lo := m + 1;
      } else {
        return Some(entries[m]);
      }
    }
    return None;
  }

  lemma CountsAre(commits: seq<TestResultsMap>, test: string)
    ensures Runs(commits, test) == |set i | 0 <= i < |commits| && test in commits[i]|
    ensures Count(commits, test, Some(Passed))
         == |set i | 0 <= i < |commits| && test in commits[i] && commits[i][test].status == Passed|
    ensures Count(commits, test, Some(Failed))
         == |set i | 0 <= i < |commits| && test in commits[i] && commits[i][test].status == Failed|
  {
    CountIs(commits, test, None);
    CountIs(commits, test, Some(Passed));
    CountIs(commits, test, Some(Failed));
    assert Counted(commits, test, None) == set i | 0 <= i < |commits| && test in commits[i];
    assert Counted(commits, test, Some(Passed))
        == set i | 0 <= i < |commits| && test in commits[i] && commits[i][test].status == Passed;
    assert Counted(commits, test, Some(Failed))
        == set i | 0 <= i < |commits| && test in commits[i] && commits[i][test].status == Failed;
  }

  /** gen-avg-duration followed by a lookup: a test has statistics exactly when
      some commit has a result for it, and they are the aggregate of those
      results (`OrderIndependent`: whatever the order they were read in). */
  method LookupAfterGeneration(commits: seq<TestResultsMap>, fullTest: string) returns (r: Option<Entry>)
    ensures r.Some? <==> Seen(commits, fullTest)
    ensures r.Some? ==> Runs(commits, fullTest) > 0 && r.value == EntryFor(commits, fullTest)
    ensures r.Some? ==>
              && r.value.test == fullTest && r.value.nr == |set i | 0 <= i < |commits| && fullTest in commits[i]|
              && r.value.passed == |set i | 0 <= i < |commits| && fullTest in commits[i]
                                           && commits[i][fullTest].status == Passed|
              && r.value.failed == |set i | 0 <= i < |commits| && fullTest in commits[i]
                                           && commits[i][fullTest].status == Failed|
    ensures r.Some? ==> r.value.passed + r.value.failed <= r.value.nr
    ensures r.Some? && |commits| < U64 ==>
              (r.value.duration == Total(commits, fullTest) / Runs(commits, fullTest) <==>
                      Total(commits, fullTest) < U64)
  {
    var sums := ReadDurationSums(commits);
    assert forall t | t in sums :: Runs(commits, t) > 0;
    var entries := WriteDurations(sums);
    r := TestStats(entries, fullTest);
    SeenIffRuns(commits, fullTest);
    if r.Some? {
      CountsAdd(commits, fullTest);
      CountsAre(commits, fullTest);
      if |commits| < U64 {
        AverageIff(commits, fullTest);
      }
    }
  }
}
