/** When two jobs lead one result place: runs of the daemon, on what desired_jobs
    really returns, in which a recorded verdict is lost to the other job. */
module Overwrite {
  import opened Text
  import opened Status
  import opened Jobs
  import opened Daemon
  import opened DaemonSafety
  import opened DaemonRuns
  import opened Leaders
  import Crashes
  import DesiredJobs

  // --- putting runs together ---

  ghost predicate Leads(f: Farm, s: State, events: seq<Event>, t: State) {
    Exec(f, s, events) == Some(t)
  }

  lemma LeadsBy(f: Farm, s: State, ev: Event, m: State, rest: seq<Event>, t: State)
    requires Enabled(f, s, ev) && Step(f, s, ev) == m && Leads(f, m, rest, t)
    ensures Leads(f, s, [ev] + rest, t)
  {
    assert ([ev] + rest)[1..] == rest;
  }

  lemma LeadsOn(f: Farm, s: State, a: seq<Event>, m: State, b: seq<Event>, t: State)
    requires Leads(f, s, a, m) && Leads(f, m, b, t)
    ensures Leads(f, s, a + b, t)
  {
    ExecAppend(f, s, a, b);
  }

  lemma NoEvents(f: Farm, s: State)
    ensures Leads(f, s, [], s)
  {
  }

  // --- one refill ---

  /** What reading those commits of a quiet store gives. */
  function SeenOf(store: map<Loc, TestStatus>, read: set<string>): map<Loc, TestStatus> {
    map l | l in store && l.0 in read :: store[l]
  }

  lemma {:induction false} ReadsLead(f: Farm, s: State, read: set<string>, commits: set<string>)
    returns (events: seq<Event>)
    requires s.main == Reading(read, SeenOf(s.store, read)) && commits !! read
    ensures Leads(f, s, events, s.(main := Reading(read + commits, SeenOf(s.store, read + commits))))
    decreases commits
  {
    hide LocOf, LocsOf, CanDecide, CanClaim, Pendings, Take, BatchKey, AfterTurn, Chosen, Changes, Record, Leads;
    if commits == {} {
      assert read + commits == read;
      NoEvents(f, s);
      events := [];
    } else {
      var c :| c in commits;
      var m := s.(main := Reading(read + {c}, SeenOf(s.store, read + {c})));
      assert SeenOf(s.store, read) + (map l | l in s.store && l.0 == c :: s.store[l]) == SeenOf(s.store, read + {c});
      assert Step(f, s, Read(c)) == m;
      var rest := ReadsLead(f, m, read + {c}, commits - {c});
      assert read + {c} + (commits - {c}) == read + commits;
      events := [Read(c)] + rest;
      LeadsBy(f, s, Read(c), m, rest, s.(main := Reading(read + commits, SeenOf(s.store, read + commits))));
    }
  }

  /** The choir and the job map after submitting those keys. */
  function Submitted(s: State, keys: seq<JobKey>): State
    decreases |keys|
  {
    if keys == [] then s
    else
      var k := keys[0];
      Submitted(if k in s.jobMap then s
                else s.(choir := s.choir[s.nextId := ChoirJob(k, Pending)], jobMap := s.jobMap[k := s.nextId],
                        nextId := s.nextId + 1), keys[1..])
  }

  lemma {:induction false} SubmittedKeeps(s: State, keys: seq<JobKey>)
    ensures var t := Submitted(s, keys);
            && t == s.(choir := t.choir, jobMap := t.jobMap, nextId := t.nextId) && s.nextId <= t.nextId
            && forall id | id < s.nextId :: (id in s.choir <==> id in t.choir)
                   && (id in s.choir ==> t.choir[id] == s.choir[id])
    decreases |keys|
  {
    if keys != [] && keys[0] !in s.jobMap {
      SubmittedKeeps(s.(choir := s.choir[s.nextId := ChoirJob(keys[0], Pending)],
                        jobMap := s.jobMap[keys[0] := s.nextId],
                        nextId := s.nextId + 1), keys[1..]);
    } else if keys != [] {
      SubmittedKeeps(s, keys[1..]);
    }
  }

  lemma {:induction false} SubmittedMain(s: State, keys: seq<JobKey>, main: Main)
    ensures Submitted(s.(main := main), keys) == Submitted(s, keys).(main := main)
    decreases |keys|
  {
    if keys != [] {
      var next := if keys[0] in s.jobMap then s
                  else s.(choir := s.choir[s.nextId := ChoirJob(keys[0], Pending)],
                          jobMap := s.jobMap[keys[0] := s.nextId], nextId := s.nextId + 1);
      SubmittedMain(next, keys[1..], main);
    }
  }

  lemma {:induction false} SubmitsLead(f: Farm, s: State) returns (events: seq<Event>)
    requires s.main.Submitting?
    ensures Leads(f, s, events, Submitted(s, s.main.todo).(main := Draining))
    decreases if s.main.Submitting? then |s.main.todo| else 0
  {
    hide LocOf, LocsOf, CanDecide, CanClaim, Pendings, Take, BatchKey, AfterTurn, Chosen, Changes, Record, Leads;
    var keys := s.main.todo;
    var t := Submitted(s, keys).(main := Draining);
    if keys == [] {
      NoEvents(f, t);
      events := [FinishRefill] + [];
      assert Step(f, s, FinishRefill) == t;
      LeadsBy(f, s, FinishRefill, t, [], t);
    } else {
      var m := Step(f, s, Submit);
      var rest := SubmitsLead(f, m);
      SubmittedMain(m, keys[1..], s.main);
      SubmittedMain(m, keys[1..], m.main);
      assert Submitted(m, keys[1..]).(main := Draining) == t;
      events := [Submit] + rest;
      LeadsBy(f, s, Submit, m, rest, t);
    }
  }

  /** Every place the matrix lists has its verdict, except this one, which has no entry. */
  ghost predicate OnlyOpen(s: State, cfg: Config, l: Loc) {
    l !in s.store && forall m | m in Places(All(cfg)) && m != l :: m in s.store && IsDone(s.store[m])
  }

  lemma ChosenOfOnePlace(f: Farm, s: State, cfg: Config, l: Loc)
    requires OnlyOpen(s, cfg, l)
    ensures Chosen(f, cfg, Commits(cfg), SeenOf(s.store, Commits(cfg))) == KeysOf(LeadersAt(cfg, f.window, l))
  {
    hide All, LocOf, LeadersAt, DesiredJobs.Desired, SnapOf, Flat;
    var read, seen := Commits(cfg), SeenOf(s.store, Commits(cfg));
    var snap := SnapOf(read, seen);
    FlatOfReads(read, seen, l);
    forall m | m in Places(All(cfg)) - {l}
      ensures m in Closed(snap)
    {
      PlaceListed(cfg, m);
      FlatOfReads(read, seen, m);
    }
    DesiredOfOnePlace(cfg, snap, f.window, l);
  }

  lemma PlaceListed(cfg: Config, m: Loc)
    requires m in Places(All(cfg))
    ensures m.0 in Commits(cfg)
  {
    hide LocOf, Candidates, DesiredJobs.Sort, DesiredJobs.Firsts, IsCandidate, Commits;
    var all := All(cfg);
    var i :| 0 <= i < |all| && LocOf(all[i].key) == m;
    DesiredJobs.SortKeeps(Candidates(cfg, map[]));
    DesiredJobs.FirstsKeep(DesiredJobs.Sort(Candidates(cfg, map[])));
    CandidatesExact(cfg, map[], all[i]);
    CandidateWanted(cfg, map[], all[i]);
    PlaceCommit(all[i].key);
  }

  /** A refill with that matrix submits the leaders of the open place. */
  lemma RefillLeads(f: Farm, s: State, cfg: Config, l: Loc) returns (events: seq<Event>)
    requires s.main.Starting? && cfg in f.cfgs && OnlyOpen(s, cfg, l)
    requires forall id | id in s.choir :: !s.choir[id].state.Finished?
    requires forall j | j in s.jobMap :: s.jobMap[j] in s.choir
    ensures Leads(f, s, events, Submitted(s, KeysOf(LeadersAt(cfg, f.window, l))).(main := Draining))
  {
    hide LocOf, LocsOf, CanClaim, Pendings, Take, BatchKey, AfterTurn, Chosen, Changes, Record, Leads, LeadersAt,
         OnlyOpen,
         Submitted;
    var keys, read := KeysOf(LeadersAt(cfg, f.window, l)), Commits(cfg);
    var s1, s2 := s.(main := Removed), s.(main := Reading({}, map[]));
    assert Unfinished(s.choir) == s.choir && Step(f, s, Remove) == s1;
    assert Existing(s.jobMap, s.choir.Keys) == s.jobMap && Step(f, s1, Retain) == s2;
    assert SeenOf(s.store, {}) == map[];
    var lookups := ReadsLead(f, s2, {}, read);
    assert {} + read == read;
    var s3 := s.(main := Reading(read, SeenOf(s.store, read)));
    ChosenOfOnePlace(f, s, cfg, l);
    var s4 := s.(main := Submitting(read, SeenOf(s.store, read), keys));
    assert Enabled(f, s3, Decide(cfg)) && Step(f, s3, Decide(cfg)) == s4;
    var submits := SubmitsLead(f, s4);
    SubmittedMain(s, keys, s4.main);
    var t := Submitted(s, keys).(main := Draining);
    LeadsBy(f, s3, Decide(cfg), s4, submits, t);
    LeadsOn(f, s2, lookups, s3, [Decide(cfg)] + submits, t);
    LeadsBy(f, s1, Retain, s2, lookups + ([Decide(cfg)] + submits), t);
    events := [Remove] + ([Retain] + (lookups + ([Decide(cfg)] + submits)));
    LeadsBy(f, s, Remove, s1, [Retain] + (lookups + ([Decide(cfg)] + submits)), t);
  }

  // --- one executor at work ---

  /** Executor 0 claims the pending job. */
  lemma ClaimLeads(f: Farm, s: State, id: nat)
    requires |s.execs| >= 1 && s.execs[0].Free? && id in s.choir && s.choir[id].state.Pending?
    ensures Leads(f, s, [Claim(0, [id])] + [],
                  SetExec(s.(choir := s.choir[id := s.choir[id].(state := Taken(0))]), 0,
                          Marking([Claimed(id, s.choir[id].key)])))
  {
    hide LocOf, LocsOf, CanDecide, Pendings, BatchKey, AfterTurn, Chosen, Changes, Record;
    var batch := [Claimed(id, s.choir[id].key)];
    assert seq(1, i requires 0 <= i < 1 => Claimed([id][i], s.choir[[id][i]].key)) == batch;
    assert Take(s.choir, 0, [id]) == s.choir[id := s.choir[id].(state := Taken(0))];
    var t := SetExec(s.(choir := s.choir[id := s.choir[id].(state := Taken(0))]), 0, Marking(batch));
    assert Step(f, s, Claim(0, [id])) == t;
    NoEvents(f, t);
    LeadsBy(f, s, Claim(0, [id]), t, [], t);
  }

  function Kept(s: State, l: Loc, v: TestStatus, writes: bool): State {
    Record(s, map[l := v], writes)
  }

  lemma MarkLeads(f: Farm, s: State, c: Claimed, writes: bool)
    requires |s.execs| >= 1 && s.execs[0] == Marking([c])
    ensures Leads(f, s, [Mark(0, writes)] + [],
                  SetExec(Kept(s, LocOf(c.key), Inprogress, writes), 0, Running([c], {LocOf(c.key)}, false)))
  {
    hide LocOf, CanDecide, CanClaim, Pendings, Take, BatchKey, AfterTurn, Chosen, Rewritten, CommitsOf;
    var l := LocOf(c.key);
    assert LocsOf([c]) == {l} by {
      assert LocOf([c][0].key) == l;
    }
    hide LocsOf;
    assert Changes(s, Mark(0, writes)) == map[l := Inprogress];
    var t := SetExec(Kept(s, l, Inprogress, writes), 0, Running([c], {l}, false));
    assert Step(f, s, Mark(0, writes)) == t;
    NoEvents(f, t);
    LeadsBy(f, s, Mark(0, writes), t, [], t);
  }

  lemma TurnLeads(f: Farm, s: State, c: Claimed, l: Loc, writes: bool)
    requires |s.execs| >= 1 && s.execs[0] == Running([c], {l}, false)
    ensures Leads(f, s, [Turn(0, map[l := Passed], writes)] + [],
                  SetExec(Kept(s, l, Passed, writes), 0, Reporting([c], 0)))
  {
    hide LocOf, LocsOf, CanDecide, CanClaim, Pendings, Take, BatchKey, Chosen, Rewritten, CommitsOf;
    var onDisk := map[l := Passed];
    var x := s.execs[0];
    assert (set m | m in x.remaining && ReadBack(onDisk, m) == Inprogress) == {};
    assert AfterTurn(x, onDisk) == Reporting([c], 0);
    hide AfterTurn;
    assert Changes(s, Turn(0, onDisk, writes)) == map[l := Passed];
    var t := SetExec(Kept(s, l, Passed, writes), 0, Reporting([c], 0));
    assert Step(f, s, Turn(0, onDisk, writes)) == t;
    NoEvents(f, t);
    LeadsBy(f, s, Turn(0, onDisk, writes), t, [], t);
  }

  lemma ReportLeads(f: Farm, s: State, c: Claimed)
    requires |s.execs| >= 1 && s.execs[0] == Reporting([c], 0) && c.id in s.choir
    ensures Leads(f, s, [Report(0)] + ([Report(0)] + []),
                  SetExec(s.(choir := s.choir[c.id := s.choir[c.id].(state := Finished)]), 0, Free))
  {
    hide LocOf, LocsOf, CanDecide, CanClaim, Pendings, Take, BatchKey, AfterTurn, Chosen, Changes, Record;
    var m := SetExec(s.(choir := s.choir[c.id := s.choir[c.id].(state := Finished)]), 0, Reporting([c], 1));
    var t := SetExec(m, 0, Free);
    assert m.execs[0 := Free] == s.execs[0 := Free];
    assert Step(f, s, Report(0)) == m && Step(f, m, Report(0)) == t;
    NoEvents(f, t);
    LeadsBy(f, m, Report(0), t, [], t);
    LeadsBy(f, s, Report(0), m, [Report(0)] + [], t);
  }

  /** Claimed, marked, run to a verdict, reported. */
  lemma RunsToVerdict(f: Farm, s: State, c: Claimed) returns (events: seq<Event>, t: State)
    requires |s.execs| >= 1 && s.execs[0] == Marking([c]) && c.id in s.choir
    ensures Leads(f, s, events, t) && StatusAt(t.store, LocOf(c.key)) == Some(Passed)
    ensures |t.execs| == |s.execs| && t.execs[0].Free? && t.main == s.main
    ensures t.choir == s.choir[c.id := s.choir[c.id].(state := Finished)]
  {
    hide LocOf, Leads, Rewritten, CommitsOf;
    var l := LocOf(c.key);
    var s1 := SetExec(Kept(s, l, Inprogress, true), 0, Running([c], {l}, false));
    var s2 := SetExec(Kept(s1, l, Passed, true), 0, Reporting([c], 0));
    t := SetExec(s2.(choir := s2.choir[c.id := s2.choir[c.id].(state := Finished)]), 0, Free);
    MarkLeads(f, s, c, true);
    TurnLeads(f, s1, c, l, true);
    ReportLeads(f, s2, c);
    LeadsOn(f, s1, [Turn(0, map[l := Passed], true)] + [], s2, [Report(0)] + ([Report(0)] + []), t);
    events := ([Mark(0, true)] + []) + (([Turn(0, map[l := Passed], true)] + []) + ([Report(0)] + ([Report(0)] + [])));
    LeadsOn(f, s, [Mark(0, true)] + [], s1,
            ([Turn(0, map[l := Passed], true)] + []) + ([Report(0)] + ([Report(0)] + [])), t);
  }

  /** A pending job is claimed and its place marked in progress. */
  lemma MarksAgain(f: Farm, s: State, id: nat) returns (events: seq<Event>, t: State)
    requires |s.execs| >= 1 && s.execs[0].Free? && id in s.choir && s.choir[id].state.Pending?
    ensures Leads(f, s, events, t) && IsStuck(t.store, LocOf(s.choir[id].key))
  {
    hide LocOf, Leads, Rewritten, CommitsOf;
    var c := Claimed(id, s.choir[id].key);
    var m := SetExec(s.(choir := s.choir[id := s.choir[id].(state := Taken(0))]), 0, Marking([c]));
    t := SetExec(Kept(m, LocOf(c.key), Inprogress, true), 0, Running([c], {LocOf(c.key)}, false));
    ClaimLeads(f, s, id);
    MarkLeads(f, m, c, true);
    events := ([Claim(0, [id])] + []) + ([Mark(0, true)] + []);
    LeadsOn(f, s, [Claim(0, [id])] + [], m, [Mark(0, true)] + [], t);
  }

  // --- two jobs waiting at one place ---

  /** Job `first` is held by executor 0 about to mark it; job `second` waits; both
      file at l. */
  ghost predicate TwoAt(s: State, first: nat, second: nat, l: Loc) {
    && |s.execs| >= 1 && first != second && first in s.choir && second in s.choir
    && s.execs[0] == Marking([Claimed(first, s.choir[first].key)])
    && s.choir[second].state.Pending? && LocOf(s.choir[first].key) == l && LocOf(s.choir[second].key) == l
  }

  /** Then the verdict of the first is overwritten by the mark of the second. */
  lemma TwoOverwrite(f: Farm, n: nat, s: State, before: seq<Event>, m: State, first: nat, second: nat, l: Loc)
    requires Init(s, n) && Leads(f, s, before, m) && TwoAt(m, first, second, l)
    ensures !VerdictsStand(f, n)
  {
    hide LocOf, Leads, Init;
    var a, t := RunsToVerdict(f, m, Claimed(first, m.choir[first].key));
    var b, u := MarksAgain(f, t, second);
    LeadsOn(f, s, before, m, a, t);
    LeadsOn(f, s, before + a, t, b, u);
    NotStanding(f, n, s, before + a, t, b, u, l);
  }

  lemma NotStanding(f: Farm, n: nat, s: State, a: seq<Event>, t: State, b: seq<Event>, u: State, l: Loc)
    requires Init(s, n) && Leads(f, s, a, t) && Leads(f, s, a + b, u)
    requires StatusAt(t.store, l) == Some(Passed) && IsStuck(u.store, l)
    ensures !VerdictsStand(f, n)
  {
    assert IsRun(f, n, s, a) && !Stands(t, u, l);
  }

  /** A daemon that finds every place of both matrices decided but l. */
  function Fresh(n: nat, a: Config, b: Config, l: Loc): State {
    var store := map m | m in Places(All(a)) + Places(All(b)) - {l} :: Passed;
    State(store, store, map[], 0, map[], Starting, seq(n, i => Free))
  }

  lemma FreshIs(n: nat, a: Config, b: Config, l: Loc)
    ensures var s := Fresh(n, a, b, l);
            Init(s, n) && OnlyOpen(s, a, l) && OnlyOpen(s, b, l) && s.main.Starting? && |s.execs| == n
            && (n >= 1 ==> s.execs[0].Free?) && s.choir == map[] && s.jobMap == map[] && s.nextId == 0
  {
    hide All, LocOf;
  }

  /** One matrix with two leaders at l. */
  lemma TwoInOneMatrix(f: Farm, n: nat, cfg: Config, l: Loc)
    requires n >= 1 && cfg in f.cfgs && |LeadersAt(cfg, f.window, l)| >= 2
    ensures !VerdictsStand(f, n)
  {
    hide LeadersAt, LocOf, All, Submitted, Leads, Init;
    LeadersFileThere(cfg, f.window, l);
    var keys := KeysOf(LeadersAt(cfg, f.window, l));
    var s := Fresh(n, cfg, cfg, l);
    FreshIs(n, cfg, cfg, l);
    hide Fresh, OnlyOpen;
    var refill := RefillLeads(f, s, cfg, l);
    var m := Submitted(s, keys).(main := Draining);
    TwoSubmitted(s, keys);
    SubmittedKeeps(s, keys);
    ClaimLeads(f, m, 0);
    var t := SetExec(m.(choir := m.choir[0 := m.choir[0].(state := Taken(0))]), 0,
                     Marking([Claimed(0, m.choir[0].key)]));
    LeadsOn(f, s, refill, m, [Claim(0, [0])] + [], t);
    assert keys[0] == LeadersAt(cfg, f.window, l)[0].key && keys[1] == LeadersAt(cfg, f.window, l)[1].key;
    TwoOverwrite(f, n, s, refill + ([Claim(0, [0])] + []), t, 0, 1, l);
  }

  lemma TwoSubmitted(s: State, keys: seq<JobKey>)
    requires s.choir == map[] && s.jobMap == map[] && s.nextId == 0 && |keys| >= 2 && keys[0] != keys[1]
    ensures var t := Submitted(s, keys);
            0 in t.choir && 1 in t.choir && t.choir[0] == ChoirJob(keys[0], Pending)
            && t.choir[1] == ChoirJob(keys[1], Pending)
  {
    var s1 := s.(choir := map[0 := ChoirJob(keys[0], Pending)], jobMap := map[keys[0] := 0], nextId := 1);
    var s2 := s.(choir := map[0 := ChoirJob(keys[0], Pending), 1 := ChoirJob(keys[1], Pending)],
                 jobMap := map[keys[0] := 0, keys[1] := 1], nextId := 2);
    assert Submitted(s, keys) == Submitted(s1, keys[1..]);
    assert Submitted(s1, keys[1..]) == Submitted(s2, keys[1..][1..]);
    SubmittedKeeps(s2, keys[1..][1..]);
  }

  /** Two matrices with one leader each, a different one. */
  lemma OneInEachMatrix(f: Farm, n: nat, c1: Config, c2: Config, l: Loc)
    requires n >= 1 && c1 in f.cfgs && c2 in f.cfgs
    requires |LeadersAt(c1, f.window, l)| == 1 && |LeadersAt(c2, f.window, l)| == 1
    requires LeadersAt(c1, f.window, l)[0].key != LeadersAt(c2, f.window, l)[0].key
    ensures !VerdictsStand(f, n)
  {
    hide LeadersAt, LocOf, All, Leads, Init, Pendings;
    LeadersFileThere(c1, f.window, l);
    LeadersFileThere(c2, f.window, l);
    var a, b := LeadersAt(c1, f.window, l)[0].key, LeadersAt(c2, f.window, l)[0].key;
    var s := Fresh(n, c1, c2, l);
    FreshIs(n, c1, c2, l);
    hide Fresh;
    var first := RefillLeads(f, s, c1, l);
    var s1 := s.(choir := map[0 := ChoirJob(a, Pending)], jobMap := map[a := 0], nextId := 1, main := Draining);
    OneSubmitted(s, KeysOf(LeadersAt(c1, f.window, l)), a);
    ClaimLeads(f, s1, 0);
    var s2 := SetExec(s1.(choir := map[0 := ChoirJob(a, Taken(0))]), 0, Marking([Claimed(0, a)]));
    assert s1.choir[0 := s1.choir[0].(state := Taken(0))] == s2.choir;
    var s3 := s2.(main := Starting);
    DrainLeads(f, s2);
    var second := RefillLeads(f, s3, c2, l);
    var s4 := s3.(choir := s3.choir[1 := ChoirJob(b, Pending)], jobMap := s3.jobMap[b := 1],
                  nextId := 2, main := Draining);
    OneSubmitted(s3, KeysOf(LeadersAt(c2, f.window, l)), b);
    LeadsOn(f, s2, [Drained] + [], s3, second, s4);
    LeadsOn(f, s1, [Claim(0, [0])] + [], s2, ([Drained] + []) + second, s4);
    LeadsOn(f, s, first, s1, ([Claim(0, [0])] + []) + (([Drained] + []) + second), s4);
    TwoOverwrite(f, n, s, first + (([Claim(0, [0])] + []) + (([Drained] + []) + second)), s4, 0, 1, l);
  }

  lemma OneSubmitted(s: State, keys: seq<JobKey>, k: JobKey)
    requires |keys| == 1 && keys[0] == k && k !in s.jobMap
    ensures Submitted(s, keys)
         == s.(choir := s.choir[s.nextId := ChoirJob(k, Pending)], jobMap := s.jobMap[k := s.nextId],
               nextId := s.nextId + 1)
  {
    assert keys[1..] == [];
  }

  lemma DrainLeads(f: Farm, s: State)
    requires s.main.Draining? && forall id | id in s.choir :: !s.choir[id].state.Pending?
    ensures Leads(f, s, [Drained] + [], s.(main := Starting))
  {
    hide LocOf, LocsOf, CanDecide, CanClaim, Take, BatchKey, AfterTurn, Chosen, Changes, Record;
    assert Pendings(s) == {};
    var t := s.(main := Starting);
    assert Step(f, s, Drained) == t;
    NoEvents(f, t);
    LeadsBy(f, s, Drained, t, [], t);
  }

  /** Two leaders of one place, and an executor: some run overwrites a verdict. */
  lemma VerdictOverwritten(f: Farm, n: nat)
    requires n >= 1 && !OneLeader(f)
    ensures !VerdictsStand(f, n)
  {
    hide LeadersAt, LocOf, VerdictsStand;
    var a, b :| IsLeader(f, a) && IsLeader(f, b) && LocOf(a) == LocOf(b) && a != b;
    var l := LocOf(a);
    var c1 :| c1 in f.cfgs && DesiredJobs.HasKey(LeadersAt(c1, f.window, l), a);
    var c2 :| c2 in f.cfgs && DesiredJobs.HasKey(LeadersAt(c2, f.window, l), b);
    if |LeadersAt(c1, f.window, l)| >= 2 {
      TwoInOneMatrix(f, n, c1, l);
    } else if |LeadersAt(c2, f.window, l)| >= 2 {
      TwoInOneMatrix(f, n, c2, l);
    } else {
      OneInEachMatrix(f, n, c1, c2, l);
    }
  }

  // --- a verdict that never reaches the disk ---

  /** A run that records a verdict while no write of the file works: whatever the next
      daemon is told, it does not know the verdict. */
  lemma VerdictLost(f: Farm, n: nat, cfg: Config, l: Loc) returns (s: State, events: seq<Event>)
    requires n >= 1 && cfg in f.cfgs && LeadersAt(cfg, f.window, l) != []
    ensures IsRun(f, n, s, events)
    ensures var t := Exec(f, s, events).value;
            StatusAt(t.store, l) == Some(Passed)
            && forall start: Crashes.Start :: l !in Crashes.Restarted(t, n, start).store
  {
    hide LeadersAt, LocOf, All, Submitted, Leads, Init;
    LeadersFileThere(cfg, f.window, l);
    var keys := KeysOf(LeadersAt(cfg, f.window, l));
    s := Fresh(n, cfg, cfg, l);
    FreshIs(n, cfg, cfg, l);
    FreshDisk(n, cfg, l);
    hide Fresh, OnlyOpen;
    var refill := RefillLeads(f, s, cfg, l);
    var m := Submitted(s, keys).(main := Draining);
    FirstSubmitted(s, keys);
    SubmittedKeeps(s, keys);
    assert keys[0] == LeadersAt(cfg, f.window, l)[0].key;
    var c := Claimed(0, keys[0]);
    ClaimLeads(f, m, 0);
    var s1 := SetExec(m.(choir := m.choir[0 := m.choir[0].(state := Taken(0))]), 0, Marking([c]));
    var s2 := SetExec(Kept(s1, l, Inprogress, false), 0, Running([c], {l}, false));
    var t := SetExec(Kept(s2, l, Passed, false), 0, Reporting([c], 0));
    MarkLeads(f, s1, c, false);
    TurnLeads(f, s2, c, l, false);
    var turn := [Turn(0, map[l := Passed], false)] + [];
    LeadsOn(f, s1, [Mark(0, false)] + [], s2, turn, t);
    LeadsOn(f, m, [Claim(0, [0])] + [], s1, ([Mark(0, false)] + []) + turn, t);
    events := refill + (([Claim(0, [0])] + []) + (([Mark(0, false)] + []) + turn));
    LeadsOn(f, s, refill, m, ([Claim(0, [0])] + []) + (([Mark(0, false)] + []) + turn), t);
    RunLeads(f, n, s, events, t);
    assert t.disk == s.disk;
  }

  lemma RunLeads(f: Farm, n: nat, s: State, events: seq<Event>, t: State)
    requires Init(s, n) && Leads(f, s, events, t)
    ensures IsRun(f, n, s, events) && Exec(f, s, events).value == t
  {
  }

  lemma FreshDisk(n: nat, cfg: Config, l: Loc)
    ensures l !in Fresh(n, cfg, cfg, l).disk
  {
  }

  lemma FirstSubmitted(s: State, keys: seq<JobKey>)
    requires s.choir == map[] && s.jobMap == map[] && s.nextId == 0 && |keys| >= 1
    ensures var t := Submitted(s, keys);
            0 in t.choir && t.choir[0] == ChoirJob(keys[0], Pending)
  {
    SubmittedKeeps(s.(choir := map[0 := ChoirJob(keys[0], Pending)], jobMap := map[keys[0] := 0], nextId := 1),
                   keys[1..]);
  }

  // --- no executors ---

  lemma SleepsStep(f: Farm, s: State, ev: Event)
    requires s.execs == [] && Enabled(f, s, ev)
    ensures Step(f, s, ev).execs == [] && Step(f, s, ev).store == s.store
  {
    hide LocOf, LocsOf, CanDecide, CanClaim, Pendings, Take, BatchKey, AfterTurn, Chosen, Record, Changes;
  }

  lemma {:induction false} SleepsOn(f: Farm, s: State, events: seq<Event>)
    requires s.execs == [] && Exec(f, s, events).Some?
    ensures Exec(f, s, events).value.store == s.store
    decreases |events|
  {
    if events != [] {
      hide Step, Enabled;
      SleepsStep(f, s, events[0]);
      SleepsOn(f, Step(f, s, events[0]), events[1..]);
    }
  }

  lemma SleeperKeeps(f: Farm)
    ensures VerdictsStand(f, 0)
  {
    forall s: State, a: seq<Event>, b: seq<Event>, l: Loc | IsRun(f, 0, s, a) && Exec(f, s, a + b).Some?
      ensures Stands(Exec(f, s, a).value, Exec(f, s, a + b).value, l)
    {
      SleepsOn(f, s, a);
      SleepsOn(f, s, a + b);
    }
  }

  // --- exactly when verdicts are final ---

  /** Verdicts stand in every run exactly when no result place has two leaders: two
      different jobs among the first `window` that the matrices list for it. */
  lemma VerdictsFinalIff(f: Farm, n: nat)
    ensures VerdictsStand(f, n) <==> OneLeader(f) || n == 0
  {
    hide OneLeader, VerdictsStand;
    if OneLeader(f) {
      VerdictsFinal(f, n);
    } else if n >= 1 {
      VerdictOverwritten(f, n);
    } else {
      SleeperKeeps(f);
    }
  }

  /** No two jobs the matrix lists file their results in one place. */
  ghost predicate Injective(cfg: Config) {
    forall i, j | 0 <= i < |All(cfg)| && 0 <= j < |All(cfg)| && LocOf(All(cfg)[i].key) == LocOf(All(cfg)[j].key) ::
      All(cfg)[i].key == All(cfg)[j].key
  }

  /** A daemon whose matrix never changes: with a window of one, each place is served
      by one job only, whatever else files there. */
  lemma OneMatrixIff(cfg: Config, window: nat, n: nat)
    ensures VerdictsStand(Farm(iset{cfg}, window), n) <==> Injective(cfg) || window <= 1 || n == 0
  {
    var f := Farm(iset{cfg}, window);
    VerdictsFinalIff(f, n);
    hide VerdictsStand, LocOf, All;
    if Injective(cfg) || window <= 1 {
      forall a, b | IsLeader(f, a) && IsLeader(f, b) && LocOf(a) == LocOf(b)
        ensures a == b
      {
        SoleLeader(cfg, window, a, b);
      }
    } else {
      TwoListed(cfg, window);
    }
  }

  lemma SoleLeader(cfg: Config, window: nat, a: JobKey, b: JobKey)
    requires Injective(cfg) || window <= 1
    requires LocOf(a) == LocOf(b)
    requires DesiredJobs.HasKey(LeadersAt(cfg, window, LocOf(a)), a)
             && DesiredJobs.HasKey(LeadersAt(cfg, window, LocOf(b)), b)
    ensures a == b
  {
    hide LocOf, All, LeadersAt;
    var leaders := LeadersAt(cfg, window, LocOf(a));
    LeadersFileThere(cfg, window, LocOf(a));
    var i :| 0 <= i < |leaders| && leaders[i].key == a;
    var j :| 0 <= j < |leaders| && leaders[j].key == b;
    if window > 1 {
      var all := All(cfg);
      var x :| 0 <= x < |all| && all[x] == leaders[i];
      var y :| 0 <= y < |all| && all[y] == leaders[j];
    }
  }

  lemma IsLeaderBy(f: Farm, cfg: Config, l: Loc, i: nat)
    requires cfg in f.cfgs && i < |LeadersAt(cfg, f.window, l)| && LocOf(LeadersAt(cfg, f.window, l)[i].key) == l
    ensures IsLeader(f, LeadersAt(cfg, f.window, l)[i].key)
  {
    hide LocOf, LeadersAt;
    assert DesiredJobs.HasKey(LeadersAt(cfg, f.window, l), LeadersAt(cfg, f.window, l)[i].key);
  }

  lemma ListedAtPlace(cfg: Config, l: Loc, i: nat, j: nat)
    requires i < |All(cfg)| && j < |All(cfg)| && All(cfg)[i].key != All(cfg)[j].key
    requires LocOf(All(cfg)[i].key) == l && LocOf(All(cfg)[j].key) == l
    ensures |Open(All(cfg), Places(All(cfg)) - {l})| >= 2
  {
    hide LocOf, All, Open;
    var all := All(cfg);
    var open := Open(all, Places(all) - {l});
    InOpen(all, Places(all) - {l});
    assert all[i] in open && all[j] in open;
    var x :| 0 <= x < |open| && open[x] == all[i];
    var y :| 0 <= y < |open| && open[y] == all[j];
  }

  lemma TwoListed(cfg: Config, window: nat)
    requires !Injective(cfg) && window >= 2
    ensures !OneLeader(Farm(iset{cfg}, window))
  {
    hide LocOf, All, IsLeader, Open, Places;
    var f, all := Farm(iset{cfg}, window), All(cfg);
    var i, j :| 0 <= i < |all| && 0 <= j < |all| && LocOf(all[i].key) == LocOf(all[j].key) && all[i].key != all[j].key;
    var l := LocOf(all[i].key);
    ListedAtPlace(cfg, l, i, j);
    var leaders := LeadersAt(cfg, window, l);
    LeadersFileThere(cfg, window, l);
    assert |leaders| >= 2 && leaders[0].key != leaders[1].key;
    hide LeadersAt;
    IsLeaderBy(f, cfg, l, 0);
    IsLeaderBy(f, cfg, l, 1);
  }

  /** A result key names neither the user nor the repository, and flattens
      slashes: these jobs differ and file in one place. */
  lemma NamesCollide(k: JobKey, user: string, repo: string)
    ensures LocOf(k.(user := user, repo := repo, subtest := ReplaceChar(k.subtest, '/', '.'))) == LocOf(k)
  {
    hide ResultBasename;
    var flat := ReplaceChar(k.subtest, '/', '.');
    assert ReplaceChar(flat, '/', '.') == flat;
  }
}
