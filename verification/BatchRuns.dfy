/** An executor of the step system (Daemon) does what run_ktest_job promises (Batch):
    whatever the other threads do, its remaining places are those Batch.Owed names and
    what it leaves is what Batch.RunKtestJob leaves. */
module BatchRuns {
  import opened Text
  import opened Status
  import opened Jobs
  import opened Daemon
  import opened DaemonSafety
  import opened DaemonRuns
  import opened Leaders
  import Batch

  function JobKeys(b: seq<Claimed>): (keys: seq<JobKey>)
    ensures |keys| == |b| && forall i | 0 <= i < |b| :: keys[i] == b[i].key
  {
    seq(|b|, i requires 0 <= i < |b| => b[i].key)
  }

  // --- what an executor has read back ---

  /** What the VM runs of executor e left on disk since it marked its batch; None before
      it has. */
  function Story(events: seq<Event>, e: nat): Option<seq<map<Loc, TestStatus>>> {
    if events == [] then None
    else
      var earlier, last := Story(events[..|events| - 1], e), events[|events| - 1];
      match last
      case Claim(d, _) => if d == e then None else earlier
      case Mark(d, _) => if d == e then Some([]) else earlier
      case Turn(d, onDisk, _) => if d == e && earlier.Some? then Some(earlier.value + [onDisk]) else earlier
      case _ => earlier
  }

  /** The first status of a place that is not in progress. */
  function Verdict(h: seq<map<Loc, TestStatus>>, l: Loc): Option<TestStatus> {
    if h == [] then None
    else
      var earlier, here := Verdict(h[..|h| - 1], l), ReadBack(h[|h| - 1], l);
      if earlier.Some? then earlier
      else if here != Inprogress then Some(here)
      else None
  }

  function VerdictOr(h: seq<map<Loc, TestStatus>>, l: Loc, s: TestStatus): TestStatus {
    if Verdict(h, l).Some? then Verdict(h, l).value else s
  }

  lemma VerdictAfter(h: seq<map<Loc, TestStatus>>, d: map<Loc, TestStatus>, l: Loc)
    ensures Verdict(h + [d], l) == if Verdict(h, l).Some? then Verdict(h, l)
                                   else if ReadBack(d, l) != Inprogress then Some(ReadBack(d, l)) else None
  {
    assert (h + [d])[..|h|] == h;
  }

  // --- what an executor has made of it ---

  /** The places with no verdict yet. */
  function Open(b: seq<Claimed>, h: seq<map<Loc, TestStatus>>): set<Loc> {
    set l | l in LocsOf(b) && Verdict(h, l).None?
  }

  /** That run decided nothing. */
  predicate Wasted(b: seq<Claimed>, h: seq<map<Loc, TestStatus>>, t: nat)
    requires t < |h|
  {
    Open(b, h[..t + 1]) == Open(b, h[..t])
  }

  lemma WastedAfter(b: seq<Claimed>, h: seq<map<Loc, TestStatus>>, d: map<Loc, TestStatus>)
    ensures (exists t: nat | t < |h + [d]| :: Wasted(b, h + [d], t)) <==>
            (exists t: nat | t < |h| :: Wasted(b, h, t)) || Open(b, h + [d]) == Open(b, h)
  {
    hide Open;
    var longer := h + [d];
    assert longer[..|h|] == h && longer[..|h| + 1] == longer;
    forall t: nat | t < |h|
      ensures Wasted(b, longer, t) <==> Wasted(b, h, t)
    {
      assert longer[..t] == h[..t] && longer[..t + 1] == h[..t + 1];
    }
    assert Wasted(b, longer, |h|) <==> Open(b, longer) == Open(b, h);
  }

  predicate Hold(store: map<Loc, TestStatus>, places: set<Loc>, h: seq<map<Loc, TestStatus>>, s: TestStatus) {
    forall l | l in places :: StatusAt(store, l) == Some(VerdictOr(h, l, s))
  }

  predicate Follows(store: map<Loc, TestStatus>, x: Executor, h: seq<map<Loc, TestStatus>>) {
    match x
    case Free => true
    case Marking(_) => false
    case Running(b, remaining, cleaned) =>
      && remaining != {} && remaining == Open(b, h) && Hold(store, LocsOf(b), h, Inprogress)
      && |h| + |remaining| + (if cleaned then 0 else 1) <= |LocsOf(b)| + 1
      && (cleaned <==> exists t: nat | t < |h| :: Wasted(b, h, t))
    case Sweeping(b, _, _) => Hold(store, LocsOf(b), h, Inprogress) && |h| <= |LocsOf(b)| + 1
    case Reporting(b, _) => Hold(store, HeldLocs(x), h, FailedToRun) && |h| <= |LocsOf(b)| + 1
  }

  /** A batch that was never marked is as it was: nothing of it has a verdict. */
  predicate Unmarked(store: map<Loc, TestStatus>, x: Executor) {
    x.Free? || (!x.Running? && forall l | l in HeldLocs(x) :: JobWanted(StatusAt(store, l)))
  }

  predicate Tells(store: map<Loc, TestStatus>, x: Executor, story: Option<seq<map<Loc, TestStatus>>>) {
    if story.Some? then Follows(store, x, story.value) else Unmarked(store, x)
  }

  /** Names without NULs, as file names and everything from the configuration are. */
  ghost predicate CleanNames(f: Farm) {
    forall k | IsLeader(f, k) :: NoNul(k)
  }

  ghost predicate Alike(s: State) {
    forall e | 0 <= e < |s.execs| && !s.execs[e].Free? :: Batch.IsBatch(JobKeys(s.execs[e].batch))
  }

  ghost predicate AllTell(s: State, events: seq<Event>) {
    forall e | 0 <= e < |s.execs| :: Tells(s.store, s.execs[e], Story(events, e))
  }

  // --- the executor's own steps ---

  lemma StoryAfter(events: seq<Event>, ev: Event, e: nat)
    ensures var before, after := Story(events, e), Story(events + [ev], e);
            match ev
            case Claim(d, _) => after == if d == e then None else before
            case Mark(d, _) => after == if d == e then Some([]) else before
            case Turn(d, onDisk, _) =>
              after == if d == e && before.Some? then Some(before.value + [onDisk]) else before
            case _ => after == before
  {
    assert (events + [ev])[..|events|] == events;
  }

  lemma LocsOfSome(b: seq<Claimed>)
    requires b != []
    ensures LocsOf(b) != {}
  {
    assert LocOf(b[0].key) in LocsOf(b);
  }

  lemma MarkFollows(store: map<Loc, TestStatus>, b: seq<Claimed>)
    requires b != []
    ensures Follows(store + map l | l in LocsOf(b) :: Inprogress, Running(b, LocsOf(b), false), [])
  {
    hide LocOf, LocsOf;
    LocsOfSome(b);
    assert Open(b, []) == LocsOf(b);
  }

  lemma TurnFollows(store: map<Loc, TestStatus>, x: Executor, h: seq<map<Loc, TestStatus>>, d: map<Loc, TestStatus>)
    requires x.Running? && Follows(store, x, h)
    ensures Follows(store + map l | l in x.remaining :: ReadBack(d, l), AfterTurn(x, d), h + [d])
  {
    hide LocOf, LocsOf, ReadBack, Verdict;
    var b, t := x.batch, store + map l | l in x.remaining :: ReadBack(d, l);
    var next := set l | l in x.remaining && ReadBack(d, l) == Inprogress;
    forall l | l in LocsOf(b)
      ensures StatusAt(t, l) == Some(VerdictOr(h + [d], l, Inprogress))
      ensures l in next <==> Verdict(h + [d], l).None?
    {
      VerdictAfter(h, d, l);
    }
    assert next == Open(b, h + [d]);
    WastedAfter(b, h, d);
    Smaller(next, x.remaining);
    if next == {} {
      HeldAtFirst(b);
    }
  }

  lemma HeldAtFirst(b: seq<Claimed>)
    ensures HeldLocs(Reporting(b, 0)) == LocsOf(b)
  {
    hide LocOf;
  }

  lemma Smaller(a: set<Loc>, b: set<Loc>)
    requires a <= b
    ensures |a| <= |b| && (a != b ==> |a| < |b|)
  {
    if a != b {
      assert |b - a| > 0 && |b| == |a| + |b - a|;
    }
  }

  lemma SweepFollows(store: map<Loc, TestStatus>, x: Executor, h: seq<map<Loc, TestStatus>>)
    requires x.Sweeping? && x.checked >= |x.batch| && Follows(store, x, h) && ExecOk(store, x)
    ensures Follows(store + map l | l in x.stuck :: FailedToRun, Reporting(x.batch, 0), h)
  {
    hide LocOf, Verdict;
    var t := store + map l | l in x.stuck :: FailedToRun;
    HeldAtFirst(x.batch);
    forall l | l in LocsOf(x.batch)
      ensures StatusAt(t, l) == Some(VerdictOr(h, l, FailedToRun))
    {
      VerdictDecides(h, l);
      var i :| 0 <= i < |x.batch| && LocOf(x.batch[i].key) == l;
      assert StatusAt(store, l) == Some(VerdictOr(h, l, Inprogress));
    }
  }

  lemma {:induction false} VerdictDecides(h: seq<map<Loc, TestStatus>>, l: Loc)
    ensures Verdict(h, l) != Some(Inprogress)
  {
    if h != [] {
      VerdictDecides(h[..|h| - 1], l);
    }
  }

  lemma WriteTells(f: Farm, s: State, events: seq<Event>, ev: Event)
    requires ExecsOk(s) && Alike(s) && AllTell(s, events) && Enabled(f, s, ev) && Writes(ev)
    ensures Tells(Step(f, s, ev).store, Step(f, s, ev).execs[ev.e], Story(events + [ev], ev.e))
  {
    hide LocOf, LocsOf, CanDecide, CanClaim, AfterTurn, HeldLocs, Pendings, Take, Rewritten, CommitsOf, Step,
         Follows, Story, ExecOk;
    WriteIs(f, s, ev);
    StoryAfter(events, ev, ev.e);
    var x := s.execs[ev.e];
    assert Tells(s.store, x, Story(events, ev.e)) && ExecOk(s.store, x);
    match ev
    case Mark(_, _) => MarkFollows(s.store, x.batch);
    case Turn(e, onDisk, _) => TurnFollows(s.store, x, Story(events, e).value, onDisk);
    case SweepWrite(e, _) =>
      if Story(events, e).Some? {
        SweepFollows(s.store, x, Story(events, e).value);
      } else {
        SweepUnmarked(s.store, x);
      }
  }

  lemma SweepUnmarked(store: map<Loc, TestStatus>, x: Executor)
    requires x.Sweeping? && Unmarked(store, x) && ExecOk(store, x)
    ensures Unmarked(store + map l | l in x.stuck :: FailedToRun, Reporting(x.batch, 0))
  {
    hide LocOf;
    HeldAtFirst(x.batch);
    assert HeldLocs(x) == LocsOf(x.batch);
    assert forall l | l in x.stuck :: l in LocsOf(x.batch) && JobWanted(StatusAt(store, l));
  }

  /** How an executor gets on without a write: to its sweep, along it, or reporting. */
  predicate Moved(x: Executor, y: Executor) {
    || (x.Reporting? && (y.Free? || y == Reporting(x.batch, x.reported + 1)))
    || ((x.Marking? || x.Running? || x.Sweeping?) && y.Sweeping? && y.batch == x.batch)
  }

  lemma MoveIs(f: Farm, s: State, ev: Event)
    requires Enabled(f, s, ev) && MovesExecutor(ev)
    ensures ev.e < |s.execs| == |Step(f, s, ev).execs|
    ensures var x, y := s.execs[ev.e], Step(f, s, ev).execs[ev.e];
            if ev.Claim? then y.Marking? else Moved(x, y)
  {
    hide LocOf, LocsOf, CanDecide, BatchKey, Pendings, Take;
  }

  lemma MovedTells(store: map<Loc, TestStatus>, x: Executor, y: Executor, story: Option<seq<map<Loc, TestStatus>>>)
    requires Tells(store, x, story) && Moved(x, y)
    ensures Tells(store, y, story)
  {
    hide LocOf, Verdict, Open;
    if !y.Free? {
      assert HeldLocs(y) <= HeldLocs(x);
      assert x.Running? ==> |x.remaining| > 0;
    }
  }

  lemma MoveTells(f: Farm, s: State, events: seq<Event>, ev: Event)
    requires Inv(f, s) && AllTell(s, events) && Enabled(f, s, ev) && MovesExecutor(ev)
    ensures Tells(s.store, Step(f, s, ev).execs[ev.e], Story(events + [ev], ev.e))
  {
    hide Inv, Enabled, Step, Story, Tells, Follows, ExecOk, Moved;
    MoveIs(f, s, ev);
    StoryAfter(events, ev, ev.e);
    var y := Step(f, s, ev).execs[ev.e];
    assert Tells(s.store, s.execs[ev.e], Story(events, ev.e));
    if ev.Claim? {
      MoveKeepsOwn(f, s, ev);
      ClaimTells(s.store, y);
    } else {
      MovedTells(s.store, s.execs[ev.e], y, Story(events, ev.e));
    }
  }

  lemma ClaimTells(store: map<Loc, TestStatus>, x: Executor)
    requires x.Marking? && ExecOk(store, x)
    ensures Tells(store, x, None)
  {
    hide LocOf;
    assert HeldLocs(x) == LocsOf(x.batch);
  }

  // --- everyone else's ---

  lemma OthersTell(f: Farm, s: State, events: seq<Event>, ev: Event, e: nat)
    requires OneLeader(f) && Inv(f, s) && AllTell(s, events) && Enabled(f, s, ev)
    requires e < |s.execs| && (MovesMain(ev) || ev.e != e)
    ensures var t := Step(f, s, ev);
            e < |t.execs| && t.execs[e] == s.execs[e] && Tells(t.store, t.execs[e], Story(events + [ev], e))
  {
    OthersLeave(f, s, ev, e);
    StoryAfter(events, ev, e);
    var t := Step(f, s, ev);
    TellsFrame(s.store, t.store, s.execs[e], Story(events, e));
  }

  lemma TellsFrame(a: map<Loc, TestStatus>, b: map<Loc, TestStatus>, x: Executor,
                   story: Option<seq<map<Loc, TestStatus>>>)
    requires Tells(a, x, story) && (!x.Free? ==> forall l | l in HeldLocs(x) :: SameAt(a, b, l))
    ensures Tells(b, x, story)
  {
    hide LocOf, Verdict, Open;
    if !x.Free? && !x.Reporting? {
      assert HeldLocs(x) == LocsOf(x.batch);
    }
  }

  lemma StepFrame(f: Farm, s: State, ev: Event)
    requires Enabled(f, s, ev)
    ensures |Step(f, s, ev).execs| == |s.execs|
    ensures MovesExecutor(ev) ==> Step(f, s, ev).store == s.store
  {
    hide LocOf, LocsOf, CanDecide, CanClaim, AfterTurn, Pendings, Take, Chosen, Rewritten, CommitsOf, Changes, BatchKey,
         Record;
    if Writes(ev) {
      WriteIs(f, s, ev);
    }
  }

  lemma StepTells(f: Farm, s: State, events: seq<Event>, ev: Event)
    requires OneLeader(f) && Inv(f, s) && Alike(s) && AllTell(s, events) && Enabled(f, s, ev)
    ensures AllTell(Step(f, s, ev), events + [ev])
  {
    hide Shape, ExecsOk, PendingWanted, SeenCurrent, TodoWanted, Alike, Enabled, Step, Tells, Story, OneLeader;
    StepFrame(f, s, ev);
    var t := Step(f, s, ev);
    forall e | 0 <= e < |t.execs|
      ensures Tells(t.store, t.execs[e], Story(events + [ev], e))
    {
      if MovesMain(ev) || ev.e != e {
        OthersTell(f, s, events, ev, e);
      } else if Writes(ev) {
        WriteTells(f, s, events, ev);
      } else {
        MoveTells(f, s, events, ev);
      }
    }
  }

  // --- batches are batches ---

  lemma ClaimedAlike(f: Farm, s: State, e: nat, ids: seq<nat>)
    requires CleanNames(f) && InUniverse(f, s) && Enabled(f, s, Claim(e, ids))
    ensures Batch.IsBatch(JobKeys(Step(f, s, Claim(e, ids)).execs[e].batch))
  {
    hide BatchKey, LocOf, IsLeader, NoNul, Batch.IsBatch;
    var keys := JobKeys(Step(f, s, Claim(e, ids)).execs[e].batch);
    forall i | 0 <= i < |keys|
      ensures keys[i] == s.choir[ids[i]].key && NoNul(keys[i])
    {
      assert IsLeader(f, s.choir[ids[i]].key);
    }
    ClaimIsBatch(keys);
  }

  lemma StepKeepsAlike(f: Farm, s: State, ev: Event)
    requires CleanNames(f) && InUniverse(f, s) && Alike(s) && Enabled(f, s, ev)
    ensures Alike(Step(f, s, ev))
  {
    hide Step, Enabled, InUniverse, CleanNames, Batch.IsBatch;
    if ev.Claim? {
      ClaimedAlike(f, s, ev.e, ev.ids);
    }
    var t := Step(f, s, ev);
    StepFrame(f, s, ev);
    forall e | 0 <= e < |t.execs| && !t.execs[e].Free?
      ensures Batch.IsBatch(JobKeys(t.execs[e].batch))
    {
      if !ev.Claim? || ev.e != e {
        BatchStays(f, s, ev, e);
      }
    }
  }

  lemma BatchStays(f: Farm, s: State, ev: Event, e: nat)
    requires Enabled(f, s, ev) && e < |s.execs| && !(ev.Claim? && ev.e == e)
    ensures var t := Step(f, s, ev);
            e < |t.execs| && (!t.execs[e].Free? ==> !s.execs[e].Free? && t.execs[e].batch == s.execs[e].batch)
  {
    hide LocOf, LocsOf, CanDecide, CanClaim, Pendings, Take, Chosen, Rewritten, CommitsOf, Changes, BatchKey;
    if Writes(ev) {
      WriteIs(f, s, ev);
    }
  }

  // --- whole runs ---

  ghost predicate Kept(f: Farm, s: State, events: seq<Event>) {
    Inv(f, s) && Alike(s) && AllTell(s, events)
  }

  lemma {:induction false} RunKept(f: Farm, n: nat, s: State, events: seq<Event>)
    requires OneLeader(f) && CleanNames(f) && IsRun(f, n, s, events)
    ensures Kept(f, Exec(f, s, events).value, events)
    decreases |events|
  {
    if events == [] {
      InitInv(f, n, s);
    } else {
      var init, ev := events[..|events| - 1], events[|events| - 1];
      assert events == init + [ev];
      SplitLast(f, s, init, ev);
      RunKept(f, n, s, init);
      var t := Exec(f, s, init).value;
      StepKeepsInv(f, t, ev);
      StepKeepsAlike(f, t, ev);
      StepTells(f, t, init, ev);
    }
  }

  lemma {:induction false} SplitLast(f: Farm, s: State, init: seq<Event>, ev: Event)
    requires Exec(f, s, init + [ev]).Some?
    ensures Exec(f, s, init).Some? && Enabled(f, Exec(f, s, init).value, ev)
    ensures Exec(f, s, init + [ev]).value == Step(f, Exec(f, s, init).value, ev)
    decreases |init|
  {
    hide Enabled, Step;
    if init == [] {
      assert init + [ev] == [ev] && [ev][1..] == [];
    } else {
      assert (init + [ev])[1..] == init[1..] + [ev];
      SplitLast(f, Step(f, s, init[0]), init[1..], ev);
    }
  }

  // --- in the terms of run_ktest_job ---

  /** A world whose VM runs come back as the executor's did. */
  ghost predicate Answers(w: Batch.World, commit: string, h: seq<map<Loc, TestStatus>>) {
    forall t, key: string | 0 <= t < |h| ::
      Batch.ReadBack(w.turns(t), w.now, key).status == ReadBack(h[t], (commit, key))
  }

  /** There is one. */
  function WorldOf(commit: string, h: seq<map<Loc, TestStatus>>): (w: Batch.World)
    ensures Answers(w, commit, h)
  {
    Batch.World("url", [], (t: nat) => if t < |h| then TurnOf(commit, h[t]) else Batch.Turn(false, false, map[], false),
                0, 0)
  }

  function TurnOf(commit: string, onDisk: map<Loc, TestStatus>): Batch.Turn {
    Batch.Turn(true, true, map l | l in onDisk && l.0 == commit :: l.1 := TestResult(onDisk[l], 0, 0), true)
  }

  function StatusOr(r: Option<TestResult>, s: TestStatus): TestStatus {
    if r.Some? then r.value.status else s
  }

  lemma {:induction false} VerdictIsFirst(w: Batch.World, commit: string, h: seq<map<Loc, TestStatus>>, n: nat,
                                          key: string, s: TestStatus)
    requires Answers(w, commit, h) && n <= |h|
    ensures Batch.FirstVerdict(w, n, key).Some? <==> Verdict(h[..n], (commit, key)).Some?
    ensures StatusOr(Batch.FirstVerdict(w, n, key), s) == VerdictOr(h[..n], (commit, key), s)
  {
    hide ReadBack, Batch.ReadBack;
    if n > 0 {
      VerdictIsFirst(w, commit, h, n - 1, key, s);
      assert h[..n][..n - 1] == h[..n - 1] && h[..n][n - 1] == h[n - 1];
    }
  }

  /** The places of the subtests that still owe a verdict after n turns. */
  function OwedLocs(w: Batch.World, n: nat, keys: seq<JobKey>): set<Loc>
    requires keys != []
  {
    set st | st in Batch.Owed(w, n, keys[0], Batch.Subtests(keys)) :: (keys[0].commit, Batch.KeyFor(keys[0], st))
  }

  function CommitOf(b: seq<Claimed>): string {
    if b == [] then "" else b[0].key.commit
  }

  lemma CommitIs(b: seq<Claimed>)
    requires Batch.IsBatch(JobKeys(b))
    ensures b != [] && CommitOf(b) == b[0].key.commit
  {
  }

  lemma PlaceOfJob(b: seq<Claimed>, i: nat)
    requires Batch.IsBatch(JobKeys(b)) && i < |b|
    ensures LocOf(b[i].key) == (b[0].key.commit, Batch.KeyFor(b[0].key, b[i].key.subtest))
  {
    assert JobKeys(b)[i] == b[i].key;
  }

  lemma OpenIsOwed(w: Batch.World, b: seq<Claimed>, h: seq<map<Loc, TestStatus>>)
    requires Batch.IsBatch(JobKeys(b)) && Answers(w, b[0].key.commit, h)
    ensures Open(b, h) == OwedLocs(w, |h|, JobKeys(b))
  {
    var keys, c, n := JobKeys(b), b[0].key.commit, |h|;
    var p, subtests := keys[0], Batch.Subtests(keys);
    hide Batch.FirstVerdict, Verdict, Answers, Batch.Owed, Batch.KeyFor, LocOf, Batch.IsBatch;
    assert h[..n] == h;
    forall l | l in Open(b, h)
      ensures l in OwedLocs(w, n, keys)
    {
      var i :| 0 <= i < |b| && LocOf(b[i].key) == l;
      PlaceOfJob(b, i);
      Batch.InOwed(w, n, p, subtests, subtests[i]);
      VerdictIsFirst(w, c, h, n, l.1, Inprogress);
      assert subtests[i] in Batch.Owed(w, n, p, subtests);
    }
    forall l | l in OwedLocs(w, n, keys)
      ensures l in Open(b, h)
    {
      var st :| st in Batch.Owed(w, n, p, subtests) && l == (c, Batch.KeyFor(p, st));
      Batch.InOwed(w, n, p, subtests, st);
      VerdictIsFirst(w, c, h, n, l.1, Inprogress);
      var i :| 0 <= i < |subtests| && subtests[i] == st;
      PlaceOfJob(b, i);
    }
  }

  /** In every run, whatever the other threads do, an executor that has marked its batch
      is at a point of run_ktest_job in a world that answers as its VM runs did: the
      places it still runs are those Batch.Owed names, the batch is recorded as after
      that many turns (Batch.Recorded), what it leaves is what Batch.RunKtestJob leaves,
      and it runs at most one VM more than there are subtests. */
  lemma ExecutorIsBatch(f: Farm, n: nat, s: State, events: seq<Event>, e: nat, w: Batch.World)
    requires OneLeader(f) && CleanNames(f) && IsRun(f, n, s, events)
    requires var t := Exec(f, s, events).value;
             && e < |t.execs| && !t.execs[e].Free? && Story(events, e).Some?
             && Answers(w, CommitOf(t.execs[e].batch), Story(events, e).value)
    ensures var t := Exec(f, s, events).value;
            var x, turns := t.execs[e], |Story(events, e).value|;
            var keys := JobKeys(x.batch);
            && Batch.IsBatch(keys) && !x.Marking? && turns <= |keys| + 1
            && (x.Running? ==> x.remaining == OwedLocs(w, turns, keys) != {})
            && (forall i | ReportedOf(x) <= i < |keys| ::
                  StatusAt(t.store, LocOf(keys[i])) ==
                  Some(StatusOr(Batch.FirstVerdict(w, turns, Batch.ResultKey(keys[i])),
                                if x.Reporting? then FailedToRun else Inprogress)))
  {
    hide OneLeader, CleanNames, Init, Story, Answers, Batch.IsBatch, Batch.FirstVerdict, Verdict, Inv, OwedLocs, Open,
         Batch.ResultKey;
    RunKept(f, n, s, events);
    var t, h := Exec(f, s, events).value, Story(events, e).value;
    var x := t.execs[e];
    assert Tells(t.store, x, Some(h));
    PlacesFew(x.batch);
    CommitIs(x.batch);
    OpenIsOwed(w, x.batch, h);
    forall i | ReportedOf(x) <= i < |x.batch|
      ensures StatusAt(t.store, LocOf(x.batch[i].key)) ==
              Some(StatusOr(Batch.FirstVerdict(w, |h|, Batch.ResultKey(x.batch[i].key)),
                            if x.Reporting? then FailedToRun else Inprogress))
    {
      var l := LocOf(x.batch[i].key);
      assert l in HeldLocs(x);
      if !x.Reporting? {
        assert l in LocsOf(x.batch);
      }
      SameCommit(x.batch, i);
      assert h[..|h|] == h;
      VerdictIsFirst(w, l.0, h, |h|, l.1, if x.Reporting? then FailedToRun else Inprogress);
    }
  }

  lemma {:induction false} OwedSame(w: Batch.World, n: nat, p: JobKey, subtests: seq<string>)
    requires forall st | st in subtests ::
               Batch.FirstVerdict(w, n + 1, Batch.KeyFor(p, st)).None? <==>
               Batch.FirstVerdict(w, n, Batch.KeyFor(p, st)).None?
    ensures Batch.Owed(w, n + 1, p, subtests) == Batch.Owed(w, n, p, subtests)
  {
    hide Batch.FirstVerdict, Batch.KeyFor;
    if subtests != [] {
      OwedSame(w, n, p, subtests[..|subtests| - 1]);
    }
  }

  /** A run wasted by the places is an idle turn by the list. */
  lemma WastedIsIdle(w: Batch.World, b: seq<Claimed>, h: seq<map<Loc, TestStatus>>, t: nat)
    requires Batch.IsBatch(JobKeys(b)) && Answers(w, b[0].key.commit, h) && t < |h|
    ensures Wasted(b, h, t) <==> Batch.Idle(w, JobKeys(b), t)
  {
    var keys := JobKeys(b);
    var p, subtests := keys[0], Batch.Subtests(keys);
    assert Answers(w, b[0].key.commit, h[..t]) && Answers(w, b[0].key.commit, h[..t + 1]);
    OpenIsOwed(w, b, h[..t]);
    OpenIsOwed(w, b, h[..t + 1]);
    if Wasted(b, h, t) {
      hide Batch.FirstVerdict, Batch.KeyFor, Batch.Owed, Open, Answers, LocOf;
      forall st | st in subtests
        ensures Batch.FirstVerdict(w, t + 1, Batch.KeyFor(p, st)).None? <==>
                Batch.FirstVerdict(w, t, Batch.KeyFor(p, st)).None?
      {
        OwedAt(w, keys, t, st);
        OwedAt(w, keys, t + 1, st);
      }
      OwedSame(w, t, p, subtests);
    }
  }

  lemma OwedAt(w: Batch.World, keys: seq<JobKey>, n: nat, st: string)
    requires keys != [] && st in Batch.Subtests(keys)
    ensures (keys[0].commit, Batch.KeyFor(keys[0], st)) in OwedLocs(w, n, keys) <==>
            Batch.FirstVerdict(w, n, Batch.KeyFor(keys[0], st)).None?
  {
    hide Batch.FirstVerdict, Batch.KeyFor, Batch.Owed;
    var p, subtests := keys[0], Batch.Subtests(keys);
    Batch.InOwed(w, n, p, subtests, st);
    if (p.commit, Batch.KeyFor(p, st)) in OwedLocs(w, n, keys) {
      var other :| other in Batch.Owed(w, n, p, subtests) && Batch.KeyFor(p, other) == Batch.KeyFor(p, st);
      Batch.InOwed(w, n, p, subtests, other);
    }
  }

  /** After a VM run the executor goes on as the resume loop does: it reports when nothing
      is owed any more, gives up when the run was idle and one before it had been, and
      otherwise runs again. */
  lemma TurnDecides(f: Farm, n: nat, s: State, events: seq<Event>, ev: Event, w: Batch.World)
    requires OneLeader(f) && CleanNames(f) && IsRun(f, n, s, events)
    requires var t := Exec(f, s, events).value;
             && ev.Turn? && Enabled(f, t, ev) && Story(events, ev.e).Some?
             && Answers(w, CommitOf(t.execs[ev.e].batch), Story(events, ev.e).value + [ev.onDisk])
    ensures var t := Exec(f, s, events).value;
            var k, keys := |Story(events, ev.e).value|, JobKeys(t.execs[ev.e].batch);
            var y := Step(f, t, ev).execs[ev.e];
            && keys != []
            && (y.Reporting? <==> Batch.OwedBy(w, keys, k + 1) == [])
            && (y.Sweeping? <==> Batch.Idle(w, keys, k) && exists i: nat | i < k :: Batch.Idle(w, keys, i))
            && (y.Running? <==> !y.Reporting? && !y.Sweeping?)
  {
    hide OneLeader, CleanNames, Init, Story, Answers, Batch.IsBatch, Batch.FirstVerdict, Verdict, Inv, OwedLocs, Open,
         Follows, Batch.Owed, AfterTurn, Wasted, Enabled, Step;
    RunKept(f, n, s, events);
    var t, h := Exec(f, s, events).value, Story(events, ev.e).value;
    TurnIs(f, t, ev);
    var x, longer := t.execs[ev.e], h + [ev.onDisk];
    assert Tells(t.store, x, Some(h));
    CommitIs(x.batch);
    AfterTurnIs(t.store, x, h, ev.onDisk);
    OpenIsOwed(w, x.batch, longer);
    NothingOwed(w, JobKeys(x.batch), |h| + 1);
    forall i: nat | i <= |h|
      ensures Wasted(x.batch, longer, i) <==> Batch.Idle(w, JobKeys(x.batch), i)
    {
      WastedIsIdle(w, x.batch, longer, i);
    }
  }

  lemma TurnIs(f: Farm, s: State, ev: Event)
    requires Enabled(f, s, ev) && ev.Turn?
    ensures ev.e < |s.execs| && s.execs[ev.e].Running? && ev.e < |Step(f, s, ev).execs|
    ensures Step(f, s, ev).execs[ev.e] == AfterTurn(s.execs[ev.e], ev.onDisk)
  {
    hide LocOf, LocsOf, CanDecide, CanClaim, AfterTurn, Pendings, Take, Changes, Rewritten, CommitsOf;
  }

  lemma NothingOwed(w: Batch.World, keys: seq<JobKey>, n: nat)
    requires keys != []
    ensures OwedLocs(w, n, keys) == {} <==> Batch.OwedBy(w, keys, n) == []
  {
    hide Batch.Owed, Batch.KeyFor;
    var owed := Batch.OwedBy(w, keys, n);
    if owed != [] {
      assert owed[0] in owed;
      assert (keys[0].commit, Batch.KeyFor(keys[0], owed[0])) in OwedLocs(w, n, keys);
    }
  }

  lemma AfterTurnIs(store: map<Loc, TestStatus>, x: Executor, h: seq<map<Loc, TestStatus>>, d: map<Loc, TestStatus>)
    requires x.Running? && Follows(store, x, h)
    ensures var y, longer := AfterTurn(x, d), h + [d];
            && (y.Reporting? <==> Open(x.batch, longer) == {})
            && (y.Sweeping? <==> Wasted(x.batch, longer, |h|) && exists i: nat | i < |h| :: Wasted(x.batch, longer, i))
            && (y.Running? <==> !y.Reporting? && !y.Sweeping?)
  {
    hide LocOf, LocsOf, ReadBack, Verdict, Hold;
    var b, longer := x.batch, h + [d];
    var next := set l | l in x.remaining && ReadBack(d, l) == Inprogress;
    forall l | l in LocsOf(b)
      ensures l in next <==> Verdict(longer, l).None?
    {
      VerdictAfter(h, d, l);
    }
    assert next == Open(b, longer);
    assert longer[..|h|] == h && longer[..|h| + 1] == longer;
    forall i: nat | i < |h|
      ensures Wasted(b, longer, i) <==> Wasted(b, h, i)
    {
      assert longer[..i] == h[..i] && longer[..i + 1] == h[..i + 1];
    }
  }

  lemma SameCommit(b: seq<Claimed>, i: nat)
    requires Batch.IsBatch(JobKeys(b)) && i < |b|
    ensures LocOf(b[i].key).0 == b[0].key.commit
  {
    PlaceOfJob(b, i);
  }

  lemma {:induction false} PlacesFew(b: seq<Claimed>)
    ensures |LocsOf(b)| <= |b|
  {
    hide LocOf;
    if b != [] {
      var init, last := b[..|b| - 1], b[|b| - 1];
      PlacesFew(init);
      assert LocsOf(b) == LocsOf(init) + {LocOf(last.key)};
    }
  }

  /** A batch that is never marked, having no repository URL, is left as it was. */
  lemma UnmarkedUntouched(f: Farm, n: nat, s: State, events: seq<Event>, e: nat, l: Loc)
    requires OneLeader(f) && CleanNames(f) && IsRun(f, n, s, events)
    requires var t := Exec(f, s, events).value;
             && e < |t.execs| && !t.execs[e].Free? && Story(events, e).None? && l in HeldLocs(t.execs[e])
    ensures var t := Exec(f, s, events).value;
            !t.execs[e].Running? && StatusAt(t.store, l) in {None, Some(Unknown)}
  {
    hide OneLeader, CleanNames, Init, Story, HeldLocs, Inv;
    RunKept(f, n, s, events);
    var t := Exec(f, s, events).value;
    assert Tells(t.store, t.execs[e], None);
  }
}
