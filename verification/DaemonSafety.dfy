/** Whole-run safety of the daemon: jobs are never duplicated, the backlog is
    bounded, nothing is stuck in progress, and a verdict once recorded stands. */
module DaemonSafety {
  import opened Text
  import opened Status
  import opened Jobs
  import opened Daemon
  import opened Leaders

  // --- at most one existing job per key ---

  /** Existing jobs and the job map: the map names the one job of every key. */
  ghost predicate Tracked(s: State) {
    && (forall id | id in s.choir ::
          id < s.nextId && s.choir[id].key in s.jobMap && s.jobMap[s.choir[id].key] == id)
    && (forall k | k in s.jobMap :: s.jobMap[k] < s.nextId)
    && (forall k | k in s.jobMap && s.jobMap[k] in s.choir :: s.choir[s.jobMap[k]].key == k)
    && (!s.main.Removed? ==> forall k | k in s.jobMap :: s.jobMap[k] in s.choir)
  }

  predicate TouchesChoir(ev: Event) {
    ev.Remove? || ev.Retain? || ev.Submit? || ev.Claim? || ev.Report?
  }

  /** Every other step leaves the choir and the job map alone. */
  lemma QuietStep(f: Farm, s: State, ev: Event)
    requires Enabled(f, s, ev) && !TouchesChoir(ev)
    ensures var t := Step(f, s, ev);
            t.choir == s.choir && t.jobMap == s.jobMap && t.nextId == s.nextId && t.main.Removed? == s.main.Removed?
  {
    hide CanDecide, CanClaim, AfterTurn, LocsOf, LocOf, Pendings, Chosen, Rewritten, Changes;
  }

  predicate SameKeys(a: map<nat, ChoirJob>, b: map<nat, ChoirJob>) {
    a.Keys == b.Keys && forall id | id in a :: b[id].key == a[id].key
  }

  lemma ClaimRekeysNothing(f: Farm, s: State, e: nat, ids: seq<nat>)
    requires Enabled(f, s, Claim(e, ids))
    ensures var t := Step(f, s, Claim(e, ids));
            SameKeys(s.choir, t.choir) && t.jobMap == s.jobMap && t.nextId == s.nextId && t.main == s.main
  {
    hide BatchKey, LocOf;
  }

  lemma ReportRekeysNothing(f: Farm, s: State, e: nat)
    requires Enabled(f, s, Report(e))
    ensures var t := Step(f, s, Report(e));
            SameKeys(s.choir, t.choir) && t.jobMap == s.jobMap && t.nextId == s.nextId && t.main == s.main
  {
    hide BatchKey, LocOf, LocsOf;
  }

  /** Claims and reports change states of jobs only. */
  lemma RekeysNothing(f: Farm, s: State, ev: Event)
    requires Enabled(f, s, ev) && (ev.Claim? || ev.Report?)
    ensures var t := Step(f, s, ev);
            && t.choir.Keys == s.choir.Keys && (forall id | id in s.choir :: t.choir[id].key == s.choir[id].key)
            && t.jobMap == s.jobMap && t.nextId == s.nextId && t.main == s.main
  {
    hide Enabled, Step;
    match ev
    case Claim(e, ids) => ClaimRekeysNothing(f, s, e, ids);
    case Report(e) => ReportRekeysNothing(f, s, e);
  }

  lemma RemoveKeepsTracked(f: Farm, s: State)
    requires Tracked(s) && Enabled(f, s, Remove)
    ensures Tracked(Step(f, s, Remove))
  {
    hide LocOf;
  }

  lemma RetainKeepsTracked(f: Farm, s: State)
    requires Tracked(s) && Enabled(f, s, Retain)
    ensures Tracked(Step(f, s, Retain))
  {
    hide LocOf;
  }

  lemma SubmitKeepsTracked(f: Farm, s: State)
    requires Tracked(s) && Enabled(f, s, Submit)
    ensures Tracked(Step(f, s, Submit))
  {
    hide LocOf;
  }

  lemma StepKeepsTracked(f: Farm, s: State, ev: Event)
    requires Tracked(s) && Enabled(f, s, ev)
    ensures Tracked(Step(f, s, ev))
  {
    hide Step, Enabled;
    match ev
    case Remove => RemoveKeepsTracked(f, s);
    case Retain => RetainKeepsTracked(f, s);
    case Submit => SubmitKeepsTracked(f, s);
    case Claim(_, _) => RekeysNothing(f, s, ev);
    case Report(_) => RekeysNothing(f, s, ev);
    case _ => QuietStep(f, s, ev);
  }

  function ReportedOf(x: Executor): nat {
    if x.Reporting? then x.reported else 0
  }

  /** Job i of the batch of executor e is in the choir, taken by e. */
  predicate Holds(s: State, e: nat, i: nat)
    requires e < |s.execs| && !s.execs[e].Free? && i < |s.execs[e].batch|
  {
    var c := s.execs[e].batch[i];
    c.id in s.choir && s.choir[c.id] == ChoirJob(c.key, Taken(e))
  }

  ghost predicate Held(s: State) {
    forall e | 0 <= e < |s.execs| && !s.execs[e].Free? ::
      && (forall i | ReportedOf(s.execs[e]) <= i < |s.execs[e].batch| :: Holds(s, e, i))
      && forall i, j | 0 <= i < j < |s.execs[e].batch| :: s.execs[e].batch[i].id != s.execs[e].batch[j].id
  }

  lemma QuietKeepsHeld(f: Farm, s: State, ev: Event)
    requires Held(s) && Enabled(f, s, ev) && !TouchesChoir(ev)
    ensures Held(Step(f, s, ev))
  {
    QuietStep(f, s, ev);
    hide CanDecide, LocsOf, LocOf, Pendings;
    var t := Step(f, s, ev);
    forall e, i | 0 <= e < |t.execs| && !t.execs[e].Free? && ReportedOf(t.execs[e]) <= i < |t.execs[e].batch|
      ensures Holds(t, e, i)
    {
      assert !s.execs[e].Free? && s.execs[e].batch == t.execs[e].batch;
      assert Holds(s, e, i);
    }
  }

  lemma MainKeepsHeld(f: Farm, s: State, ev: Event)
    requires Held(s) && Tracked(s) && Enabled(f, s, ev) && (ev.Remove? || ev.Retain? || ev.Submit?)
    ensures Held(Step(f, s, ev))
  {
    var t := Step(f, s, ev);
    forall e, i | 0 <= e < |t.execs| && !t.execs[e].Free? && ReportedOf(t.execs[e]) <= i < |t.execs[e].batch|
      ensures Holds(t, e, i)
    {
      assert Holds(s, e, i);
    }
  }

  lemma ClaimKeepsHeld(f: Farm, s: State, ev: Event)
    requires Held(s) && Enabled(f, s, ev) && ev.Claim?
    ensures Held(Step(f, s, ev))
  {
    hide BatchKey;
    var t := Step(f, s, ev);
    forall e, i | 0 <= e < |t.execs| && !t.execs[e].Free? && ReportedOf(t.execs[e]) <= i < |t.execs[e].batch|
      ensures Holds(t, e, i)
    {
      if e != ev.e {
        assert Holds(s, e, i);
      } else {
        assert ev.ids[i] in ev.ids;
      }
    }
  }

  lemma ReportKeepsHeld(f: Farm, s: State, ev: Event)
    requires Held(s) && Enabled(f, s, ev) && ev.Report?
    ensures Held(Step(f, s, ev))
  {
    var t := Step(f, s, ev);
    var x := s.execs[ev.e];
    assert x.reported < |x.batch| ==> Holds(s, ev.e, x.reported);
    forall e, i | 0 <= e < |t.execs| && !t.execs[e].Free? && ReportedOf(t.execs[e]) <= i < |t.execs[e].batch|
      ensures Holds(t, e, i)
    {
      assert Holds(s, e, i);
    }
  }

  lemma StepKeepsHeld(f: Farm, s: State, ev: Event)
    requires Held(s) && Tracked(s) && Enabled(f, s, ev)
    ensures Held(Step(f, s, ev))
  {
    hide Held, Tracked;
    if !TouchesChoir(ev) {
      QuietKeepsHeld(f, s, ev);
    } else if ev.Claim? {
      ClaimKeepsHeld(f, s, ev);
    } else if ev.Report? {
      ReportKeepsHeld(f, s, ev);
    } else {
      MainKeepsHeld(f, s, ev);
    }
  }

  ghost predicate InUniverse(f: Farm, s: State) {
    && (forall id | id in s.choir :: IsLeader(f, s.choir[id].key))
    && (s.main.Submitting? ==> forall i | 0 <= i < |s.main.todo| :: IsLeader(f, s.main.todo[i]))
  }

  lemma StepKeepsUniverse(f: Farm, s: State, ev: Event)
    requires InUniverse(f, s) && Enabled(f, s, ev)
    ensures InUniverse(f, Step(f, s, ev))
  {
    hide LocOf, LocsOf, IsLeader, Chosen, CanDecide, CanClaim, BatchKey, AfterTurn, Pendings, Record, Changes;
    if ev.Decide? {
      ChosenAre(f, ev.cfg, s.main.read, s.main.seen);
    } else if Writes(ev) {
      WriteIs(f, s, ev);
    }
  }

  // --- the backlog ---

  function Room(f: Farm, s: State): int {
    match s.main
    case Draining => f.window + f.window / 4
    case Submitting(_, _, todo) => f.window + f.window / 4 - |todo|
    case _ => f.window / 4
  }

  lemma PendingsShrink(f: Farm, s: State, ev: Event)
    requires Tracked(s) && Enabled(f, s, ev)
    ensures Pendings(Step(f, s, ev)) <= Pendings(s) + if ev.Submit? then {s.nextId} else {}
    ensures ev.Submit? && s.main.todo[0] in s.jobMap ==> Pendings(Step(f, s, ev)) == Pendings(s)
  {
    hide BatchKey, CanDecide, AfterTurn, LocsOf, LocOf;
    if !TouchesChoir(ev) {
      QuietStep(f, s, ev);
    }
  }

  lemma RoomMoves(f: Farm, s: State, ev: Event)
    requires Enabled(f, s, ev)
    ensures Room(f, Step(f, s, ev)) >=
            if ev.Drained? then |Pendings(s)| else if ev.Submit? then Room(f, s) + 1 else Room(f, s)
  {
    hide Pendings, CanClaim, LocsOf, Take, LocOf, AfterTurn, BatchKey, Chosen, CanDecide, Record, Changes;
    if ev.Decide? {
      ChosenAre(f, ev.cfg, s.main.read, s.main.seen);
    } else if Writes(ev) {
      WriteIs(f, s, ev);
    }
  }

  lemma StepKeepsRoom(f: Farm, s: State, ev: Event)
    requires |Pendings(s)| <= Room(f, s) && Tracked(s) && Enabled(f, s, ev)
    ensures |Pendings(Step(f, s, ev))| <= Room(f, Step(f, s, ev))
  {
    hide *;
    RoomMoves(f, s, ev);
    PendingsShrink(f, s, ev);
    SubsetSize(Pendings(Step(f, s, ev)), Pendings(s) + if ev.Submit? then {s.nextId} else {});
  }

  lemma {:induction false} SubsetSize(a: set<nat>, b: set<nat>)
    requires a <= b
    ensures |a| <= |b|
    decreases a
  {
    if a != {} {
      var x :| x in a;
      SubsetSize(a - {x}, b - {x});
    }
  }

  // --- the store ---

  /** The places of the jobs an executor has not reported yet. */
  function HeldLocs(x: Executor): set<Loc>
    requires !x.Free?
  {
    set i | ReportedOf(x) <= i < |x.batch| :: LocOf(x.batch[i].key)
  }

  predicate IsStuck(store: map<Loc, TestStatus>, l: Loc) {
    StatusAt(store, l) == Some(Inprogress)
  }

  /** What the store holds at the places of an executor's batch. */
  predicate ExecOk(store: map<Loc, TestStatus>, x: Executor) {
    match x
    case Free => true
    case Marking(b) => forall l | l in LocsOf(b) :: JobWanted(StatusAt(store, l))
    case Running(b, remaining, _) =>
      && remaining <= LocsOf(b)
      && (forall l | l in LocsOf(b) :: l in store && (IsStuck(store, l) <==> l in remaining))
    case Sweeping(b, checked, stuck) =>
      && stuck <= LocsOf(b) && (forall l | l in stuck :: IsStuck(store, l))
      && forall i | 0 <= i < |b| && i < checked && IsStuck(store, LocOf(b[i].key)) :: LocOf(b[i].key) in stuck
    case Reporting(_, _) => forall l | l in HeldLocs(x) :: !IsStuck(store, l)
  }

  ghost predicate ExecsOk(s: State) {
    forall e | 0 <= e < |s.execs| :: ExecOk(s.store, s.execs[e])
  }

  /** A job waiting in the choir is still wanted. */
  ghost predicate PendingWanted(s: State) {
    forall id | id in s.choir && s.choir[id].state.Pending? :: JobWanted(StatusAt(s.store, LocOf(s.choir[id].key)))
  }

  /** What was read of a commit is still so for every job not in the choir. */
  ghost predicate SeenCurrent(f: Farm, s: State) {
    s.main.Reading? || s.main.Submitting? ==>
      && (forall l | l in s.main.seen :: l.0 in s.main.read)
      && forall k | IsLeader(f, k) && k.commit in s.main.read && k !in s.jobMap ::
           StatusAt(s.main.seen, LocOf(k)) == StatusAt(s.store, LocOf(k))
  }

  ghost predicate TodoWanted(s: State) {
    s.main.Submitting? ==> forall i | 0 <= i < |s.main.todo| ::
      s.main.todo[i].commit in s.main.read && JobWanted(StatusAt(s.main.seen, LocOf(s.main.todo[i])))
  }

  /** Who holds what. */
  ghost predicate Shape(f: Farm, s: State) {
    Tracked(s) && Held(s) && InUniverse(f, s)
  }

  ghost predicate Inv(f: Farm, s: State) {
    && Shape(f, s)
    && ExecsOk(s) && PendingWanted(s)
    && SeenCurrent(f, s) && TodoWanted(s)
  }

  /** A job that is not this held one files elsewhere. */
  lemma HeldApart(f: Farm, s: State, e: nat, i: nat, k: JobKey)
    requires OneLeader(f) && Tracked(s) && InUniverse(f, s)
    requires e < |s.execs| && !s.execs[e].Free? && i < |s.execs[e].batch| && Holds(s, e, i)
    requires IsLeader(f, k) && (k in s.jobMap ==> s.jobMap[k] != s.execs[e].batch[i].id)
    ensures LocOf(k) != LocOf(s.execs[e].batch[i].key)
  {
  }

  lemma BatchApart(f: Farm, s: State, e: nat, k: JobKey)
    requires OneLeader(f) && Shape(f, s)
    requires e < |s.execs| && !s.execs[e].Free?
    requires IsLeader(f, k)
    requires k in s.jobMap ==> s.jobMap[k] in s.choir && s.choir[s.jobMap[k]].state != Taken(e)
    ensures LocOf(k) !in HeldLocs(s.execs[e])
  {
    hide LocOf;
    var x := s.execs[e];
    forall i | ReportedOf(x) <= i < |x.batch|
      ensures LocOf(k) != LocOf(x.batch[i].key)
    {
      assert Holds(s, e, i);
      HeldApart(f, s, e, i, k);
    }
  }

  lemma ExecutorsApart(f: Farm, s: State, e: nat, d: nat)
    requires OneLeader(f) && Shape(f, s)
    requires e < |s.execs| && !s.execs[e].Free? && d < |s.execs| && !s.execs[d].Free? && d != e
    ensures HeldLocs(s.execs[e]) !! HeldLocs(s.execs[d])
  {
    hide LocOf;
    var x := s.execs[d];
    forall i | ReportedOf(x) <= i < |x.batch|
      ensures LocOf(x.batch[i].key) !in HeldLocs(s.execs[e])
    {
      assert Holds(s, d, i);
      BatchApart(f, s, e, x.batch[i].key);
    }
  }

  predicate SameAt(a: map<Loc, TestStatus>, b: map<Loc, TestStatus>, l: Loc) {
    StatusAt(a, l) == StatusAt(b, l)
  }

  lemma ExecOkFrame(a: map<Loc, TestStatus>, b: map<Loc, TestStatus>, x: Executor)
    requires ExecOk(a, x) && (!x.Free? ==> forall l | l in HeldLocs(x) :: SameAt(a, b, l))
    ensures ExecOk(b, x)
  {
    hide LocOf;
    if !x.Free? && !x.Reporting? {
      assert HeldLocs(x) == LocsOf(x.batch);
      assert forall i | 0 <= i < |x.batch| :: LocOf(x.batch[i].key) in LocsOf(x.batch);
      assert forall l | l in LocsOf(x.batch) :: SameAt(a, b, l);
    }
  }

  /** Executor e wrote to the places of its batch and nowhere else. */
  ghost predicate WroteOwn(s: State, t: State, e: nat)
    requires e < |s.execs| && !s.execs[e].Free?
  {
    && t.choir == s.choir && t.jobMap == s.jobMap && t.main == s.main
    && |t.execs| == |s.execs| && (forall d | 0 <= d < |s.execs| && d != e :: t.execs[d] == s.execs[d])
    && forall l | l !in HeldLocs(s.execs[e]) :: SameAt(s.store, t.store, l)
  }

  /** A write to one's own batch disturbs nobody. */
  lemma OwnWriteKeeps(f: Farm, s: State, t: State, e: nat)
    requires OneLeader(f) && Inv(f, s) && e < |s.execs| && !s.execs[e].Free? && WroteOwn(s, t, e)
    ensures forall d | 0 <= d < |s.execs| && d != e :: ExecOk(t.store, t.execs[d])
    ensures PendingWanted(t) && SeenCurrent(f, t) && TodoWanted(t)
  {
    hide LocOf, ExecOk, HeldLocs;
    forall d | 0 <= d < |s.execs| && d != e
      ensures ExecOk(t.store, t.execs[d])
    {
      if !s.execs[d].Free? {
        ExecutorsApart(f, s, e, d);
        assert forall l | l in HeldLocs(s.execs[d]) :: l !in HeldLocs(s.execs[e]);
      }
      ExecOkFrame(s.store, t.store, s.execs[d]);
    }
    forall id | id in s.choir && s.choir[id].state.Pending?
      ensures SameAt(s.store, t.store, LocOf(s.choir[id].key))
    {
      BatchApart(f, s, e, s.choir[id].key);
    }
    if s.main.Reading? || s.main.Submitting? {
      forall k | IsLeader(f, k) && k.commit in s.main.read && k !in s.jobMap
        ensures SameAt(s.store, t.store, LocOf(k))
      {
        BatchApart(f, s, e, k);
      }
    }
  }

  predicate Writes(ev: Event) {
    ev.Mark? || ev.Turn? || ev.SweepWrite?
  }

  lemma WriteIsOwn(f: Farm, s: State, ev: Event)
    requires Inv(f, s) && Enabled(f, s, ev) && Writes(ev)
    ensures WroteOwn(s, Step(f, s, ev), ev.e)
  {
    hide LocOf, AfterTurn, Step, Rewritten, CommitsOf;
    WriteIs(f, s, ev);
    assert ExecOk(s.store, s.execs[ev.e]);
    assert HeldLocs(s.execs[ev.e]) == LocsOf(s.execs[ev.e].batch);
  }

  lemma MarkKeepsOwn(store: map<Loc, TestStatus>, batch: seq<Claimed>)
    ensures ExecOk(store + map l | l in LocsOf(batch) :: Inprogress, Running(batch, LocsOf(batch), false))
  {
    hide LocOf, LocsOf;
  }

  /** What the next turn starts from: the places still in progress. */
  lemma TurnKeepsOwn(store: map<Loc, TestStatus>, x: Executor, onDisk: map<Loc, TestStatus>)
    requires x.Running? && ExecOk(store, x)
    ensures ExecOk(store + map l | l in x.remaining :: ReadBack(onDisk, l), AfterTurn(x, onDisk))
  {
    hide LocOf;
    var t := store + map l | l in x.remaining :: ReadBack(onDisk, l);
    var next := set l | l in x.remaining && ReadBack(onDisk, l) == Inprogress;
    forall l | l in LocsOf(x.batch)
      ensures l in t && (IsStuck(t, l) <==> l in next)
    {
      assert l !in x.remaining ==> SameAt(store, t, l);
    }
    assert HeldLocs(Reporting(x.batch, 0)) == LocsOf(x.batch);
  }

  lemma SweepKeepsOwn(store: map<Loc, TestStatus>, x: Executor)
    requires x.Sweeping? && x.checked >= |x.batch| && ExecOk(store, x)
    ensures ExecOk(store + map l | l in x.stuck :: FailedToRun, Reporting(x.batch, 0))
  {
    hide LocOf;
    var y := Reporting(x.batch, 0);
    var t := store + map l | l in x.stuck :: FailedToRun;
    forall l | l in HeldLocs(y)
      ensures !IsStuck(t, l)
    {
      var i :| 0 <= i < |x.batch| && LocOf(x.batch[i].key) == l;
      assert l !in x.stuck ==> SameAt(store, t, l);
    }
  }

  /** A writing step is its changes and the executor's move. */
  lemma WriteIs(f: Farm, s: State, ev: Event)
    requires Enabled(f, s, ev) && Writes(ev)
    ensures var t := Step(f, s, ev);
            && t.store == s.store + Changes(s, ev)
            && t.disk == (if ev.writes then Rewritten(s.disk, t.store, CommitsOf(Changes(s, ev))) else s.disk)
            && t.choir == s.choir && t.jobMap == s.jobMap && t.main == s.main && |t.execs| == |s.execs|
            && (forall d | 0 <= d < |s.execs| && d != ev.e :: t.execs[d] == s.execs[d])
            && t.execs[ev.e] == (match ev
                                 case Mark(e, _) => Running(s.execs[e].batch, LocsOf(s.execs[e].batch), false)
                                 case Turn(e, onDisk, _) => AfterTurn(s.execs[e], onDisk)
                                 case SweepWrite(e, _) => Reporting(s.execs[e].batch, 0)
                                 case _ => Free)
  {
    hide LocOf, LocsOf, CanDecide, CanClaim, AfterTurn, Pendings, Take, Changes, Rewritten, CommitsOf;
  }

  /** After its write the executor's own batch is as its next step expects. */
  lemma WriteKeepsOwn(f: Farm, s: State, ev: Event)
    requires ExecsOk(s) && Enabled(f, s, ev) && Writes(ev)
    ensures ExecOk(Step(f, s, ev).store, Step(f, s, ev).execs[ev.e])
  {
    hide LocOf, LocsOf, ExecOk, CanDecide, CanClaim, AfterTurn, HeldLocs, Pendings, Take, Rewritten, CommitsOf, Step;
    var x := s.execs[ev.e];
    assert ExecOk(s.store, x);
    WriteIs(f, s, ev);
    match ev
    case Mark(e, _) => MarkKeepsOwn(s.store, x.batch);
    case Turn(e, onDisk, _) => TurnKeepsOwn(s.store, x, onDisk);
    case SweepWrite(e, _) => SweepKeepsOwn(s.store, x);
  }

  lemma WriteKeepsInv(f: Farm, s: State, ev: Event)
    requires OneLeader(f) && Inv(f, s) && Enabled(f, s, ev) && Writes(ev) && Shape(f, Step(f, s, ev))
    ensures Inv(f, Step(f, s, ev))
  {
    WriteIsOwn(f, s, ev);
    WriteKeepsOwn(f, s, ev);
    OwnWriteKeeps(f, s, Step(f, s, ev), ev.e);
  }

  /** Claim, NotConfigured, StepFails, SweepCheck and Report do not touch the store. */
  predicate MovesExecutor(ev: Event) {
    ev.Claim? || ev.NotConfigured? || ev.StepFails? || ev.SweepCheck? || ev.Report?
  }

  lemma MoveKeepsOwn(f: Farm, s: State, ev: Event)
    requires Inv(f, s) && Enabled(f, s, ev) && MovesExecutor(ev)
    ensures ExecOk(s.store, Step(f, s, ev).execs[ev.e])
  {
    hide LocOf, Shape, CanDecide, BatchKey, SeenCurrent, TodoWanted;
    var x, t := s.execs[ev.e], Step(f, s, ev);
    assert ExecOk(s.store, x);
    if ev.Claim? {
      var y := t.execs[ev.e];
      forall l | l in LocsOf(y.batch)
        ensures JobWanted(StatusAt(s.store, l))
      {
        var i :| 0 <= i < |y.batch| && LocOf(y.batch[i].key) == l;
        assert s.choir[ev.ids[i]].state.Pending?;
      }
    } else if ev.Report? && x.reported < |x.batch| {
      assert HeldLocs(t.execs[ev.e]) <= HeldLocs(x);
    } else if ev.SweepCheck? {
      assert LocOf(x.batch[x.checked].key) in LocsOf(x.batch);
    }
  }

  lemma MoveKeepsInv(f: Farm, s: State, ev: Event)
    requires Inv(f, s) && Enabled(f, s, ev) && MovesExecutor(ev) && Shape(f, Step(f, s, ev))
    ensures Inv(f, Step(f, s, ev))
  {
    MoveKeepsOwn(f, s, ev);
    MoveFrame(f, s, ev);
    hide LocOf, Shape, CanDecide, CanClaim, ExecOk, SeenCurrent, TodoWanted, LocsOf;
  }

  lemma MoveFrame(f: Farm, s: State, ev: Event)
    requires Inv(f, s) && Enabled(f, s, ev) && MovesExecutor(ev)
    ensures var t := Step(f, s, ev);
            && t.store == s.store && t.main == s.main && t.jobMap == s.jobMap && |t.execs| == |s.execs|
            && (forall d | 0 <= d < |s.execs| && d != ev.e :: t.execs[d] == s.execs[d])
            && PendingWanted(t) && SeenCurrent(f, t) && TodoWanted(t)
  {
    hide LocOf, CanDecide, BatchKey, ExecOk, IsLeader, Chosen, Record, Changes, ExecsOk;
    if ev.Claim? || ev.Report? {
      RekeysNothing(f, s, ev);
    }
  }

  predicate MovesMain(ev: Event) {
    ev.Remove? || ev.Retain? || ev.Read? || ev.Decide? || ev.Submit? || ev.FinishRefill? || ev.Drained?
  }

  lemma MainKeepsPendingWanted(f: Farm, s: State, ev: Event)
    requires Inv(f, s) && Enabled(f, s, ev) && MovesMain(ev)
    ensures PendingWanted(Step(f, s, ev))
  {
    hide LocOf, CanClaim, BatchKey, ExecOk, LocsOf, Held, CanDecide, IsLeader, Chosen, Record, Changes, ExecsOk;
    var t := Step(f, s, ev);
    forall id | id in t.choir && t.choir[id].state.Pending?
      ensures JobWanted(StatusAt(t.store, LocOf(t.choir[id].key)))
    {
      if id in s.choir {
        assert t.choir[id] == s.choir[id];
      } else {
        var k := s.main.todo[0];
        assert t.choir[id].key == k && IsLeader(f, k) && k !in s.jobMap;
      }
    }
  }

  lemma MainFrame(f: Farm, s: State, ev: Event)
    requires Enabled(f, s, ev) && MovesMain(ev)
    ensures Step(f, s, ev).store == s.store && Step(f, s, ev).execs == s.execs
  {
    hide LocOf, CanClaim, BatchKey, LocsOf, CanDecide, Pendings;
  }

  lemma MainKeepsInv(f: Farm, s: State, ev: Event)
    requires Inv(f, s) && Enabled(f, s, ev) && MovesMain(ev) && Shape(f, Step(f, s, ev))
    ensures Inv(f, Step(f, s, ev))
  {
    hide Step, Enabled, ExecOk, Shape, PendingWanted, SeenCurrent, TodoWanted;
    MainFrame(f, s, ev);
    MainKeepsSeen(f, s, ev);
    MainKeepsPendingWanted(f, s, ev);
  }

  lemma MainKeepsSeen(f: Farm, s: State, ev: Event)
    requires Inv(f, s) && Enabled(f, s, ev) && MovesMain(ev)
    ensures SeenCurrent(f, Step(f, s, ev)) && TodoWanted(Step(f, s, ev))
  {
    hide LocOf, CanClaim, BatchKey, ExecOk, LocsOf, Shape, Chosen, CanDecide, IsLeader, Record, Changes;
    var t := Step(f, s, ev);
    if ev.Decide? {
      ChosenAre(f, ev.cfg, s.main.read, s.main.seen);
    }
    if ev.Read? {
      forall k | IsLeader(f, k) && k.commit in t.main.read && k !in t.jobMap
        ensures StatusAt(t.main.seen, LocOf(k)) == StatusAt(t.store, LocOf(k))
      {
        SeenAfterRead(s.store, s.main.seen, ev.commit, k);
      }
    }
  }

  lemma SeenAfterRead(store: map<Loc, TestStatus>, seen: map<Loc, TestStatus>, commit: string, k: JobKey)
    requires forall l | l in seen :: l.0 != commit
    requires k.commit != commit ==> SameAt(seen, store, LocOf(k))
    ensures SameAt(seen + map l | l in store && l.0 == commit :: store[l], store, LocOf(k))
  {
  }

  lemma StepKeepsInv(f: Farm, s: State, ev: Event)
    requires OneLeader(f) && Inv(f, s) && Enabled(f, s, ev)
    ensures Inv(f, Step(f, s, ev))
  {
    StepKeepsTracked(f, s, ev);
    StepKeepsHeld(f, s, ev);
    StepKeepsUniverse(f, s, ev);
    hide Inv, Tracked, Held, InUniverse;
    if Writes(ev) {
      WriteKeepsInv(f, s, ev);
    } else if MovesExecutor(ev) {
      MoveKeepsInv(f, s, ev);
    } else {
      MainKeepsInv(f, s, ev);
    }
  }
}
