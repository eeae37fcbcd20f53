/** What holds in every run of the daemon, whatever the interleaving. */
module DaemonRuns {
  import opened Text
  import opened Status
  import opened Jobs
  import opened Daemon
  import opened DaemonSafety
  import opened Leaders

  /** A run of a daemon with n executors from its start. */
  ghost predicate IsRun(f: Farm, n: nat, s: State, events: seq<Event>) {
    Init(s, n) && Exec(f, s, events).Some?
  }

  // --- no duplicate jobs, a bounded backlog ---

  ghost predicate Counted(f: Farm, s: State) {
    Tracked(s) && |Pendings(s)| <= Room(f, s)
  }

  lemma StepKeepsCounted(f: Farm, s: State, ev: Event)
    requires Counted(f, s) && Enabled(f, s, ev)
    ensures Counted(f, Step(f, s, ev))
  {
    StepKeepsTracked(f, s, ev);
    StepKeepsRoom(f, s, ev);
  }

  lemma {:induction false} ExecKeepsCounted(f: Farm, s: State, events: seq<Event>)
    requires Counted(f, s) && Exec(f, s, events).Some?
    ensures Counted(f, Exec(f, s, events).value)
    decreases |events|
  {
    hide Counted, Enabled, Step;
    if events != [] {
      StepKeepsCounted(f, s, events[0]);
      ExecKeepsCounted(f, Step(f, s, events[0]), events[1..]);
    }
  }

  lemma RunCounted(f: Farm, n: nat, s: State, events: seq<Event>)
    requires IsRun(f, n, s, events)
    ensures Counted(f, Exec(f, s, events).value)
  {
    assert Pendings(s) == {};
    ExecKeepsCounted(f, s, events);
  }

  /** At most one existing job per key, whatever the key's places. */
  lemma OneJobPerKey(f: Farm, n: nat, s: State, events: seq<Event>)
    requires IsRun(f, n, s, events)
    ensures var t := Exec(f, s, events).value;
            && (forall i, j | i in t.choir && j in t.choir && t.choir[i].key == t.choir[j].key :: i == j)
            && (forall id | id in t.choir :: t.choir[id].key in t.jobMap && t.jobMap[t.choir[id].key] == id)
            && (!t.main.Removed? ==>
                  forall k | k in t.jobMap :: t.jobMap[k] in t.choir && t.choir[t.jobMap[k]].key == k)
  {
    RunCounted(f, n, s, events);
  }

  lemma PendingsAre(s: State)
    ensures Pendings(s) == set id | id in s.choir && s.choir[id].state == Pending
  {
  }

  lemma BacklogBounded(f: Farm, n: nat, s: State, events: seq<Event>)
    requires IsRun(f, n, s, events)
    ensures var choir := Exec(f, s, events).value.choir;
            |set id | id in choir && choir[id].state == Pending| <= f.window + f.window / 4
  {
    RunCounted(f, n, s, events);
    var choir := Exec(f, s, events).value.choir;
    PendingsAre(Exec(f, s, events).value);
  }

  // --- nothing is left in progress ---

  /** The executor still has to write a result at l. */
  predicate Tends(x: Executor, l: Loc) {
    match x
    case Running(_, remaining, _) => l in remaining
    case Sweeping(b, checked, stuck) => l in stuck || exists i | 0 <= i < |b| :: checked <= i && LocOf(b[i].key) == l
    case _ => false
  }

  predicate Within(x: Executor) {
    x.Running? ==> x.remaining <= LocsOf(x.batch)
  }

  ghost predicate TendedAt(s: State, l: Loc) {
    exists e | 0 <= e < |s.execs| :: Tends(s.execs[e], l)
  }

  ghost predicate Tended(s: State) {
    && (forall e | 0 <= e < |s.execs| :: Within(s.execs[e]))
    && forall l | IsStuck(s.store, l) :: TendedAt(s, l)
  }

  predicate MovesNobody(ev: Event) {
    MovesMain(ev) || ev.Claim? || ev.Report?
  }

  lemma QuietKeepsTended(f: Farm, s: State, ev: Event)
    requires Tended(s) && Enabled(f, s, ev) && MovesNobody(ev)
    ensures Tended(Step(f, s, ev))
  {
    hide LocOf, LocsOf, CanDecide, CanClaim, Pendings, Take, BatchKey;
    var t := Step(f, s, ev);
    forall l | IsStuck(t.store, l)
      ensures TendedAt(t, l)
    {
      assert TendedAt(s, l);
      var e :| 0 <= e < |s.execs| && Tends(s.execs[e], l);
      assert Tends(t.execs[e], l);
    }
  }

  lemma TurnTends(store: map<Loc, TestStatus>, x: Executor, onDisk: map<Loc, TestStatus>, l: Loc)
    requires x.Running? && Within(x)
    ensures var t := store + map m | m in x.remaining :: ReadBack(onDisk, m);
            && Within(AfterTurn(x, onDisk))
            && (IsStuck(t, l) && (l in x.remaining || !IsStuck(store, l)) ==> Tends(AfterTurn(x, onDisk), l))
  {
    hide LocOf;
    var t := store + map m | m in x.remaining :: ReadBack(onDisk, m);
    var next := set m | m in x.remaining && ReadBack(onDisk, m) == Inprogress;
    if IsStuck(t, l) && (l in x.remaining || !IsStuck(store, l)) {
      assert l !in x.remaining ==> SameAt(store, t, l);
      assert l in next && l in LocsOf(x.batch);
      var i :| 0 <= i < |x.batch| && LocOf(x.batch[i].key) == l;
    }
  }

  lemma SweepTends(f: Farm, s: State, e: nat, l: Loc)
    requires Enabled(f, s, SweepCheck(e))
    ensures IsStuck(s.store, l) && Tends(s.execs[e], l) ==> Tends(Step(f, s, SweepCheck(e)).execs[e], l)
  {
    hide LocOf, CanDecide, CanClaim, Pendings, Take, BatchKey;
    var x := s.execs[e];
    if IsStuck(s.store, l) && Tends(x, l) && l !in x.stuck {
      var i :| 0 <= i < |x.batch| && x.checked <= i && LocOf(x.batch[i].key) == l;
      assert i == x.checked || x.checked + 1 <= i;
    }
  }

  /** A place an executor lets go of is no longer in progress, and a place it puts
      in progress it tends. */
  lemma OwnStepTends(f: Farm, s: State, ev: Event, l: Loc)
    requires Enabled(f, s, ev) && !MovesNobody(ev) && Within(s.execs[ev.e])
    ensures var t := Step(f, s, ev);
            && Within(t.execs[ev.e])
            && (IsStuck(t.store, l) && (Tends(s.execs[ev.e], l) || !IsStuck(s.store, l)) ==> Tends(t.execs[ev.e], l))
  {
    hide LocOf, CanDecide, CanClaim, Pendings, Take, BatchKey, AfterTurn, Rewritten, CommitsOf;
    if Writes(ev) {
      WriteIs(f, s, ev);
    }
    var x := s.execs[ev.e];
    match ev
    case Turn(e, onDisk, _) => TurnTends(s.store, x, onDisk, l);
    case SweepCheck(e) => SweepTends(f, s, e, l);
    case StepFails(e) =>
      if l in x.remaining {
        var i :| 0 <= i < |x.batch| && LocOf(x.batch[i].key) == l;
      }
    case _ =>
  }

  lemma WorkKeepsTended(f: Farm, s: State, ev: Event)
    requires Tended(s) && Enabled(f, s, ev) && !MovesNobody(ev)
    ensures Tended(Step(f, s, ev))
  {
    hide LocOf, LocsOf, CanDecide, CanClaim, Pendings, Take, BatchKey, Tends, Within, AfterTurn, IsStuck;
    var t := Step(f, s, ev);
    OwnStepTends(f, s, ev, ("", ""));
    forall l | IsStuck(t.store, l)
      ensures TendedAt(t, l)
    {
      OwnStepTends(f, s, ev, l);
      if IsStuck(s.store, l) && !Tends(s.execs[ev.e], l) {
        assert TendedAt(s, l);
        var e :| 0 <= e < |s.execs| && Tends(s.execs[e], l);
        assert t.execs[e] == s.execs[e];
      }
    }
  }

  lemma {:induction false} ExecKeepsTended(f: Farm, s: State, events: seq<Event>)
    requires Tended(s) && Exec(f, s, events).Some?
    ensures Tended(Exec(f, s, events).value)
    decreases |events|
  {
    hide Tended, Enabled, Step;
    if events != [] {
      if MovesNobody(events[0]) {
        QuietKeepsTended(f, s, events[0]);
      } else {
        WorkKeepsTended(f, s, events[0]);
      }
      ExecKeepsTended(f, Step(f, s, events[0]), events[1..]);
    }
  }

  /** Whatever is in progress, some executor will still write. So when no
      executor runs a VM or sweeps, nothing is in progress. */
  lemma NothingStuck(f: Farm, n: nat, s: State, events: seq<Event>)
    requires IsRun(f, n, s, events)
    ensures var t := Exec(f, s, events).value;
            && (forall l | IsStuck(t.store, l) :: TendedAt(t, l))
            && ((forall e | 0 <= e < |t.execs| :: !t.execs[e].Running? && !t.execs[e].Sweeping?)
                ==> forall l | l in t.store :: t.store[l] != Inprogress)
  {
    ExecKeepsTended(f, s, events);
    var t := Exec(f, s, events).value;
    if forall e | 0 <= e < |t.execs| :: !t.execs[e].Running? && !t.execs[e].Sweeping? {
      forall l | l in t.store
        ensures t.store[l] != Inprogress
      {
        assert IsStuck(t.store, l) ==> TendedAt(t, l);
      }
    }
  }

  // --- verdicts are final ---

  predicate Stands(before: State, after: State, l: Loc) {
    l in before.store && before.store[l] in {Passed, Failed, Notrun, FailedToRun} ==>
      StatusAt(after.store, l) == Some(before.store[l])
  }

  lemma StepKeepsVerdicts(f: Farm, s: State, ev: Event, l: Loc)
    requires ExecsOk(s) && Enabled(f, s, ev)
    ensures Stands(s, Step(f, s, ev), l)
  {
    hide LocOf, CanDecide, CanClaim, BatchKey, AfterTurn, Pendings, Take;
    if Writes(ev) {
      assert ExecOk(s.store, s.execs[ev.e]);
    }
  }

  lemma InitInv(f: Farm, n: nat, s: State)
    requires Init(s, n)
    ensures Inv(f, s)
  {
  }

  lemma {:induction false} ExecKeepsVerdicts(f: Farm, s: State, events: seq<Event>, l: Loc)
    requires OneLeader(f) && Inv(f, s) && Exec(f, s, events).Some?
    ensures Inv(f, Exec(f, s, events).value) && Stands(s, Exec(f, s, events).value, l)
    decreases |events|
  {
    if events != [] {
      assert Inv(f, Step(f, s, events[0])) && Stands(s, Step(f, s, events[0]), l) by {
        hide Enabled, Step, Stands, ExecsOk, Shape, PendingWanted, SeenCurrent, TodoWanted;
        StepKeepsInv(f, s, events[0]);
        StepKeepsVerdicts(f, s, events[0], l);
      }
      hide Enabled, Step, Inv;
      ExecKeepsVerdicts(f, Step(f, s, events[0]), events[1..], l);
    }
  }

  /** In every run of n executors, a verdict once recorded is never changed. */
  ghost predicate VerdictsStand(f: Farm, n: nat) {
    forall s: State, a: seq<Event>, b: seq<Event>, l: Loc | IsRun(f, n, s, a) && Exec(f, s, a + b).Some? ::
      Stands(Exec(f, s, a).value, Exec(f, s, a + b).value, l)
  }

  lemma VerdictsFinal(f: Farm, n: nat)
    requires OneLeader(f)
    ensures VerdictsStand(f, n)
  {
    forall s: State, a: seq<Event>, b: seq<Event>, l: Loc | IsRun(f, n, s, a) && Exec(f, s, a + b).Some?
      ensures Stands(Exec(f, s, a).value, Exec(f, s, a + b).value, l)
    {
      hide Stands, Inv, OneLeader, Init, LocOf;
      InitInv(f, n, s);
      ExecKeepsVerdicts(f, s, a, l);
      ExecAppend(f, s, a, b);
      ExecKeepsVerdicts(f, Exec(f, s, a).value, b, l);
    }
  }

  /** What the sweep files as failed to run stays so: nobody runs it again. */
  lemma SweptStands(f: Farm, n: nat, s: State, a: seq<Event>, ev: Event, b: seq<Event>, l: Loc)
    requires OneLeader(f) && IsRun(f, n, s, a) && Exec(f, s, a + [ev] + b).Some?
    requires var t := Exec(f, s, a).value; Enabled(f, t, ev) && ev.SweepWrite? && l in t.execs[ev.e].stuck
    ensures StatusAt(Exec(f, s, a + [ev] + b).value.store, l) == Some(FailedToRun)
  {
    var t := Exec(f, s, a).value;
    ExecAppend(f, s, a, [ev]);
    assert Exec(f, t, [ev]) == Some(Step(f, t, ev)) by {
      assert [ev][1..] == [] && Exec(f, Step(f, t, ev), []) == Some(Step(f, t, ev));
    }
    WriteIs(f, t, ev);
    assert StatusAt(Step(f, t, ev).store, l) == Some(FailedToRun);
    hide Enabled, Step, OneLeader, Init, Exec;
    VerdictsFinal(f, n);
    assert Stands(Exec(f, s, a + [ev]).value, Exec(f, s, a + [ev] + b).value, l);
  }

  lemma RunInv(f: Farm, n: nat, s: State, events: seq<Event>)
    requires OneLeader(f) && IsRun(f, n, s, events)
    ensures Inv(f, Exec(f, s, events).value)
  {
    InitInv(f, n, s);
    ExecKeepsVerdicts(f, s, events, ("", ""));
  }

  /** No job is run after its verdict: whatever an executor can claim is wanted. */
  lemma ClaimsAreWanted(f: Farm, n: nat, s: State, events: seq<Event>, e: nat, ids: seq<nat>, i: nat)
    requires OneLeader(f) && IsRun(f, n, s, events)
    requires Enabled(f, Exec(f, s, events).value, Claim(e, ids)) && i < |ids|
    ensures var t := Exec(f, s, events).value;
            ids[i] in t.choir && StatusAt(t.store, LocOf(t.choir[ids[i]].key)) in {None, Some(Unknown)}
  {
    RunInv(f, n, s, events);
    hide LocOf, BatchKey;
    var t := Exec(f, s, events).value;
    assert t.choir[ids[i]].state.Pending?;
  }

  /** A step of another thread neither moves an executor nor writes to its batch. */
  lemma OthersLeave(f: Farm, t: State, ev: Event, e: nat)
    requires OneLeader(f) && Inv(f, t) && Enabled(f, t, ev) && e < |t.execs| && (MovesMain(ev) || ev.e != e)
    ensures var u := Step(f, t, ev);
            && |u.execs| == |t.execs| && u.execs[e] == t.execs[e]
            && (!t.execs[e].Free? ==> forall l | l in HeldLocs(t.execs[e]) :: SameAt(t.store, u.store, l))
  {
    hide LocOf, HeldLocs, CanDecide, CanClaim, Pendings, BatchKey, ExecsOk, PendingWanted, SeenCurrent, TodoWanted,
         Shape;
    if Writes(ev) {
      WriteIsOwn(f, t, ev);
      if !t.execs[e].Free? {
        ExecutorsApart(f, t, ev.e, e);
      }
    } else if MovesExecutor(ev) {
      MoveFrame(f, t, ev);
    } else {
      MainFrame(f, t, ev);
    }
  }

  /** Nobody else writes where an executor's batch files its results: what
      Batch.OthersRun takes for granted. */
  lemma OthersLeaveBatchAlone(f: Farm, n: nat, s: State, events: seq<Event>, ev: Event, e: nat, l: Loc)
    requires OneLeader(f) && IsRun(f, n, s, events)
    requires var t := Exec(f, s, events).value;
             && Enabled(f, t, ev) && e < |t.execs| && !t.execs[e].Free? && l in HeldLocs(t.execs[e])
             && (MovesMain(ev) || ev.e != e)
    ensures var t := Exec(f, s, events).value;
            SameAt(t.store, Step(f, t, ev).store, l)
  {
    RunInv(f, n, s, events);
    OthersLeave(f, Exec(f, s, events).value, ev, e);
  }
}
