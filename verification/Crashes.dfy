/** The daemon dies and starts again: what of the recorded verdicts is still known.
    Memory is gone; the commit files hold what the last rewrite of each that worked
    put there, a rewrite cut short counting as one that failed (SharedStore). */
module Crashes {
  import opened Text
  import opened Status
  import opened Jobs
  import opened Daemon
  import opened DaemonSafety
  import opened DaemonRuns
  import opened Leaders
  import Store

  /** How the next daemon starts: the commits with a directory, whether FailedToRun is
      to be cleared, and the files that can be rewritten while loading. */
  datatype Start = Start(dirs: set<string>, clear: bool, writable: set<string>)

  predicate Loads(c: string, start: Start) {
    c in start.dirs && Store.IsCommitId(c)
  }

  /** What is in memory after loading. */
  function Reload(disk: map<Loc, TestStatus>, start: Start): map<Loc, TestStatus> {
    map l | l in disk && Loads(l.0, start) && !Store.IsStale(disk[l], start.clear) :: disk[l]
  }

  /** What is on disk after loading: stale entries go where the file can be rewritten. */
  function Reloaded(disk: map<Loc, TestStatus>, start: Start): map<Loc, TestStatus> {
    map l | l in disk && !(Loads(l.0, start) && l.0 in start.writable && Store.IsStale(disk[l], start.clear)) :: disk[l]
  }

  /** The files by commit, of which `disk` is the flat view. */
  predicate FlatFiles(files: Store.Disk, disk: map<Loc, TestStatus>) {
    && (forall c, k | c in files && k in files[c] :: (c, k) in disk && disk[(c, k)] == files[c][k].status)
    && forall l: Loc | l in disk :: l.0 in files && l.1 in files[l.0]
  }

  /** Reloading is what the store's loader does with those files. */
  lemma ReloadIsLoad(files: Store.Disk, disk: map<Loc, TestStatus>, start: Start)
    requires FlatFiles(files, disk)
    ensures Flat(Store.Loaded(files, start.dirs, start.clear)) == Reload(disk, start)
  {
    hide Store.IsCommitId, Store.IsStale;
    var mem := Store.Loaded(files, start.dirs, start.clear);
    var flat, loaded := Flat(mem), Reload(disk, start);
    forall l: Loc
      ensures l in flat <==> l in loaded
      ensures l in flat ==> flat[l] == loaded[l]
    {
      if l in loaded {
        assert l == (l.0, l.1) && l.1 in Store.Kept(files[l.0], start.clear);
        assert l.0 in mem && l.1 in mem[l.0];
      }
    }
  }

  function Restarted(s: State, n: nat, start: Start): State {
    State(Reload(s.disk, start), Reloaded(s.disk, start), map[], 0, map[], Starting, seq(n, i => Free))
  }

  lemma RestartIsInit(s: State, n: nat, start: Start)
    ensures Init(Restarted(s, n, start), n)
  {
  }

  // --- what is on disk ---

  predicate OnDisk(s: State, l: Loc, v: TestStatus) {
    StatusAt(s.disk, l) == Some(v)
  }

  /** The places a step records something at. */
  function Recorded(s: State, ev: Event): set<Loc> {
    match ev
    case Mark(e, _) => if e < |s.execs| && s.execs[e].Marking? then LocsOf(s.execs[e].batch) else {}
    case Turn(e, _, _) => if e < |s.execs| && s.execs[e].Running? then s.execs[e].remaining else {}
    case SweepWrite(e, _) => if e < |s.execs| && s.execs[e].Sweeping? then s.execs[e].stuck else {}
    case _ => {}
  }

  /** The step records something of commit c and its write works: the file is rewritten. */
  predicate RewritesNow(s: State, ev: Event, c: string) {
    Writes(ev) && ev.writes && exists l :: l in Recorded(s, ev) && l.0 == c
  }

  lemma RewritesIff(s: State, ev: Event, c: string)
    ensures RewritesNow(s, ev, c) <==> Writes(ev) && ev.writes && c in CommitsOf(Changes(s, ev))
  {
    hide LocsOf;
    assert Changes(s, ev).Keys == Recorded(s, ev);
  }

  /** Some step of the run did. */
  ghost predicate Rewrites(f: Farm, s: State, events: seq<Event>, c: string)
    decreases |events|
  {
    events != [] && Enabled(f, s, events[0])
    && (RewritesNow(s, events[0], c) || Rewrites(f, Step(f, s, events[0]), events[1..], c))
  }

  lemma StepSaves(f: Farm, s: State, ev: Event, l: Loc, v: TestStatus)
    requires Enabled(f, s, ev) && StatusAt(Step(f, s, ev).store, l) == Some(v)
    ensures OnDisk(Step(f, s, ev), l, v) <==> if RewritesNow(s, ev, l.0) then true else OnDisk(s, l, v)
  {
    if Writes(ev) {
      hide Step, Changes, CommitsOf, RewritesNow;
      RewritesIff(s, ev, l.0);
      WriteIs(f, s, ev);
    } else {
      QuietDisk(f, s, ev);
    }
  }

  lemma QuietDisk(f: Farm, s: State, ev: Event)
    requires Enabled(f, s, ev) && !Writes(ev)
    ensures Step(f, s, ev).disk == s.disk
  {
    hide LocOf, CanDecide, CanClaim, Pendings, Take, BatchKey, AfterTurn, Chosen;
  }

  /** A verdict in memory is on disk exactly when it was already there or a rewrite of
      its commit's file has worked since. */
  lemma {:induction false} SavedIff(f: Farm, s: State, events: seq<Event>, l: Loc, v: TestStatus)
    requires OneLeader(f) && Inv(f, s) && Exec(f, s, events).Some?
    requires StatusAt(s.store, l) == Some(v) && v in {Passed, Failed, Notrun, FailedToRun}
    ensures StatusAt(Exec(f, s, events).value.store, l) == Some(v)
    ensures OnDisk(Exec(f, s, events).value, l, v) <==> OnDisk(s, l, v) || Rewrites(f, s, events, l.0)
    decreases |events|
  {
    if events != [] {
      StepKept(f, s, events[0], l);
      StepSaves(f, s, events[0], l, v);
      hide Enabled, Step, Inv, OnDisk, OneLeader, RewritesNow;
      SavedIff(f, Step(f, s, events[0]), events[1..], l, v);
    }
  }

  lemma StepKept(f: Farm, s: State, ev: Event, l: Loc)
    requires OneLeader(f) && Inv(f, s) && Enabled(f, s, ev)
    ensures Inv(f, Step(f, s, ev)) && Stands(s, Step(f, s, ev), l)
  {
    hide Enabled, Step, Stands, ExecsOk, Shape, PendingWanted, SeenCurrent, TodoWanted;
    StepKeepsInv(f, s, ev);
    StepKeepsVerdicts(f, s, ev, l);
  }

  // --- one crash ---

  /** A verdict recorded at some point of a run, and a crash at any later point: the
      next daemon knows it exactly when its commit has a directory and a commit's name,
      it is not of the kind being cleared, and since it was recorded (that very record
      included, if it is on disk) some rewrite of the commit's file worked. */
  lemma CrashKeepsIff(f: Farm, n: nat, s: State, a: seq<Event>, b: seq<Event>, start: Start, l: Loc, v: TestStatus)
    requires OneLeader(f) && IsRun(f, n, s, a) && Exec(f, s, a + b).Some?
    requires StatusAt(Exec(f, s, a).value.store, l) == Some(v) && v in {Passed, Failed, Notrun, FailedToRun}
    ensures StatusAt(Restarted(Exec(f, s, a + b).value, n, start).store, l) == Some(v) <==>
            && Loads(l.0, start) && !(start.clear && v == FailedToRun)
            && (OnDisk(Exec(f, s, a).value, l, v) || Rewrites(f, Exec(f, s, a).value, b, l.0))
  {
    hide Rewrites, OneLeader, Inv, LocOf, Init, Loads;
    ExecAppend(f, s, a, b);
    RunInv(f, n, s, a);
    SavedIff(f, Exec(f, s, a).value, b, l, v);
  }

  // --- any number of crashes ---

  /** Sessions of the daemon, each ended by a crash at any point. */
  ghost function Life(f: Farm, n: nat, s: State, sessions: seq<(seq<Event>, Start)>): Option<State>
    decreases |sessions|
  {
    if sessions == [] then Some(s)
    else
      var end := Exec(f, s, sessions[0].0);
      if end.None? then None else Life(f, n, Restarted(end.value, n, sessions[0].1), sessions[1..])
  }

  /** Every start finds the commit, and clears nothing of the kind. */
  predicate AllLoad(sessions: seq<(seq<Event>, Start)>, c: string, v: TestStatus) {
    forall i | 0 <= i < |sessions| :: Loads(c, sessions[i].1) && !Store.IsStale(v, sessions[i].1.clear)
  }

  lemma {:induction false} LifeKeepsVerdicts(f: Farm, n: nat, s: State, sessions: seq<(seq<Event>, Start)>,
                                             l: Loc, v: TestStatus)
    requires OneLeader(f) && Inv(f, s) && Life(f, n, s, sessions).Some? && AllLoad(sessions, l.0, v)
    requires StatusAt(s.store, l) == Some(v) && v in {Passed, Failed, Notrun, FailedToRun} && OnDisk(s, l, v)
    ensures StatusAt(Life(f, n, s, sessions).value.store, l) == Some(v) && OnDisk(Life(f, n, s, sessions).value, l, v)
    decreases |sessions|
  {
    if sessions != [] {
      hide Inv, OneLeader, LocOf, Loads, Rewrites, Init;
      var (events, start) := sessions[0];
      SavedIff(f, s, events, l, v);
      var t := Exec(f, s, events).value;
      RestartIsInit(t, n, start);
      InitInv(f, n, Restarted(t, n, start));
      assert Loads(l.0, sessions[0].1) && !Store.IsStale(v, sessions[0].1.clear);
      LifeKeepsVerdicts(f, n, Restarted(t, n, start), sessions[1..], l, v);
    }
  }

  /** Once a verdict is on disk no later step, crash or restart that finds its commit
      changes it, in memory or on disk. */
  lemma VerdictsOutliveCrashes(f: Farm, n: nat, s: State, events: seq<Event>, sessions: seq<(seq<Event>, Start)>,
                               l: Loc, v: TestStatus)
    requires OneLeader(f) && IsRun(f, n, s, events) && Life(f, n, Exec(f, s, events).value, sessions).Some?
    requires AllLoad(sessions, l.0, v)
    requires v in {Passed, Failed, Notrun, FailedToRun}
    requires var t := Exec(f, s, events).value; StatusAt(t.store, l) == Some(v) && OnDisk(t, l, v)
    ensures var t := Life(f, n, Exec(f, s, events).value, sessions).value;
            StatusAt(t.store, l) == Some(v) && OnDisk(t, l, v)
  {
    hide Inv, OneLeader, LocOf, Init, AllLoad, OnDisk;
    RunInv(f, n, s, events);
    LifeKeepsVerdicts(f, n, Exec(f, s, events).value, sessions, l, v);
  }
}
