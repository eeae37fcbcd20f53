/** Concurrent callers of the results store, at the granularity of the lock, the
    merge, and the create / write / rename of the temporary file (src/lib.rs
    update, delete, results_to_capnp). Any file-system step may fail. */
module SharedStore {
  import opened Text
  import opened Status
  import opened Store

  /** A file is partial from its creation until all of it is written. */
  datatype Content = Partial | Full(saved: map<string, Saved>)

  datatype File = Final(commit: string) | Temp(commit: string, seq': nat)

  datatype Pc =
    | Idle
    | Waiting(op: Op)
    | Merging(op: Op)
    | Creating(commit: string)
    | Writing(commit: string, tmp: nat)
    | Renaming(commit: string, tmp: nat)
    | Releasing

  /** `log` is the history of operations in lock order, `failed` the commits
      whose latest rewrite failed, `saved` how much of the log the last completed
      rewrite of a commit's file took in; no step reads any of them. */
  datatype State = State(
    mem: ByCommit,
    files: map<File, Content>,
    lock: Option<nat>,
    pcs: seq<Pc>,
    nextTmp: nat,
    log: seq<Op>,
    failed: set<string>,
    saved: map<string, nat>)

  datatype Event =
    | Call(t: nat, op: Op)
    | Acquire(t: nat)
    | Merge(t: nat)
    | Create(t: nat, works: bool)
    | Write(t: nat, works: bool)
    | Rename(t: nat, works: bool)
    | Release(t: nat)

  /** update and delete return before locking when there is nothing to do. */
  predicate IsTrivial(op: Op) {
    match op
    case Update(_, updates) => updates == map[]
    case Delete(_, keys) => keys == []
  }

  predicate Enabled(s: State, e: Event) {
    e.t < |s.pcs| &&
    match e
    case Call(t, op) => s.pcs[t].Idle? && !IsTrivial(op)
    case Acquire(t) => s.pcs[t].Waiting? && s.lock.None?
    case Merge(t) => s.pcs[t].Merging?
    case Create(t, _) => s.pcs[t].Creating?
    case Write(t, _) => s.pcs[t].Writing?
    case Rename(t, _) => s.pcs[t].Renaming? && Temp(s.pcs[t].commit, s.pcs[t].tmp) in s.files
    case Release(t) => s.pcs[t].Releasing?
  }

  function Fail(s: State, t: nat, commit: string): State
    requires t < |s.pcs|
  {
    s.(failed := s.failed + {commit}, pcs := s.pcs[t := Releasing])
  }

  function Step(s: State, e: Event): State
    requires Enabled(s, e)
  {
    match e
    case Call(t, op) => s.(pcs := s.pcs[t := Waiting(op)])
    case Acquire(t) => s.(lock := Some(t), pcs := s.pcs[t := Merging(s.pcs[t].op)])
    case Merge(t) =>
      var op := s.pcs[t].op;
      s.(mem := Apply(s.mem, op), log := s.log + [op],
         pcs := s.pcs[t := if Writes(s.mem, op) then Creating(op.commit) else Releasing])
    case Create(t, works) =>
      var c := s.pcs[t].commit;
      var s' := s.(nextTmp := s.nextTmp + 1);
      if works then s'.(files := s.files[Temp(c, s.nextTmp) := Partial], pcs := s.pcs[t := Writing(c, s.nextTmp)])
      else Fail(s', t, c)
    case Write(t, works) =>
      var c, tmp := s.pcs[t].commit, s.pcs[t].tmp;
      if works then
        s.(files := s.files[Temp(c, tmp) := Full(Store.Render(Of(s.mem, c)))], pcs := s.pcs[t := Renaming(c, tmp)])
      else Fail(s, t, c)
    case Rename(t, works) =>
      var c, tmp := s.pcs[t].commit, s.pcs[t].tmp;
      if works then
        s.(files := (s.files - {Temp(c, tmp)})[Final(c) := s.files[Temp(c, tmp)]],
           failed := s.failed - {c}, saved := s.saved[c := |s.log|], pcs := s.pcs[t := Releasing])
      else Fail(s, t, c)
    case Release(t) => s.(lock := None, pcs := s.pcs[t := Idle])
  }

  /** What a daemon starts on: the files as they stand once it has loaded them, the
      directories it saw, and whether it clears failed-to-run results. A file it could
      not rewrite still holds stale entries; one without a directory was not loaded. */
  datatype Start = Start(disk: Disk, dirs: set<string>, clear: bool) {
    function Memory(): ByCommit {
      Loaded(disk, dirs, clear)
    }

    /** The loaded commits whose rewrite at load failed. */
    function Unwritten(): set<string> {
      set c | c in Memory() && Kept(disk[c], clear) != disk[c]
    }
  }

  ghost predicate Init(z: Start, s: State) {
    && s.mem == z.Memory() && s.lock.None? && s.log == [] && s.failed == z.Unwritten() && s.saved == map[]
    && (forall t | 0 <= t < |s.pcs| :: s.pcs[t].Idle?)
    && (forall c: string :: Final(c) in s.files <==> c in z.disk)
    && forall c | c in z.disk :: s.files[Final(c)] == Full(z.disk[c])
  }

  /** A daemon that has loaded the files `found`, whatever it could rewrite, holds what
      they say and is at such a start on the files it leaves. */
  lemma LoadStarts(found: Disk, dirs: set<string>, clear: bool, writable: set<string>)
    ensures Start(map c | c in found :: Rewritten(found, dirs, clear, writable, c), dirs, clear).Memory()
         == Loaded(found, dirs, clear)
  {
    hide IsStale, IsCommitId, Parse;
    var files: Disk := map c | c in found :: Rewritten(found, dirs, clear, writable, c);
    forall c | c in found
      ensures Kept(files[c], clear) == Kept(found[c], clear)
    {
      assert Kept(Kept(found[c], clear), clear) == Kept(found[c], clear);
    }
    assert Start(files, dirs, clear).Memory() == Loaded(found, dirs, clear);
  }

  function Exec(s: State, events: seq<Event>): Option<State>
    decreases |events|
  {
    if events == [] then Some(s)
    else if Enabled(s, events[0]) then Exec(Step(s, events[0]), events[1..])
    else None
  }

  /** The operations one after the other, each as a whole. */
  function Fold(base: ByCommit, log: seq<Op>): ByCommit {
    if log == [] then base else Apply(Fold(base, log[..|log| - 1]), log[|log| - 1])
  }

  /** A lookup finds what the last operation on its key left or, when there was none,
      what was loaded. */
  lemma {:induction false} LookupFindsLast(base: ByCommit, log: seq<Op>, c: string, k: string, i: int)
    requires -1 <= i < |log| && (i >= 0 ==> Touches(log[i], c, k))
    requires forall j | i < j < |log| :: !Touches(log[j], c, k)
    ensures StatusIn(Fold(base, log), c, k) == if i >= 0 then LeftBy(log[i], k) else StatusIn(base, c, k)
  {
    hide Apply, Touches, LeftBy, StatusIn;
    if log != [] {
      var init, last := log[..|log| - 1], log[|log| - 1];
      LookupAfter(Fold(base, init), last, c, k);
      if i < |init| {
        LookupFindsLast(base, init, c, k, i);
      }
    }
  }

  // --- invariant ---

  predicate InSection(pc: Pc) {
    !pc.Idle? && !pc.Waiting?
  }

  predicate Rewriting(pc: Pc, commit: string) {
    (pc.Creating? || pc.Writing? || pc.Renaming?) && pc.commit == commit
  }

  predicate InProgress(s: State, commit: string) {
    s.lock.Some? && s.lock.value < |s.pcs| && Rewriting(s.pcs[s.lock.value], commit)
  }

  ghost predicate LockInv(s: State) {
    && (s.lock.Some? ==> s.lock.value < |s.pcs|)
    && forall t | 0 <= t < |s.pcs| :: InSection(s.pcs[t]) <==> s.lock == Some(t)
  }

  predicate TempInv(s: State, pc: Pc) {
    && (pc.Writing? ==> Temp(pc.commit, pc.tmp) in s.files)
    && (pc.Renaming? ==> Temp(pc.commit, pc.tmp) in s.files
                         && s.files[Temp(pc.commit, pc.tmp)] == Full(Store.Render(Of(s.mem, pc.commit))))
  }

  /** The commit after the first p operations. */
  function After(base: ByCommit, log: seq<Op>, p: nat, c: string): TestResultsMap
    requires p <= |log|
  {
    Of(Fold(base, log[..p]), c)
  }

  /** What the file of c holds: the commit as it was after the prefix of the log that the
      last completed rewrite took in or, before any, what the file held at the start. */
  function FileOf(z: Start, s: State, c: string): Option<map<string, Saved>>
    requires c in s.saved ==> s.saved[c] <= |s.log|
  {
    if c in s.saved then Some(Store.Render(After(z.Memory(), s.log, s.saved[c], c)))
    else if c in z.disk then Some(z.disk[c])
    else None
  }

  predicate FileOk(z: Start, s: State, c: string) {
    && (c in s.saved ==> s.saved[c] <= |s.log|)
    && (Final(c) in s.files <==> FileOf(z, s, c).Some?)
    && (Final(c) in s.files ==> s.files[Final(c)] == Full(FileOf(z, s, c).value))
  }

  ghost predicate Inv(z: Start, s: State) {
    && s.mem == Fold(z.Memory(), s.log)
    && LockInv(s)
    && (s.lock.Some? ==> TempInv(s, s.pcs[s.lock.value]))
    && (forall c: string :: FileOk(z, s, c))
    && (forall c | c in s.mem && c !in s.failed && !InProgress(s, c) ::
          Final(c) in s.files && s.files[Final(c)] == Full(Store.Render(s.mem[c])))
  }

  lemma InitInv(z: Start, s: State)
    requires Init(z, s)
    ensures Inv(z, s)
  {
    hide IsStale, IsCommitId;
    forall c: string
      ensures FileOk(z, s, c)
    {
    }
    forall c | c in s.mem && c !in s.failed
      ensures Final(c) in s.files && s.files[Final(c)] == Full(Store.Render(s.mem[c]))
    {
      assert Store.Render(Parse(z.disk[c])) == z.disk[c];
    }
  }

  lemma AfterGrows(base: ByCommit, log: seq<Op>, op: Op, p: nat, c: string)
    requires p <= |log|
    ensures After(base, log + [op], p, c) == After(base, log, p, c)
  {
    assert (log + [op])[..p] == log[..p];
  }

  lemma AfterAll(base: ByCommit, log: seq<Op>, c: string)
    ensures After(base, log, |log|, c) == Of(Fold(base, log), c)
  {
    assert log[..|log|] == log;
  }

  lemma MergeKeeps(z: Start, s: State, t: nat)
    requires Inv(z, s) && Enabled(s, Merge(t))
    ensures Inv(z, Step(s, Merge(t)))
  {
    hide After, Store.Render, Writes, Apply, Fold;
    var s', op := Step(s, Merge(t)), s.pcs[t].op;
    assert s.lock == Some(t);
    FoldLast(z.Memory(), s.log, op);
    NoWriteNoChange(s.mem, op);
    forall c: string
      ensures FileOk(z, s', c)
    {
      assert FileOk(z, s, c);
      if c in s.saved {
        AfterGrows(z.Memory(), s.log, op, s.saved[c], c);
      }
    }
    forall c | c in s'.mem && c !in s'.failed && !InProgress(s', c)
      ensures Final(c) in s'.files && s'.files[Final(c)] == Full(Store.Render(s'.mem[c]))
    {
      if c == op.commit {
        assert !Writes(s.mem, op);
      } else {
        assert Of(s'.mem, c) == Of(s.mem, c);
      }
      assert !InProgress(s, c);
    }
  }

  lemma FoldLast(base: ByCommit, log: seq<Op>, op: Op)
    ensures Fold(base, log + [op]) == Apply(Fold(base, log), op)
  {
    assert (log + [op])[..|log|] == log;
  }

  lemma RenameKeeps(z: Start, s: State, t: nat)
    requires Inv(z, s) && Enabled(s, Rename(t, true))
    ensures Inv(z, Step(s, Rename(t, true)))
  {
    hide After, Store.Render, Fold;
    var s', c := Step(s, Rename(t, true)), s.pcs[t].commit;
    assert s.lock == Some(t) && Rewriting(s.pcs[t], c);
    AfterAll(z.Memory(), s.log, c);
    forall d: string
      ensures FileOk(z, s', d)
    {
      assert FileOk(z, s, d);
    }
    forall d | d in s'.mem && d !in s'.failed && !InProgress(s', d)
      ensures Final(d) in s'.files && s'.files[Final(d)] == Full(Store.Render(s'.mem[d]))
    {
      if d != c {
        assert !InProgress(s, d);
      }
    }
  }

  lemma OtherKeeps(z: Start, s: State, e: Event)
    requires Inv(z, s) && Enabled(s, e) && !e.Merge? && !(e.Rename? && e.works)
    ensures Inv(z, Step(s, e))
  {
    hide After, Store.Render, Fold, IsTrivial;
    var s' := Step(s, e);
    assert InSection(s.pcs[e.t]) ==> s.lock == Some(e.t);
    forall c: string
      ensures FileOk(z, s', c)
    {
      assert FileOk(z, s, c);
    }
    forall c | c in s'.mem && c !in s'.failed && !InProgress(s', c)
      ensures Final(c) in s'.files && s'.files[Final(c)] == Full(Store.Render(s'.mem[c]))
    {
      assert !InProgress(s, c);
    }
  }

  lemma {:induction false} ExecKeepsInv(z: Start, s: State, events: seq<Event>)
    requires Inv(z, s) && Exec(s, events).Some?
    ensures Inv(z, Exec(s, events).value)
    decreases |events|
  {
    if events != [] {
      hide Inv, Step, Enabled;
      var e := events[0];
      if e.Merge? {
        MergeKeeps(z, s, e.t);
      } else if e.Rename? && e.works {
        RenameKeeps(z, s, e.t);
      } else {
        OtherKeeps(z, s, e);
      }
      ExecKeepsInv(z, Step(s, e), events[1..]);
    }
  }

  // --- results ---

  /** In every interleaving: memory is the operations in lock order; a reader of a
      commit's file always finds it complete, and it renders the commit as it was after
      the prefix of those operations that the last completed rewrite took in, or it is
      the file of the start, even while files are being written and when writes fail. */
  lemma Linearizable(z: Start, s: State, events: seq<Event>)
    requires Init(z, s) && Exec(s, events).Some?
    ensures var t := Exec(s, events).value;
            t.mem == Fold(z.Memory(), t.log) && forall c: string :: FileOk(z, t, c)
  {
    InitInv(z, s);
    ExecKeepsInv(z, s, events);
  }

  /** When the lock is free, the file of every commit whose latest rewrite did
      not fail is its memory. */
  lemma DiskMatchesMemory(z: Start, s: State, events: seq<Event>, c: string)
    requires Init(z, s) && Exec(s, events).Some? && Exec(s, events).value.lock.None?
    requires c in Exec(s, events).value.mem && c !in Exec(s, events).value.failed
    ensures var t := Exec(s, events).value;
            Final(c) in t.files && t.files[Final(c)] == Full(Store.Render(t.mem[c]))
  {
    InitInv(z, s);
    ExecKeepsInv(z, s, events);
  }

  // --- an undisturbed call ---

  /** The steps of a call that nothing fails and nobody comes between. */
  function CallSteps(s: State, t: nat, op: Op): seq<Event> {
    [Call(t, op)] + ([Acquire(t)] + ([Merge(t)] + if Writes(s.mem, op) then WriteSteps(t) else [Release(t)]))
  }

  function WriteSteps(t: nat): seq<Event> {
    [Create(t, true)] + ([Write(t, true)] + ([Rename(t, true)] + [Release(t)]))
  }

  lemma ExecOne(s: State, e: Event)
    requires Enabled(s, e)
    ensures Exec(s, [e]) == Some(Step(s, e))
  {
    assert [e][1..] == [] && Exec(Step(s, e), []) == Some(Step(s, e));
  }

  lemma ExecCons(s: State, e: Event, rest: seq<Event>)
    requires Enabled(s, e)
    ensures Exec(s, [e] + rest) == Exec(Step(s, e), rest)
  {
    assert ([e] + rest)[1..] == rest;
  }

  /** Called with something to do, the thread is back where it was, the lock free, memory
      changed by the operation and the file a rendering of it. */
  lemma CallCompletes(s: State, t: nat, op: Op)
    requires t < |s.pcs| && s.pcs[t].Idle? && s.lock.None?
    requires if op.Update? then op.updates != map[] else op.keys != []
    ensures var u := Exec(s, CallSteps(s, t, op));
            && u.Some? && u.value.pcs == s.pcs && u.value.lock.None? && u.value.mem == Apply(s.mem, op)
            && (Writes(s.mem, op) ==>
                  Final(op.commit) in u.value.files
                  && u.value.files[Final(op.commit)] == Full(Store.Render(Of(u.value.mem, op.commit)))
                  && op.commit !in u.value.failed)
            && (!Writes(s.mem, op) ==> u.value.files == s.files)
  {
    hide Apply, Writes, Store.Render, Exec, WriteSteps;
    var s1 := Step(s, Call(t, op));
    var s2 := Step(s1, Acquire(t));
    var s3 := Step(s2, Merge(t));
    assert s3.mem == Apply(s.mem, op) && s3.files == s.files && s3.lock == Some(t);
    var rest := if Writes(s.mem, op) then WriteSteps(t) else [Release(t)];
    ExecCons(s, Call(t, op), [Acquire(t)] + ([Merge(t)] + rest));
    ExecCons(s1, Acquire(t), [Merge(t)] + rest);
    ExecCons(s2, Merge(t), rest);
    if Writes(s.mem, op) {
      WriteCompletes(s3, t, op.commit);
      assert s.pcs == s3.pcs[t := Idle];
    } else {
      ExecOne(s3, Release(t));
      assert s.pcs == s3.pcs[t := Idle];
    }
  }

  lemma FileWritten(s: State, t: nat, c: string)
    requires t < |s.pcs| && s.pcs[t] == Creating(c)
    ensures Enabled(s, Create(t, true))
    ensures var s1 := Step(s, Create(t, true));
            Enabled(s1, Write(t, true)) &&
            var s2 := Step(s1, Write(t, true));
            Enabled(s2, Rename(t, true)) &&
            var s3 := Step(s2, Rename(t, true));
            && s3.pcs == s.pcs[t := Releasing] && s3.mem == s.mem
            && Final(c) in s3.files && s3.files[Final(c)] == Full(Store.Render(Of(s.mem, c))) && c !in s3.failed
  {
    hide Store.Render;
    var s1 := Step(s, Create(t, true));
    assert s1.pcs == s.pcs[t := Writing(c, s.nextTmp)];
    var s2 := Step(s1, Write(t, true));
    assert s2.pcs == s.pcs[t := Renaming(c, s.nextTmp)];
  }

  lemma ReleaseFrees(s: State, t: nat)
    requires t < |s.pcs| && s.pcs[t].Releasing?
    ensures Enabled(s, Release(t)) && Step(s, Release(t)) == s.(lock := None, pcs := s.pcs[t := Idle])
  {
  }

  lemma WriteCompletes(s: State, t: nat, c: string)
    requires t < |s.pcs| && s.pcs[t] == Creating(c)
    ensures var u := Exec(s, WriteSteps(t));
            && u.Some? && u.value.pcs == s.pcs[t := Idle] && u.value.lock.None? && u.value.mem == s.mem
            && Final(c) in u.value.files && u.value.files[Final(c)] == Full(Store.Render(Of(s.mem, c)))
            && c !in u.value.failed
  {
    hide Store.Render, Step, Enabled, Exec;
    FileWritten(s, t, c);
    var s1 := Step(s, Create(t, true));
    var s2 := Step(s1, Write(t, true));
    var s3 := Step(s2, Rename(t, true));
    ReleaseFrees(s3, t);
    ExecCons(s, Create(t, true), [Write(t, true)] + ([Rename(t, true)] + [Release(t)]));
    ExecCons(s1, Write(t, true), [Rename(t, true)] + [Release(t)]);
    ExecCons(s2, Rename(t, true), [Release(t)]);
    ExecOne(s3, Release(t));
  }

  /** When a file-system step fails the call ends there: the thread is idle, the lock
      free, memory keeps the operation, and every file is as it was. */
  lemma FailureFrees(s: State, e: Event)
    requires Enabled(s, e) && (e.Create? || e.Write? || e.Rename?) && !e.works
    ensures var u := Exec(s, [e] + [Release(e.t)]);
            && u.Some? && u.value.pcs == s.pcs[e.t := Idle] && u.value.lock.None? && u.value.mem == s.mem
            && u.value.files == s.files && s.pcs[e.t].commit in u.value.failed
  {
    var s1 := Step(s, e);
    assert s1.pcs == s.pcs[e.t := Releasing];
    ReleaseFrees(s1, e.t);
    hide Exec, Step, Enabled;
    ExecCons(s, e, [Release(e.t)]);
    ExecOne(s1, Release(e.t));
  }

  // --- loading what a crash left ---

  /** The files a dead daemon leaves under their final names; its temporary files are
      never read. */
  ghost predicate Leaves(t: State, disk: Disk) {
    && (forall c :: c in disk <==> Final(c) in t.files)
    && forall c | c in disk :: t.files[Final(c)] == Full(disk[c])
  }

  /** The results that are not stale, with status and duration as they were and the
      start time lost. */
  function Survivors(m: TestResultsMap, clear: bool): TestResultsMap {
    map k | k in m && !IsStale(m[k].status, clear) :: TestResult(m[k].status, 0, m[k].duration)
  }

  lemma LoadOne(disk: Disk, dirs: set<string>, clear: bool, c: string, m: TestResultsMap)
    requires c in dirs && IsCommitId(c)
    requires if c in disk then disk[c] == Store.Render(m) else m == map[]
    ensures Of(Loaded(disk, dirs, clear), c) == Survivors(m, clear)
  {
    hide IsStale, IsCommitId;
    if c in disk {
      var kept := Kept(disk[c], clear);
      assert kept.Keys == Survivors(m, clear).Keys;
      assert Parse(kept) == Survivors(m, clear);
    }
  }

  /** A crash at any moment, in the middle of any write, by whichever thread: the next
      daemon knows of a commit with a directory what the last completed rewrite of its
      file took in or, when there was none, what it makes of the file of the start. */
  lemma CrashLoads(z: Start, s: State, events: seq<Event>, disk: Disk, dirs: set<string>, clear: bool, c: string)
    requires Init(z, s) && Exec(s, events).Some? && Leaves(Exec(s, events).value, disk)
    requires c in dirs && IsCommitId(c)
    ensures var t := Exec(s, events).value;
            (c in t.saved ==> t.saved[c] <= |t.log|)
            && Of(Loaded(disk, dirs, clear), c) ==
               if c in t.saved then Survivors(After(z.Memory(), t.log, t.saved[c], c), clear)
               else Of(Loaded(z.disk, dirs, clear), c)
  {
    hide Store.Render, Survivors, IsCommitId;
    InitInv(z, s);
    ExecKeepsInv(z, s, events);
    var t := Exec(s, events).value;
    assert FileOk(z, t, c);
    if c in t.saved {
      LoadOne(disk, dirs, clear, c, After(z.Memory(), t.log, t.saved[c], c));
    }
  }

  function StatusAfter(base: ByCommit, log: seq<Op>, p: nat, c: string, k: string): Option<TestStatus>
    requires p <= |log|
  {
    StatusOf(After(base, log, p, c), k)
  }

  /** Operation i of the log recorded the verdict (none did, for -1: it was there at the
      start), and nothing changed it since. */
  ghost predicate RecordedBy(base: ByCommit, log: seq<Op>, c: string, k: string, v: TestStatus, i: int) {
    -1 <= i < |log| && forall p | 0 <= p <= |log| :: StatusAfter(base, log, p, c, k) == Some(v) <==> i < p
  }

  /** The verdict is still known after the crash exactly when a rewrite of its commit's
      file was completed with the verdict in memory or, none having been completed, the
      file of the start holds it. */
  lemma CrashKeepsIff(z: Start, s: State, events: seq<Event>, disk: Disk, dirs: set<string>, clear: bool,
                      c: string, k: string, v: TestStatus, i: int)
    requires Init(z, s) && Exec(s, events).Some? && Leaves(Exec(s, events).value, disk)
    requires c in dirs && IsCommitId(c) && !IsStale(v, clear)
    requires RecordedBy(z.Memory(), Exec(s, events).value.log, c, k, v, i)
    ensures var t := Exec(s, events).value;
            StatusIn(Loaded(disk, dirs, clear), c, k) == Some(v) <==>
            if c in t.saved then i < t.saved[c]
            else c in z.disk && k in z.disk[c] && z.disk[c][k].status == v
  {
    hide After, IsCommitId, Exec, Init, Leaves, Loaded, Survivors, IsStale, Start.Memory, StatusIn, StatusOf;
    CrashLoads(z, s, events, disk, dirs, clear, c);
    var t := Exec(s, events).value;
    LookedUp(Loaded(disk, dirs, clear), c, k);
    if c in t.saved {
      var p := t.saved[c];
      assert StatusAfter(z.Memory(), t.log, p, c, k) == Some(v) <==> i < p;
      SurvivorStatus(After(z.Memory(), t.log, p, c), clear, k, v);
    } else {
      LookedUp(Loaded(z.disk, dirs, clear), c, k);
      LoadedStatus(z.disk, dirs, clear, c, k, v);
    }
  }

  lemma LookedUp(mem: ByCommit, c: string, k: string)
    ensures StatusIn(mem, c, k) == StatusOf(Of(mem, c), k)
  {
  }

  lemma SurvivorStatus(m: TestResultsMap, clear: bool, k: string, v: TestStatus)
    requires !IsStale(v, clear)
    ensures StatusOf(Survivors(m, clear), k) == Some(v) <==> StatusOf(m, k) == Some(v)
  {
  }

  lemma LoadedStatus(disk: Disk, dirs: set<string>, clear: bool, c: string, k: string, v: TestStatus)
    requires c in dirs && IsCommitId(c) && !IsStale(v, clear)
    ensures StatusIn(Loaded(disk, dirs, clear), c, k) == Some(v) <==>
            c in disk && k in disk[c] && disk[c][k].status == v
  {
    hide IsCommitId;
    if c in disk && k in disk[c] && disk[c][k].status == v {
      assert k in Kept(disk[c], clear);
    }
  }

  /** In particular, with the lock free and no failed rewrite nothing is lost. */
  lemma RestartRecovers(z: Start, s: State, events: seq<Event>, disk: Disk, dirs: set<string>, clear: bool,
                        c: string)
    requires Init(z, s) && Exec(s, events).Some? && Exec(s, events).value.lock.None?
    requires c in Exec(s, events).value.mem && c !in Exec(s, events).value.failed
    requires c in dirs && IsCommitId(c) && Leaves(Exec(s, events).value, disk)
    ensures Of(Loaded(disk, dirs, clear), c) == Survivors(Exec(s, events).value.mem[c], clear)
  {
    hide Store.Render, Survivors, Loaded, IsCommitId, Exec;
    DiskMatchesMemory(z, s, events, c);
    LoadOne(disk, dirs, clear, c, Exec(s, events).value.mem[c]);
  }
}
