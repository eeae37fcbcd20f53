/** The results store of the daemon (src/lib.rs TestResultsStore): an in-memory
    map per commit, each change of which is rendered to the commit's file. */
module Store {
  import opened Text
  import opened Status

  /** What a file keeps of a result: no start time, no message. */
  datatype Saved = Saved(status: TestStatus, duration: nat)

  type ByCommit = map<string, TestResultsMap>
  type Disk = map<string, map<string, Saved>>

  function Render(m: TestResultsMap): map<string, Saved> {
    map k | k in m :: Saved(m[k].status, m[k].duration)
  }

  /** A result read back: the start time of every entry is the epoch. */
  function Parse(f: map<string, Saved>): TestResultsMap {
    map k | k in f :: TestResult(f[k].status, 0, f[k].duration)
  }

  function Of(mem: ByCommit, commit: string): TestResultsMap {
    if commit in mem then mem[commit] else map[]
  }

  function StatusIn(mem: ByCommit, commit: string, key: string): Option<TestStatus> {
    if commit in mem && key in mem[commit] then Some(mem[commit][key].status) else None
  }

  // --- one operation under the lock ---

  datatype Op = Update(commit: string, updates: TestResultsMap) | Delete(commit: string, keys: seq<string>)

  /** The memory after an operation: updates win over what was there. */
  function Apply(mem: ByCommit, op: Op): ByCommit {
    match op
    case Update(c, updates) => if updates == map[] then mem else mem[c := Of(mem, c) + updates]
    case Delete(c, keys) => if c in mem then mem[c := mem[c] - set k | k in keys] else mem
  }

  /** Whether the operation goes on to rewrite the commit's file. */
  predicate Writes(mem: ByCommit, op: Op) {
    match op
    case Update(_, updates) => updates != map[]
    case Delete(c, keys) => c in mem && exists k | k in keys :: k in mem[c]
  }

  lemma NoWriteNoChange(mem: ByCommit, op: Op)
    ensures !Writes(mem, op) ==> Apply(mem, op) == mem
    ensures Writes(mem, op) ==> op.commit in Apply(mem, op)
    ensures forall c | c != op.commit :: Of(Apply(mem, op), c) == Of(mem, c) && (c in Apply(mem, op) <==> c in mem)
  {
    if op.Delete? && op.commit in mem && !Writes(mem, op) {
      assert mem[op.commit] - (set k | k in op.keys) == mem[op.commit];
    }
  }

  /** What a lookup finds after an operation: an updated key its new status, a deleted
      key nothing, any other key of any commit what it found before. */
  lemma LookupAfter(mem: ByCommit, op: Op, c: string, k: string)
    ensures StatusIn(Apply(mem, op), c, k) == if Touches(op, c, k) then LeftBy(op, k) else StatusIn(mem, c, k)
  {
  }

  predicate Touches(op: Op, c: string, k: string) {
    c == op.commit && if op.Update? then k in op.updates else k in op.keys
  }

  function LeftBy(op: Op, k: string): Option<TestStatus> {
    if op.Update? && k in op.updates then Some(op.updates[k].status) else None
  }

  // --- loading ---

  predicate IsCommitId(s: string) {
    |s| == 40 && forall i | 0 <= i < |s| :: '0' <= s[i] <= '9' || 'a' <= s[i] <= 'f' || 'A' <= s[i] <= 'F'
  }

  predicate IsStale(s: TestStatus, clearFailedToRun: bool) {
    s == Inprogress || (clearFailedToRun && s == FailedToRun)
  }

  function Kept(f: map<string, Saved>, clearFailedToRun: bool): map<string, Saved> {
    map k | k in f && !IsStale(f[k].status, clearFailedToRun) :: f[k]
  }

  /** Commits with both a directory and a file, less their stale entries. */
  function Loaded(disk: Disk, dirs: set<string>, clearFailedToRun: bool): ByCommit {
    map c | c in disk && c in dirs && IsCommitId(c) && Kept(disk[c], clearFailedToRun) != map[]
      :: Parse(Kept(disk[c], clearFailedToRun))
  }

  /** The result directories of the entries loading drops. */
  function Dropped(disk: Disk, dirs: set<string>, clearFailedToRun: bool): set<(string, string)> {
    set c, k | c in disk && k in disk[c] && c in dirs && IsCommitId(c) && IsStale(disk[c][k].status, clearFailedToRun)
      :: (c, k)
  }

  function StaleOf(disk: Disk, c: string, clearFailedToRun: bool): set<(string, string)>
    requires c in disk
  {
    set k | k in disk[c] && IsStale(disk[c][k].status, clearFailedToRun) :: (c, k)
  }

  /** Those of the commits already loaded. */
  function DroppedBut(disk: Disk, dirs: set<string>, clearFailedToRun: bool, todo: set<string>): set<(string, string)> {
    set d | d in Dropped(disk, dirs, clearFailedToRun) && d.0 !in todo
  }

  lemma DropMore(disk: Disk, dirs: set<string>, clearFailedToRun: bool, todo: set<string>, c: string)
    requires c in todo && todo <= disk.Keys * dirs
    ensures DroppedBut(disk, dirs, clearFailedToRun, todo - {c})
         == DroppedBut(disk, dirs, clearFailedToRun, todo)
            + if IsCommitId(c) then StaleOf(disk, c, clearFailedToRun) else {}
  {
    hide IsCommitId, IsStale;
  }

  lemma DropEnds(disk: Disk, dirs: set<string>, clearFailedToRun: bool)
    ensures DroppedBut(disk, dirs, clearFailedToRun, disk.Keys * dirs) == {}
    ensures DroppedBut(disk, dirs, clearFailedToRun, {}) == Dropped(disk, dirs, clearFailedToRun)
  {
    hide IsCommitId, IsStale;
  }

  /** The insert loop of src/lib.rs TestResultsStore::update. */
  method MergeInto(before: TestResultsMap, updates: TestResultsMap) returns (entry: TestResultsMap)
    ensures entry == before + updates
  {
    entry := before;
    var todo := updates.Keys;
    while todo != {}
      invariant todo <= updates.Keys
      invariant entry.Keys == before.Keys + (updates.Keys - todo)
      invariant forall k | k in entry ::
                  entry[k] == if k in updates && k !in todo then updates[k] else before[k]
      decreases todo
    {
      var k :| k in todo;
      entry := entry[k := updates[k]];
      todo := todo - {k};
    }
    assert entry == before + updates;
  }

  /** The file of a commit after loading; it is rewritten only if it had stale entries. */
  function Rewritten(disk: Disk, dirs: set<string>, clearFailedToRun: bool, writable: set<string>,
          c: string): map<string, Saved>
    requires c in disk
  {
    if c in dirs && IsCommitId(c) && c in writable then Kept(disk[c], clearFailedToRun) else disk[c]
  }

  /** Memory after loading, result by result: those of commits with a directory and a
      40-digit hexadecimal name that are not in progress, nor failed to run if those are
      cleared. */
  predicate LoadsAll(mem: ByCommit, disk: Disk, dirs: set<string>, clear: bool) {
    && (forall c, k | c in mem && k in mem[c] ::
          && c in disk && k in disk[c] && c in dirs && |c| == 40
          && (forall i | 0 <= i < 40 :: c[i] in "0123456789abcdefABCDEF")
          && disk[c][k].status != Inprogress && !(clear && disk[c][k].status == FailedToRun)
          && mem[c][k] == TestResult(disk[c][k].status, 0, disk[c][k].duration))
    && (forall c, k | c in disk && k in disk[c] && c in dirs && |c| == 40
                      && (forall i | 0 <= i < 40 :: c[i] in "0123456789abcdefABCDEF")
                      && disk[c][k].status != Inprogress && !(clear && disk[c][k].status == FailedToRun) ::
          c in mem && k in mem[c])
  }

  lemma HexDigits(c: char)
    ensures c in "0123456789abcdefABCDEF" <==> '0' <= c <= '9' || 'a' <= c <= 'f' || 'A' <= c <= 'F'
  {
    var s := "0123456789abcdefABCDEF";
    assert s[0] == '0' && s[1] == '1' && s[2] == '2' && s[3] == '3' && s[4] == '4' && s[5] == '5' && s[6] == '6'
           && s[7] == '7' && s[8] == '8' && s[9] == '9' && s[10] == 'a' && s[11] == 'b' && s[12] == 'c'
           && s[13] == 'd' && s[14] == 'e' && s[15] == 'f' && s[16] == 'A' && s[17] == 'B' && s[18] == 'C'
           && s[19] == 'D' && s[20] == 'E' && s[21] == 'F';
  }

  lemma CommitIdIs(c: string)
    ensures IsCommitId(c) <==> |c| == 40 && forall i | 0 <= i < 40 :: c[i] in "0123456789abcdefABCDEF"
  {
    forall i | 0 <= i < |c|
      ensures c[i] in "0123456789abcdefABCDEF" <==>
              '0' <= c[i] <= '9' || 'a' <= c[i] <= 'f' || 'A' <= c[i] <= 'F'
    {
      HexDigits(c[i]);
    }
  }

  lemma LoadedIs(disk: Disk, dirs: set<string>, clear: bool)
    ensures LoadsAll(Loaded(disk, dirs, clear), disk, dirs, clear)
  {
    hide IsCommitId;
    forall c | c in disk {
      CommitIdIs(c);
    }
    forall c, k | c in disk && k in disk[c] && c in dirs && IsCommitId(c) && !IsStale(disk[c][k].status, clear)
      ensures c in Loaded(disk, dirs, clear) && k in Loaded(disk, dirs, clear)[c]
    {
      assert k in Kept(disk[c], clear);
    }
  }

  /** The directory loop of src/lib.rs TestResultsStore::load. */
  method LoadAll(disk: Disk, dirs: set<string>, clearFailedToRun: bool, writable: set<string>)
    returns (mem: ByCommit, files: Disk, dropped: set<(string, string)>)
    ensures mem == Loaded(disk, dirs, clearFailedToRun)
    ensures dropped == Dropped(disk, dirs, clearFailedToRun)
    ensures files == map c | c in disk :: Rewritten(disk, dirs, clearFailedToRun, writable, c)
  {
    hide Parse, IsCommitId, IsStale, Kept, Rewritten, Loaded, Dropped, DroppedBut, StaleOf;
    ghost var goal := Loaded(disk, dirs, clearFailedToRun);
    forall c | c in disk {
      LoadedAt(disk, dirs, clearFailedToRun, writable, c);
    }
    LoadedOnly(disk, dirs, clearFailedToRun);
    DropEnds(disk, dirs, clearFailedToRun);
    mem, files, dropped := map[], disk, {};
    var todo := disk.Keys * dirs;
    while todo != {}
      invariant todo <= disk.Keys * dirs
      invariant mem.Keys == goal.Keys - todo && forall c | c in mem :: mem[c] == goal[c]
      invariant files.Keys == disk.Keys
      invariant forall c | c in disk ::
                  files[c] == if c in todo then disk[c] else Rewritten(disk, dirs, clearFailedToRun, writable, c)
      invariant dropped == DroppedBut(disk, dirs, clearFailedToRun, todo)
      decreases todo
    {
      var c :| c in todo;
      DropMore(disk, dirs, clearFailedToRun, todo, c);
      if IsCommitId(c) {
        var kept := Kept(disk[c], clearFailedToRun);
        dropped := dropped + StaleOf(disk, c, clearFailedToRun);
        if kept != disk[c] && c in writable {
          files := files[c := kept];
        }
        if kept != map[] {
          mem := mem[c := Parse(kept)];
        }
      }
      todo := todo - {c};
    }
    assert mem == goal;
  }

  lemma LoadedOnly(disk: Disk, dirs: set<string>, clearFailedToRun: bool)
    ensures Loaded(disk, dirs, clearFailedToRun).Keys <= disk.Keys * dirs
  {
    hide Parse, IsCommitId, Kept;
  }

  lemma LoadedAt(disk: Disk, dirs: set<string>, clearFailedToRun: bool, writable: set<string>, c: string)
    requires c in disk
    ensures var m := Loaded(disk, dirs, clearFailedToRun);
            var kept := Kept(disk[c], clearFailedToRun);
            && (c in m <==> c in dirs && IsCommitId(c) && kept != map[])
            && (c in m ==> m[c] == Parse(kept))
            && Rewritten(disk, dirs, clearFailedToRun, writable, c)
               == if c in dirs && IsCommitId(c) && c in writable then kept else disk[c]
  {
    hide Parse, IsCommitId, Kept;
  }

  class TestResultsStore {
    var byCommit: ByCommit
    var disk: Disk
    var resultDirs: set<(string, string)>

    /** src/lib.rs TestResultsStore::load; `writable` are the commits whose file
        can be rewritten, `resultDirs` the result directories there are. */
    constructor Load(disk: Disk, dirs: set<string>, resultDirs: set<(string, string)>, clearFailedToRun: bool,
                     writable: set<string>)
      ensures byCommit == Loaded(disk, dirs, clearFailedToRun) && LoadsAll(byCommit, disk, dirs, clearFailedToRun)
      ensures this.disk == map c | c in disk :: Rewritten(disk, dirs, clearFailedToRun, writable, c)
      ensures this.resultDirs == resultDirs - Dropped(disk, dirs, clearFailedToRun)
    {
      var mem, files, dropped := LoadAll(disk, dirs, clearFailedToRun, writable);
      LoadedIs(disk, dirs, clearFailedToRun);
      byCommit, this.disk, this.resultDirs := mem, files, resultDirs - dropped;
    }

    method Lookup(commit: string, key: string) returns (s: Option<TestStatus>)
      ensures s == StatusIn(byCommit, commit, key)
    {
      s := None;
      if commit in byCommit && key in byCommit[commit] {
        s := Some(byCommit[commit][key].status);
      }
    }

    /** Merge, then rewrite the file; a failed write is not reported. */
    method Update(commit: string, updates: TestResultsMap, writeWorks: bool)
      modifies this`byCommit, this`disk
      ensures byCommit == Apply(old(byCommit), Op.Update(commit, updates))
      ensures disk == if updates != map[] && writeWorks
                      then old(disk)[commit := Render(byCommit[commit])] else old(disk)
    {
      if |updates| == 0 {
        return;
      }
      var entry := MergeInto(if commit in byCommit then byCommit[commit] else map[], updates);
      byCommit := byCommit[commit := entry];
      if writeWorks {
        disk := disk[commit := Render(entry)];
      }
    }

    method Delete(commit: string, keys: seq<string>, writeWorks: bool)
      modifies this`byCommit, this`disk
      ensures byCommit == Apply(old(byCommit), Op.Delete(commit, keys))
      ensures disk == if Writes(old(byCommit), Op.Delete(commit, keys)) && writeWorks
                      then old(disk)[commit := Render(byCommit[commit])] else old(disk)
    {
      NoWriteNoChange(byCommit, Op.Delete(commit, keys));
      if commit !in byCommit {
        return;
      }
      var entry := byCommit[commit];
      var changed := false;
      for i := 0 to |keys|
        invariant entry == byCommit[commit] - set k | k in keys[..i]
        invariant changed <==> exists k | k in keys[..i] :: k in byCommit[commit]
      {
        assert keys[..i + 1] == keys[..i] + [keys[i]];
        if keys[i] in entry {
          changed := true;
        }
        entry := entry - {keys[i]};
      }
      assert keys[..|keys|] == keys;
      byCommit := byCommit[commit := entry];
      if changed && writeWorks {
        disk := disk[commit := Render(entry)];
      }
    }
  }
}
