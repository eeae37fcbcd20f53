/** The mtime-keyed cache of src/jobs.rs get_subtests, with callers that may
    overlap and a file system that changes between any two of their steps. A
    file's content stands for the list of subtests its list-tests run prints. */
module SubtestCache {
  import opened Text

  datatype File = File(content: Option<seq<string>>, mtime: nat)

  datatype Entry = Entry(mtime: nat, subtests: seq<string>)

  type Cache = map<string, Entry>

  /** The lookup under the lock: an entry counts only at the mtime just read. */
  function Consult(cache: Cache, path: string, mtime: Option<nat>): Option<seq<string>> {
    if mtime.Some? && path in cache && cache[path].mtime == mtime.value
    then Some(cache[path].subtests)
    else None
  }

  /** The insert under the lock: non-empty listings of files whose stat worked. */
  function Remember(cache: Cache, path: string, mtime: Option<nat>, subtests: seq<string>): Cache {
    if subtests != [] && mtime.Some? then cache[path := Entry(mtime.value, subtests)] else cache
  }

  /** The function as one call on a cache nobody else touches. */
  class ListingCache {
    var cache: Cache

    /** No empty listing is ever served from the cache. */
    ghost predicate Valid()
      reads this
    {
      forall p | p in cache :: cache[p].subtests != []
    }

    constructor ()
      ensures Valid() && cache == map[]
    {
      cache := map[];
    }

    /** src/jobs.rs get_subtests; `stat` is the file's mtime if the stat worked,
        `listing` what list-tests prints if it runs and exits with success. */
    method GetSubtests(path: string, stat: Option<nat>, listing: Option<seq<string>>) returns (subtests: seq<string>)
      requires Valid()
      modifies this
      ensures Valid()
      ensures Consult(old(cache), path, stat).Some? ==>
                subtests != [] && subtests == Consult(old(cache), path, stat).value && cache == old(cache)
      ensures Consult(old(cache), path, stat).None? ==>
                subtests == listing.GetOr([]) && cache == Remember(old(cache), path, stat, subtests)
    {
      if stat.Some? && path in cache && cache[path].mtime == stat.value {
        return cache[path].subtests;
      }
      subtests := [];
      if listing.Some? {
        subtests := listing.value;
      }
      if subtests != [] && stat.Some? {
        cache := cache[path := Entry(stat.value, subtests)];
      }
    }
  }

  // --- overlapping callers ---

  /** Where a caller is. `seen` is the content at its stat and `held` the cache
      entry of the path at its stat: history, which no step reads. */
  datatype Caller =
    | Idle
    | Statted(path: string, mtime: Option<nat>, seen: Option<seq<string>>, held: Option<Entry>)
    | Missed(path: string, mtime: Option<nat>, seen: Option<seq<string>>)
    | Listed(path: string, mtime: Option<nat>, seen: Option<seq<string>>, subtests: seq<string>)
    | Returned(path: string, seen: Option<seq<string>>, subtests: seq<string>, hit: bool, known: bool)

  datatype State = State(files: map<string, File>, cache: Cache, callers: seq<Caller>)

  datatype Event =
    | Change(path: string, file: File)
    | Stat(c: nat, path: string)
    | Check(c: nat)
    | List(c: nat, works: bool)
    | Finish(c: nat)

  function FileAt(s: State, path: string): File {
    if path in s.files then s.files[path] else File(None, 0)
  }

  function Held(s: State, path: string): Option<Entry> {
    if path in s.cache then Some(s.cache[path]) else None
  }

  /** A change of content strictly raises the mtime. */
  predicate Enabled(s: State, e: Event) {
    match e
    case Change(path, file) => file.mtime > FileAt(s, path).mtime
    case Stat(c, _) => c < |s.callers| && (s.callers[c].Idle? || s.callers[c].Returned?)
    case Check(c) => c < |s.callers| && s.callers[c].Statted?
    case List(c, _) => c < |s.callers| && s.callers[c].Missed?
    case Finish(c) => c < |s.callers| && s.callers[c].Listed?
  }

  function Step(s: State, e: Event): State
    requires Enabled(s, e)
  {
    match e
    case Change(path, file) => s.(files := s.files[path := file])
    case Stat(c, path) =>
      var f := FileAt(s, path);
      var mtime := if f.content.Some? then Some(f.mtime) else None;
      s.(callers := s.callers[c := Statted(path, mtime, f.content, Held(s, path))])
    case Check(c) =>
      var w := s.callers[c];
      var found := Consult(s.cache, w.path, w.mtime);
      s.(callers := s.callers[c :=
        if found.Some? then Returned(w.path, w.seen, found.value, true, Held(s, w.path) == w.held)
        else Missed(w.path, w.mtime, w.seen)])
    case List(c, works) =>
      var w := s.callers[c];
      var listing := if works then FileAt(s, w.path).content.GetOr([]) else [];
      s.(callers := s.callers[c := Listed(w.path, w.mtime, w.seen, listing)])
    case Finish(c) =>
      var w := s.callers[c];
      s.(cache := Remember(s.cache, w.path, w.mtime, w.subtests),
         callers := s.callers[c := Returned(w.path, w.seen, w.subtests, false, true)])
  }

  /** Any number of files, an empty cache, n callers. */
  predicate Init(s: State, n: nat) {
    s.cache == map[] && |s.callers| == n && forall c | 0 <= c < n :: s.callers[c].Idle?
  }

  /** The state after the events, if each was possible when it came. */
  function Exec(s: State, events: seq<Event>): Option<State> {
    if events == [] then Some(s)
    else
      var prev := Exec(s, events[..|events| - 1]);
      var e := events[|events| - 1];
      if prev.Some? && Enabled(prev.value, e) then Some(Step(prev.value, e)) else None
  }

  /** Every answer from the cache is the listing of the file at that lookup's stat. */
  predicate HitsRight(s: State) {
    forall c | 0 <= c < |s.callers| && s.callers[c].Returned? && s.callers[c].hit ::
      s.callers[c].seen == Some(s.callers[c].subtests)
  }

  // --- invariant ---

  /** mtime was read with content `seen`, so while the mtime still stands so does the content. */
  predicate StatHolds(f: File, mtime: Option<nat>, seen: Option<seq<string>>) {
    mtime.Some? ==> seen.Some? && mtime.value <= f.mtime && (mtime.value == f.mtime ==> f.content == seen)
  }

  predicate CallerOk(s: State, w: Caller) {
    match w
    case Idle => true
    case Statted(p, mt, seen, held) =>
      StatHolds(FileAt(s, p), mt, seen)
      && (held.Some? && mt == Some(held.value.mtime) ==> seen == Some(held.value.subtests))
    case Missed(p, mt, seen) => StatHolds(FileAt(s, p), mt, seen)
    case Listed(p, mt, seen, list) =>
      StatHolds(FileAt(s, p), mt, seen)
      && (list != [] && mt == Some(FileAt(s, p).mtime) ==> FileAt(s, p).content == Some(list))
    case Returned(p, seen, list, hit, known) =>
      (hit ==> list != []) && (hit && known ==> seen == Some(list))
  }

  predicate EntryOk(f: File, e: Entry) {
    e.subtests != [] && e.mtime <= f.mtime && (e.mtime == f.mtime ==> f.content == Some(e.subtests))
  }

  predicate Inv(s: State) {
    && (forall p | p in s.cache :: EntryOk(FileAt(s, p), s.cache[p]))
    && forall c | 0 <= c < |s.callers| :: CallerOk(s, s.callers[c])
  }

  lemma StepKeepsInv(s: State, e: Event)
    requires Inv(s) && Enabled(s, e)
    ensures Inv(Step(s, e))
  {
    var t := Step(s, e);
    forall c | 0 <= c < |t.callers|
      ensures CallerOk(t, t.callers[c])
    {
      assert CallerOk(s, s.callers[c]);
    }
  }

  lemma {:induction false} ExecKeepsInv(s: State, n: nat, events: seq<Event>)
    requires Init(s, n) && Exec(s, events).Some?
    ensures Inv(Exec(s, events).value) && |Exec(s, events).value.callers| == n
  {
    if events != [] {
      ExecKeepsInv(s, n, events[..|events| - 1]);
      StepKeepsInv(Exec(s, events[..|events| - 1]).value, events[|events| - 1]);
    }
  }

  /** However many callers overlap: an answer whose entry was already in the
      cache at the caller's stat is the listing at that stat, and no answer from
      the cache is empty. */
  lemma FreshHitsRight(s: State, n: nat, events: seq<Event>, c: nat)
    requires Init(s, n) && Exec(s, events).Some? && c < |Exec(s, events).value.callers|
    requires var w := Exec(s, events).value.callers[c]; w.Returned? && w.hit
    ensures var w := Exec(s, events).value.callers[c]; w.subtests != [] && (w.known ==> w.seen == Some(w.subtests))
  {
    ExecKeepsInv(s, n, events);
    assert CallerOk(Exec(s, events).value, Exec(s, events).value.callers[c]);
  }

  // --- exactly when hits are right ---

  predicate AtRest(w: Caller) {
    w.Idle? || w.Returned?
  }

  /** At most one call is under way, and nothing is inserted between its stat and its
      lookup. */
  predicate Undisturbed(s: State) {
    && (forall c, d | 0 <= c < d < |s.callers| :: AtRest(s.callers[c]) || AtRest(s.callers[d]))
    && forall c | 0 <= c < |s.callers| ::
         && (s.callers[c].Statted? ==> Held(s, s.callers[c].path) == s.callers[c].held)
         && (s.callers[c].Returned? ==> s.callers[c].known)
  }

  predicate AllAtRest(s: State) {
    forall c | 0 <= c < |s.callers| :: AtRest(s.callers[c])
  }

  /** Calls do not overlap: each begins when every caller is at rest. */
  predicate Serial(s: State, events: seq<Event>) {
    events == []
    || (Serial(s, events[..|events| - 1])
        && (events[|events| - 1].Stat? && Exec(s, events[..|events| - 1]).Some? ==>
              AllAtRest(Exec(s, events[..|events| - 1]).value)))
  }

  lemma {:induction false} SerialUndisturbed(s: State, n: nat, events: seq<Event>)
    requires Init(s, n) && Exec(s, events).Some? && Serial(s, events)
    ensures Undisturbed(Exec(s, events).value)
  {
    if events != [] {
      SerialUndisturbed(s, n, events[..|events| - 1]);
    }
  }

  /** In a run of any number of callers whose calls do not overlap, every hit is the
      listing of the file at that lookup's stat. */
  lemma SerialHitsRight(s: State, n: nat, events: seq<Event>)
    requires Init(s, n) && Exec(s, events).Some? && Serial(s, events)
    ensures HitsRight(Exec(s, events).value)
  {
    ExecKeepsInv(s, n, events);
    SerialUndisturbed(s, n, events);
    var t := Exec(s, events).value;
    assert forall c | 0 <= c < |t.callers| :: CallerOk(t, t.callers[c]);
  }

  /** One caller's calls never overlap. */
  lemma {:induction false} OneCallerSerial(s: State, events: seq<Event>)
    requires Init(s, 1) && Exec(s, events).Some?
    ensures Serial(s, events) && |Exec(s, events).value.callers| == 1
  {
    if events != [] {
      OneCallerSerial(s, events[..|events| - 1]);
    }
  }

  const OLD := File(Some(["old"]), 1)
  const NEW := File(Some(["new"]), 2)

  function Sleepers(n: nat): (cs: seq<Caller>)
    ensures |cs| == n && forall c | 0 <= c < n :: cs[c].Idle?
  {
    seq(n, _ => Idle)
  }

  lemma ExecStep(s: State, events: seq<Event>, t: State, e: Event)
    requires Exec(s, events) == Some(t) && Enabled(t, e)
    ensures Exec(s, events + [e]) == Some(Step(t, e))
  {
    assert (events + [e])[..|events|] == events;
  }

  /** Two callers stat the old file; the first lists the changed one and inserts
      it under the old mtime; the second then finds it there. */
  const RACE := [Stat(0, "t"), Stat(1, "t"), Check(0), Change("t", NEW), List(0, true), Finish(0), Check(1)]

  lemma RaceMisleads(n: nat)
    requires n >= 2
    ensures var s := State(map["t" := OLD], map[], Sleepers(n));
            Init(s, n) && Exec(s, RACE).Some? && !HitsRight(Exec(s, RACE).value)
  {
    var s := State(map["t" := OLD], map[], Sleepers(n));
    var mt, old' := Some(1), Some(["old"]);
    var w0 := Statted("t", mt, old', None);
    ExecStep(s, [], s, Stat(0, "t"));
    var s1 := Step(s, Stat(0, "t"));
    assert s1.callers[0] == w0 && s1.callers[1].Idle?;
    ExecStep(s, [Stat(0, "t")], s1, Stat(1, "t"));
    var s2 := Step(s1, Stat(1, "t"));
    assert s2.callers[0] == w0 && s2.callers[1] == w0 && s2.cache == map[];
    ExecStep(s, [Stat(0, "t"), Stat(1, "t")], s2, Check(0));
    var s3 := Step(s2, Check(0));
    assert s3.callers[0] == Missed("t", mt, old') && s3.callers[1] == w0;
    var upTo3 := [Stat(0, "t"), Stat(1, "t")] + [Check(0)];
    ExecStep(s, upTo3, s3, Change("t", NEW));
    var s4 := Step(s3, Change("t", NEW));
    assert FileAt(s4, "t") == NEW && s4.callers == s3.callers;
    ExecStep(s, upTo3 + [Change("t", NEW)], s4, List(0, true));
    var s5 := Step(s4, List(0, true));
    assert s5.callers[0] == Listed("t", mt, old', ["new"]) && s5.callers[1] == w0;
    assert upTo3 + [Change("t", NEW)] + [List(0, true)] == RACE[..5];
    RaceEnds(s, s5);
  }

  lemma RaceEnds(s: State, s5: State)
    requires Exec(s, RACE[..5]) == Some(s5) && |s5.callers| >= 2 && s5.cache == map[]
    requires s5.callers[0] == Listed("t", Some(1), Some(["old"]), ["new"])
    requires s5.callers[1] == Statted("t", Some(1), Some(["old"]), None)
    ensures Exec(s, RACE).Some? && !HitsRight(Exec(s, RACE).value)
  {
    ExecStep(s, RACE[..5], s5, Finish(0));
    var s6 := Step(s5, Finish(0));
    assert RACE[..6] == RACE[..5] + [Finish(0)] && RACE == RACE[..6] + [Check(1)];
    assert s6.cache["t"] == Entry(1, ["new"]) && s6.callers[1] == s5.callers[1];
    ExecStep(s, RACE[..6], s6, Check(1));
    assert Step(s6, Check(1)).callers[1] == Returned("t", Some(["old"]), ["new"], true, false);
  }

  /** For n callers: every answer from the cache is the listing of the file at that
      lookup's stat in every run exactly when n is at most one. */
  lemma HitsRightIff(n: nat)
    ensures (forall s, events | Init(s, n) && Exec(s, events).Some? :: HitsRight(Exec(s, events).value)) <==> n <= 1
  {
    if n >= 2 {
      RaceMisleads(n);
    } else {
      forall s, events | Init(s, n) && Exec(s, events).Some?
        ensures HitsRight(Exec(s, events).value)
      {
        if n == 1 {
          OneCallerSerial(s, events);
          SerialHitsRight(s, n, events);
        } else {
          ExecKeepsInv(s, n, events);
        }
      }
    }
  }
}
