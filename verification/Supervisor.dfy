/** The console supervisor (lib/supervisor.c): one console stream is cut into
    per-test logs, statuses and durations, line by line. */
module Supervisor {
  import opened Text

  /** A line of a log file: seconds since start, and the text. */
  datatype Entry = Entry(stamp: int, text: string)

  /** One getline: the raw line, as bytes, the clock when it was read and when it was
      logged, and what the monitor had to say if the line was a monitor command. */
  datatype Console = Console(raw: string, now: int, stamp: int, replies: seq<Entry>)

  /** Writes to the files of one test, in order. */
  datatype FileOp = OpenLog(test: string) | WriteDuration(test: string, secs: int) | CloseLog(test: string)

  const START := "========= TEST   "
  const FAILED_FIRST := "TEST FAILED\n"

  /** lib/supervisor.c strim. */
  function Trim(raw: string): string {
    if raw != [] && raw[|raw| - 1] in ['\n', '\r'] then Trim(raw[..|raw| - 1]) else raw
  }

  /** The line as every later step sees it: up to a NUL, less line ends. */
  function LineText(l: Console): string {
    Trim(CString(l.raw))
  }

  /** lib/supervisor.c test_is_starting: the name, fit for a directory. */
  function Starting(l: Console): Option<string> {
    if StartsWith(LineText(l), START) then Some(ReplaceChar(LineText(l)[|START|..], '/', '.')) else None
  }

  /** lib/supervisor.c test_is_ending. */
  predicate Ending(l: Console) {
    || StartsWith(LineText(l), "========= PASSED ")
    || StartsWith(LineText(l), "========= FAILED ")
    || StartsWith(LineText(l), "========= NOTRUN")
  }

  function Logged(l: Console): seq<Entry> {
    [Entry(l.stamp, LineText(l))] + if StartsWith(LineText(l), "QEMU_MONITOR ") then l.replies else []
  }

  /** Whether the line ends the supervisor, and with which exit code. */
  function Exit(onSuccess: bool, onFailure: bool, l: Console): Option<nat> {
    if onFailure && (StartsWith(LineText(l), "TEST FAILED") || Contains(LineText(l), "FAILED TIMEOUT")) then Some(1)
    else if onSuccess && StartsWith(LineText(l), "TEST SUCCESS") then Some(0)
    else None
  }

  // --- what the files must hold ---

  /** The last line that starts test t, or -1. */
  function LastStart(lines: seq<Console>, t: string): (i: int)
    ensures -1 <= i < |lines|
    ensures i >= 0 ==> Starting(lines[i]) == Some(t)
    ensures forall k | i < k < |lines| :: Starting(lines[k]) != Some(t)
  {
    if lines == [] then -1
    else if Starting(lines[|lines| - 1]) == Some(t) then |lines| - 1
    else LastStart(lines[..|lines| - 1], t)
  }

  predicate IsBoundary(l: Console) {
    Starting(l).Some? || Ending(l)
  }

  /** The line that closes the log opened by line i: the first one after it that
      ends a test or starts another, or |lines| if there is none. */
  function Closing(lines: seq<Console>, i: nat): (e: nat)
    requires i < |lines|
    ensures i < e <= |lines|
    ensures forall k | i < k < e :: !IsBoundary(lines[k])
    ensures e < |lines| ==> IsBoundary(lines[e])
    decreases |lines| - i
  {
    if i + 1 == |lines| || IsBoundary(lines[i + 1]) then i + 1 else Closing(lines, i + 1)
  }

  /** The status: the ending line if there was one, else the pessimistic first write. */
  function StatusText(lines: seq<Console>, i: nat): string
    requires i < |lines|
  {
    var e := Closing(lines, i);
    if e < |lines| && Ending(lines[e]) then LineText(lines[e]) + "\n" else FAILED_FIRST
  }

  /** The lines of the log: from the start through the ending line, or up to
      the next start, or to the end of the stream. */
  function Segment(lines: seq<Console>, i: nat): seq<Console>
    requires i < |lines|
  {
    var e := Closing(lines, i);
    if e < |lines| && Ending(lines[e]) then lines[i..e + 1] else lines[i..e]
  }

  function Entries(lines: seq<Console>): seq<Entry> {
    if lines == [] then [] else Entries(lines[..|lines| - 1]) + Logged(lines[|lines| - 1])
  }

  lemma {:induction false} EntriesAppend(a: seq<Console>, b: seq<Console>)
    ensures Entries(a + b) == Entries(a) + Entries(b)
  {
    hide Logged;
    if b == [] {
      assert a + b == a;
    } else {
      assert (a + b)[..|a + b| - 1] == a + b[..|b| - 1];
      EntriesAppend(a, b[..|b| - 1]);
    }
  }

  predicate InTurn(trace: seq<FileOp>, k: nat)
    requires k < |trace|
  {
    if k % 3 == 0 then trace[k].OpenLog?
    else if k % 3 == 1 then trace[k].WriteDuration? && trace[k].test == trace[k - 1].test
    else trace[k].CloseLog? && trace[k].test == trace[k - 1].test
  }

  /** Every log opened is given one duration and closed once before the next is opened. */
  predicate OneAtATime(trace: seq<FileOp>, open: bool) {
    |trace| % 3 == (if open then 1 else 0) && forall k | 0 <= k < |trace| :: InTurn(trace, k)
  }

  datatype View = View(
    current: Option<string>,
    started: int,
    open: bool,
    statuses: map<string, string>,
    logs: map<string, seq<Entry>>,
    durations: map<string, int>,
    full: seq<Entry>,
    trace: seq<FileOp>)

  /** What the files of test t hold after those lines, the statuses having been
      seeded before the run. */
  predicate TestAgrees(seed: map<string, string>, lines: seq<Console>, v: View, t: string) {
    var i := LastStart(lines, t);
    if i < 0 then
      (t in v.statuses <==> t in seed) && (t in seed ==> v.statuses[t] == seed[t]) && t !in v.logs
    else
      && t in v.statuses && v.statuses[t] == StatusText(lines, i)
      && t in v.logs && v.logs[t] == Entries(Segment(lines, i))
      && var e := Closing(lines, i);
         if e == |lines| then v.open && v.current == Some(t) && v.started == lines[i].now
         else t in v.durations && v.durations[t] == lines[e].now - lines[i].now
  }

  ghost predicate Agrees(seed: map<string, string>, lines: seq<Console>, v: View) {
    && v.full == Entries(lines)
    && (forall t :: TestAgrees(seed, lines, v, t))
    && OneAtATime(v.trace, v.open)
    && (v.open ==> v.current.Some? && v.trace[|v.trace| - 1].test == v.current.value
                   && LastStart(lines, v.current.value) >= 0
                   && Closing(lines, LastStart(lines, v.current.value)) == |lines|)
  }

  // --- one line ---

  function Begin(v: View, t: string, now: int): View {
    v.(current := Some(t), started := now, open := true, logs := v.logs[t := []],
       statuses := v.statuses[t := FAILED_FIRST], trace := v.trace + [OpenLog(t)])
  }

  function End(v: View, now: int): View
    requires v.current.Some?
  {
    var t := v.current.value;
    v.(open := false, durations := v.durations[t := now - v.started],
       trace := v.trace + [WriteDuration(t, now - v.started), CloseLog(t)])
  }

  function Log(v: View, es: seq<Entry>): View
    requires v.open ==> v.current.Some? && v.current.value in v.logs
  {
    v.(full := v.full + es,
       logs := if v.open then v.logs[v.current.value := v.logs[v.current.value] + es] else v.logs)
  }

  predicate Coherent(v: View) {
    v.open ==> v.current.Some? && v.current.value in v.logs
  }

  function StepView(v: View, l: Console): (w: View)
    requires Coherent(v)
    ensures Coherent(w)
  {
    var start := Starting(l);
    var v1 := if v.open && start.Some? then End(v, l.now) else v;
    var v2 := if start.Some? then Begin(v1, start.value, l.now) else v1;
    var v3 := Log(v2, Logged(l));
    if v3.open && Ending(l) then
      End(v3.(statuses := v3.statuses[v3.current.value := LineText(l) + "\n"]), l.now)
    else v3
  }

  lemma {:induction false} ClosingExtends(lines: seq<Console>, l: Console, i: nat)
    requires i < |lines|
    ensures Closing(lines, i) < |lines| ==> Closing(lines + [l], i) == Closing(lines, i)
    ensures Closing(lines, i) == |lines| ==> Closing(lines + [l], i) == if IsBoundary(l) then |lines| else |lines| + 1
    decreases |lines| - i
  {
    if i + 1 < |lines| && !IsBoundary(lines[i + 1]) {
      ClosingExtends(lines, l, i + 1);
    }
  }

  lemma StartOrEnd(l: Console)
    ensures !(Starting(l).Some? && Ending(l))
  {
    if Starting(l).Some? {
      assert LineText(l)[10] == START[10];
    }
  }

  lemma LastStartExtends(lines: seq<Console>, l: Console, t: string)
    ensures LastStart(lines + [l], t) == if Starting(l) == Some(t) then |lines| else LastStart(lines, t)
  {
    assert (lines + [l])[..|lines|] == lines;
  }

  lemma EntriesOne(l: Console)
    ensures Entries([l]) == Logged(l)
  {
    assert [l][..0] == [] && Entries([]) == [];
  }

  /** A closed log stays as it is. */
  lemma ClosedExtends(lines: seq<Console>, l: Console, i: nat)
    requires i < |lines| && Closing(lines, i) < |lines|
    ensures Segment(lines + [l], i) == Segment(lines, i) && StatusText(lines + [l], i) == StatusText(lines, i)
  {
    hide LineText, Ending, Starting, Closing, Trim;
    var longer, e := lines + [l], Closing(lines, i);
    ClosingExtends(lines, l, i);
    SliceOfLonger(lines, l, i, e);
    SliceOfLonger(lines, l, i, e + 1);
  }

  lemma SliceOfLonger<T>(s: seq<T>, x: T, i: nat, j: nat)
    requires i <= j <= |s|
    ensures (s + [x])[i..j] == s[i..j]
  {
  }

  /** A start closes an open one before it. */
  lemma OpenMeetsStart(lines: seq<Console>, l: Console, i: nat)
    requires i < |lines| && Closing(lines, i) == |lines| && Starting(l).Some?
    ensures Segment(lines + [l], i) == Segment(lines, i) && StatusText(lines + [l], i) == FAILED_FIRST
  {
    hide LineText, Ending, Starting;
    var longer := lines + [l];
    ClosingExtends(lines, l, i);
    StartOrEnd(l);
    assert longer[i..|lines|] == lines[i..|lines|] && longer[|lines|] == l;
  }

  /** Any other line goes into it. */
  lemma OpenTakesLine(lines: seq<Console>, l: Console, i: nat)
    requires i < |lines| && Closing(lines, i) == |lines| && Starting(l).None?
    ensures Segment(lines + [l], i) == Segment(lines, i) + [l]
    ensures StatusText(lines + [l], i) == if Ending(l) then LineText(l) + "\n" else FAILED_FIRST
  {
    hide LineText, Ending, Starting;
    var longer := lines + [l];
    ClosingExtends(lines, l, i);
    assert longer[i..|lines| + 1] == lines[i..|lines|] + [l] && longer[|lines|] == l;
  }

  lemma SegmentExtends(lines: seq<Console>, l: Console, i: nat)
    requires i < |lines|
    ensures Closing(lines, i) == |lines| ==> StatusText(lines, i) == FAILED_FIRST
    ensures Closing(lines, i) < |lines| ==>
              Segment(lines + [l], i) == Segment(lines, i) && StatusText(lines + [l], i) == StatusText(lines, i)
    ensures Closing(lines, i) == |lines| && Starting(l).Some? ==>
              Segment(lines + [l], i) == Segment(lines, i) && StatusText(lines + [l], i) == FAILED_FIRST
    ensures Closing(lines, i) == |lines| && Starting(l).None? ==>
              Entries(Segment(lines + [l], i)) == Entries(Segment(lines, i)) + Logged(l)
              && StatusText(lines + [l], i) == if Ending(l) then LineText(l) + "\n" else FAILED_FIRST
  {
    hide LineText, Ending, Starting, Logged, Segment, Entries;
    if Closing(lines, i) < |lines| {
      ClosedExtends(lines, l, i);
    } else if Starting(l).Some? {
      OpenMeetsStart(lines, l, i);
    } else {
      OpenTakesLine(lines, l, i);
      EntriesAppend(Segment(lines, i), [l]);
      EntriesOne(l);
    }
  }

  /** The start line of t opens a new log and forgets whatever t held before. */
  lemma StartStep(seed: map<string, string>, lines: seq<Console>, v: View, l: Console, t: string)
    requires Coherent(v) && Starting(l) == Some(t)
    ensures TestAgrees(seed, lines + [l], StepView(v, l), t)
  {
    hide LineText, Trim;
    var longer := lines + [l];
    StartOrEnd(l);
    LastStartExtends(lines, l, t);
    assert Segment(longer, |lines|) == [l];
    EntriesOne(l);
    assert [] + Logged(l) == Logged(l);
  }

  lemma BoundaryIs(l: Console)
    ensures IsBoundary(l) <==> Starting(l).Some? || Ending(l)
  {
  }

  /** A line that does not start t leaves t's files alone, unless t's log is open. */
  lemma OtherStep(seed: map<string, string>, lines: seq<Console>, v: View, l: Console, t: string)
    requires Agrees(seed, lines, v) && Coherent(v) && Starting(l) != Some(t)
    ensures TestAgrees(seed, lines + [l], StepView(v, l), t)
  {
    hide LineText, Trim, StatusText, Segment, Entries, Logged, Ending, Starting, OneAtATime;
    StartOrEnd(l);
    LastStartExtends(lines, l, t);
    assert TestAgrees(seed, lines, v, t);
    var i := LastStart(lines, t);
    var w := StepView(v, l);
    hide LastStart, InTurn, IsBoundary;
    if i < 0 {
      assert v.open ==> v.current.value != t;
      assert t !in w.logs;
    } else {
      ClosingExtends(lines, l, i);
      SegmentExtends(lines, l, i);
      BoundaryIs(l);
      if Closing(lines, i) < |lines| {
        assert !(v.open && v.current == Some(t));
      }
    }
  }

  lemma TestStep(seed: map<string, string>, lines: seq<Console>, v: View, l: Console, t: string)
    requires Agrees(seed, lines, v) && Coherent(v)
    ensures TestAgrees(seed, lines + [l], StepView(v, l), t)
  {
    if Starting(l) == Some(t) {
      StartStep(seed, lines, v, l, t);
    } else {
      OtherStep(seed, lines, v, l, t);
    }
  }

  lemma TraceEnd(trace: seq<FileOp>, t: string, secs: int)
    requires OneAtATime(trace, true) && trace[|trace| - 1].test == t
    ensures OneAtATime(trace + [WriteDuration(t, secs), CloseLog(t)], false)
  {
    var longer := trace + [WriteDuration(t, secs), CloseLog(t)];
    forall k | 0 <= k < |longer|
      ensures InTurn(longer, k)
    {
      assert k < |trace| ==> InTurn(trace, k);
    }
  }

  lemma TraceBegin(trace: seq<FileOp>, t: string)
    requires OneAtATime(trace, false)
    ensures OneAtATime(trace + [OpenLog(t)], true)
  {
    var longer := trace + [OpenLog(t)];
    forall k | 0 <= k < |longer|
      ensures InTurn(longer, k)
    {
      assert k < |trace| ==> InTurn(trace, k);
    }
  }

  lemma TraceStep(v: View, l: Console)
    requires Coherent(v) && OneAtATime(v.trace, v.open)
    requires v.open ==> v.trace[|v.trace| - 1].test == v.current.value
    ensures var w := StepView(v, l);
            OneAtATime(w.trace, w.open) && (w.open ==> w.trace[|w.trace| - 1].test == w.current.value)
  {
    hide OneAtATime, Starting, Ending, LineText, Logged;
    var start := Starting(l);
    if v.open && start.Some? {
      TraceEnd(v.trace, v.current.value, l.now - v.started);
    }
    var v1 := if v.open && start.Some? then End(v, l.now) else v;
    if start.Some? {
      TraceBegin(v1.trace, start.value);
    }
    var v2 := if start.Some? then Begin(v1, start.value, l.now) else v1;
    if v2.open && Ending(l) {
      TraceEnd(v2.trace, v2.current.value, l.now - v2.started);
    }
  }

  lemma StepAgrees(seed: map<string, string>, lines: seq<Console>, v: View, l: Console)
    requires Agrees(seed, lines, v) && Coherent(v)
    ensures Agrees(seed, lines + [l], StepView(v, l))
  {
    var longer, w := lines + [l], StepView(v, l);
    EntriesAppend(lines, [l]);
    assert [l][..0] == [] && Entries([l]) == [] + Logged(l) == Logged(l);
    forall t
      ensures TestAgrees(seed, longer, w, t)
    {
      TestStep(seed, lines, v, l, t);
    }
    TraceStep(v, l);
    if w.open {
      var t := w.current.value;
      LastStartExtends(lines, l, t);
      if Starting(l) != Some(t) {
        ClosingExtends(lines, l, LastStart(lines, t));
      }
    }
  }

  // --- the process ---

  class Supervisor {
    const onSuccess: bool
    const onFailure: bool
    var current: Option<string>
    var started: int
    var logOpen: bool
    var statuses: map<string, string>
    var logs: map<string, seq<Entry>>
    var durations: map<string, int>
    var fullLog: seq<Entry>
    ghost var trace: seq<FileOp>

    ghost function State(): View
      reads this
    {
      View(current, started, logOpen, statuses, logs, durations, fullLog, trace)
    }

    constructor (onSuccess: bool, onFailure: bool, seed: map<string, string>)
      ensures this.onSuccess == onSuccess && this.onFailure == onFailure
      ensures Coherent(State()) && Agrees(seed, [], State())
    {
      this.onSuccess, this.onFailure := onSuccess, onFailure;
      current, started, logOpen := None, 0, false;
      statuses, logs, durations := seed, map[], map[];
      fullLog, trace := [], [];
    }

    /** lib/supervisor.c log_line, for each entry. */
    method LogLines(es: seq<Entry>)
      requires Coherent(State())
      modifies this`logs, this`fullLog
      ensures State() == Log(old(State()), es)
    {
      assert logOpen ==> logs[current.value] + es[..0] == logs[current.value];
      for k := 0 to |es|
        invariant Coherent(State()) && fullLog == old(fullLog) + es[..k]
        invariant !logOpen ==> logs == old(logs)
        invariant logOpen ==> logs == old(logs)[current.value := old(logs[current.value]) + es[..k]]
      {
        assert es[..k + 1] == es[..k] + [es[k]];
        if logOpen {
          assert old(logs[current.value]) + es[..k] + [es[k]] == old(logs[current.value]) + es[..k + 1];
          logs := logs[current.value := logs[current.value] + [es[k]]];
        }
        fullLog := fullLog + [es[k]];
      }
      assert es[..|es|] == es;
    }

    /** lib/supervisor.c test_start. */
    method TestStart(t: string, now: int)
      modifies this
      ensures State() == Begin(old(State()), t, now)
    {
      current, started, logOpen := Some(t), now, true;
      logs := logs[t := []];
      statuses := statuses[t := FAILED_FIRST];
      trace := trace + [OpenLog(t)];
    }

    /** lib/supervisor.c test_end. */
    method TestEnd(now: int)
      requires current.Some?
      modifies this
      ensures State() == End(old(State()), now)
    {
      durations := durations[current.value := now - started];
      logOpen := false;
      trace := trace + [WriteDuration(current.value, now - started), CloseLog(current.value)];
    }

    /** The body of the line loop in lib/supervisor.c main. */
    method ProcessLine(l: Console)
      requires Coherent(State())
      modifies this
      ensures Coherent(State()) && State() == StepView(old(State()), l)
    {
      var newTest := Starting(l);
      if logOpen && newTest.Some? {
        TestEnd(l.now);
      }
      if newTest.Some? {
        TestStart(newTest.value, l.now);
      }
      LogLines(Logged(l));
      if logOpen && Ending(l) {
        statuses := statuses[current.value := LineText(l) + "\n"];
        TestEnd(l.now);
      }
    }

    /** A failure line, by what it says, that the loop is to stop at. */
    predicate StopsFailed(l: Console) {
      onFailure && (StartsWith(LineText(l), "TEST FAILED") || Contains(LineText(l), "FAILED TIMEOUT"))
    }

    /** The line loop: n lines are processed before a stop line or the end of the
        stream, and then every file holds what those lines say. */
    method Run(lines: seq<Console>, ghost seed: map<string, string>) returns (n: nat, ret: nat)
      requires Coherent(State()) && Agrees(seed, [], State())
      modifies this
      ensures n <= |lines| && Agrees(seed, lines[..n], State())
      ensures forall k | 0 <= k < n - 1 ::
                !StopsFailed(lines[k]) && !(onSuccess && StartsWith(LineText(lines[k]), "TEST SUCCESS"))
      ensures n < |lines| ==>
                n > 0 && (StopsFailed(lines[n - 1])
                          || (onSuccess && StartsWith(LineText(lines[n - 1]), "TEST SUCCESS")))
      ensures ret == if n > 0 && onSuccess && StartsWith(LineText(lines[n - 1]), "TEST SUCCESS")
                        && !StopsFailed(lines[n - 1]) then 0 else 1
    {
      hide Agrees, StepView, Starting, Ending, LineText, Coherent, Contains;
      n, ret := 0, 1;
      assert lines[..0] == [];
      while n < |lines|
        invariant 0 <= n <= |lines| && ret == 1
        invariant Coherent(State()) && Agrees(seed, lines[..n], State())
        invariant forall k | 0 <= k < n :: Exit(onSuccess, onFailure, lines[k]).None?
      {
        StepAgrees(seed, lines[..n], State(), lines[n]);
        assert lines[..n + 1] == lines[..n] + [lines[n]];
        ProcessLine(lines[n]);
        n := n + 1;
        var exit := Exit(onSuccess, onFailure, lines[n - 1]);
        if exit.Some? {
          ret := exit.value;
          return;
        }
      }
    }
  }

  // --- the files, from the text of the lines ---

  /** What is left of a line: up to a NUL and the line ends before it. */
  lemma {:induction false} LineTextIs(l: Console) returns (n: nat, e: nat)
    ensures n <= e <= |l.raw| && LineText(l) == l.raw[..n]
    ensures n > 0 ==> l.raw[n - 1] !in ['\n', '\r']
    ensures forall i | n <= i < e :: l.raw[i] in ['\n', '\r']
    ensures (e < |l.raw| ==> l.raw[e] == NUL) && forall i | 0 <= i < e :: l.raw[i] != NUL
  {
    e := CStringIs(l.raw);
    n := TrimIs(l.raw[..e]);
    assert l.raw[..e][..n] == l.raw[..n];
  }

  lemma {:induction false} CStringIs(s: string) returns (e: nat)
    ensures e <= |s| && CString(s) == s[..e] && forall i | 0 <= i < e :: s[i] != NUL
    ensures e < |s| ==> s[e] == NUL
  {
    if s == [] || s[0] == NUL {
      e := 0;
    } else {
      var d := CStringIs(s[1..]);
      e := d + 1;
      assert s[..e] == [s[0]] + s[1..][..d];
    }
  }

  lemma {:induction false} TrimIs(s: string) returns (n: nat)
    ensures n <= |s| && Trim(s) == s[..n] && (n > 0 ==> s[n - 1] !in ['\n', '\r'])
    ensures forall i | n <= i < |s| :: s[i] in ['\n', '\r']
  {
    if s != [] && s[|s| - 1] in ['\n', '\r'] {
      n := TrimIs(s[..|s| - 1]);
    } else {
      n := |s|;
    }
  }

  /** The line starts a test of that name, as it stands in file names. */
  predicate Starts(l: Console, t: string) {
    && StartsWith(LineText(l), "========= TEST   ")
    && |LineText(l)| == 17 + |t|
    && forall i | 0 <= i < |t| :: t[i] == if LineText(l)[17 + i] == '/' then '.' else LineText(l)[17 + i]
  }

  /** The line ends a test, or starts one. */
  predicate Ends(l: Console) {
    || StartsWith(LineText(l), "========= PASSED ")
    || StartsWith(LineText(l), "========= FAILED ")
    || StartsWith(LineText(l), "========= NOTRUN")
  }

  lemma StartsIs(l: Console, t: string)
    ensures Starting(l) == Some(t) <==> Starts(l, t)
  {
    hide LineText;
    if Starts(l, t) {
      assert ReplaceChar(LineText(l)[17..], '/', '.') == t;
    }
  }

  lemma {:induction false} LastStartIs(lines: seq<Console>, t: string, i: nat)
    requires i < |lines| && Starts(lines[i], t) && forall k | i < k < |lines| :: !Starts(lines[k], t)
    ensures LastStart(lines, t) == i
  {
    hide Starts;
    var last := LastStart(lines, t);
    StartsIs(lines[i], t);
    if last > i {
      StartsIs(lines[last], t);
    }
  }

  /** The files of a test that line i started last and line e ended, with nothing between
      that ends or starts a test: the status is line e, the duration the time between, the
      log what was logged of these lines. */
  lemma EndedFiles(seed: map<string, string>, lines: seq<Console>, v: View, t: string, i: nat, e: nat)
    requires Agrees(seed, lines, v) && i < e < |lines|
    requires Starts(lines[i], t) && forall k | i < k < |lines| :: !Starts(lines[k], t)
    requires Ends(lines[e])
    requires forall k | i < k < e :: !Ends(lines[k]) && !StartsWith(LineText(lines[k]), "========= TEST   ")
    ensures t in v.statuses && v.statuses[t] == LineText(lines[e]) + "\n"
    ensures t in v.durations && v.durations[t] == lines[e].now - lines[i].now
    ensures t in v.logs && v.logs[t] == Entries(lines[i..e + 1])
  {
    hide LineText, Starts;
    LastStartIs(lines, t, i);
    assert TestAgrees(seed, lines, v, t);
    assert Closing(lines, i) == e;
  }

  /** A test that is cut off by the next start, or by the end of the stream, has failed. */
  lemma CutOffFiles(seed: map<string, string>, lines: seq<Console>, v: View, t: string, i: nat, e: nat)
    requires Agrees(seed, lines, v) && i < e <= |lines|
    requires Starts(lines[i], t) && forall k | i < k < |lines| :: !Starts(lines[k], t)
    requires e < |lines| ==> StartsWith(LineText(lines[e]), "========= TEST   ")
    requires forall k | i < k < e :: !Ends(lines[k]) && !StartsWith(LineText(lines[k]), "========= TEST   ")
    ensures t in v.statuses && v.statuses[t] == "TEST FAILED\n"
    ensures t in v.logs && v.logs[t] == Entries(lines[i..e])
    ensures e < |lines| ==> t in v.durations && v.durations[t] == lines[e].now - lines[i].now
  {
    hide LineText, Starts;
    LastStartIs(lines, t, i);
    assert TestAgrees(seed, lines, v, t);
    assert Closing(lines, i) == e;
    if e < |lines| {
      StartOrEnd(lines[e]);
    }
  }

  /** Every line is logged at its place, and behind a monitor command the replies. */
  lemma LinesLogged(lines: seq<Console>, k: nat)
    requires k < |lines|
    ensures var text, log := LineText(lines[k]), Entries(lines);
            var at := |Entries(lines[..k])|;
            var replies := if StartsWith(text, "QEMU_MONITOR ") then lines[k].replies else [];
            && at + |replies| < |log| && log[at] == Entry(lines[k].stamp, text)
            && log[at + 1..at + 1 + |replies|] == replies && |Entries(lines[..k + 1])| == at + 1 + |replies|
  {
    hide LineText;
    EntriesSplit(lines, k, k + 1);
    assert lines[k..k + 1] == [lines[k]];
    hide Entries;
    EntriesOne(lines[k]);
    assert lines[..k + 1] == lines[..k] + [lines[k]];
    EntriesAppend(lines[..k], [lines[k]]);
  }

  /** A test's log is a stretch of the full log: what came before its start, the
      log itself, what came after. */
  lemma LogIsSegmentOfFullLog(seed: map<string, string>, lines: seq<Console>, v: View, t: string)
    requires Agrees(seed, lines, v) && LastStart(lines, t) >= 0
    ensures t in v.logs
    ensures var i := LastStart(lines, t);
            v.full == Entries(lines[..i]) + v.logs[t] + Entries(lines[i + |Segment(lines, i)|..])
  {
    hide Entries, StatusText, OneAtATime, LastStart, Starting, Ending, IsBoundary, LineText;
    assert TestAgrees(seed, lines, v, t);
    var i := LastStart(lines, t);
    EntriesSplit(lines, i, i + |Segment(lines, i)|);
  }

  lemma EntriesSplit(lines: seq<Console>, i: nat, j: nat)
    requires i <= j <= |lines|
    ensures Entries(lines) == Entries(lines[..i]) + Entries(lines[i..j]) + Entries(lines[j..])
  {
    hide *;
    Rejoins(lines, i, j);
    EntriesAppend(lines[..i], lines[i..j]);
    EntriesAppend(lines[..i] + lines[i..j], lines[j..]);
  }

  lemma Rejoins<T>(s: seq<T>, i: nat, j: nat)
    requires i <= j <= |s|
    ensures s[..i] + s[i..j] + s[j..] == s
  {
  }
}
