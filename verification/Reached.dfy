/** From the guest's console to the retry decision: what the supervisor writes
    (lib/supervisor.c) read back by the daemon (src/lib.rs, src/bin/ci-daemon.rs).
    A seeded subtest is retried exactly when no VM run reached it. */
module Reached {
  import opened Text
  import opened Status
  import opened Jobs
  import opened Supervisor
  import opened Utf8
  import Batch

  const MARK := "IN PROGRESS\n"

  // --- reading back what was written ---

  lemma ContainsPrefix(s: string, word: string, i: nat)
    requires i + |word| <= |s| && s[i..i + |word|] == word
    ensures Contains(s, word)
  {
    assert OccursAt(s, word, i);
  }

  lemma NoOccurrence(s: string, word: string)
    requires |word| >= 2 && forall i | 0 <= i <= |s| - |word| :: s[i] != word[0] || s[i + 1] != word[1]
    ensures !Contains(s, word)
  {
    forall i | 0 <= i <= |s|
      ensures !OccursAt(s, word, i)
    {
      assert i + |word| <= |s| ==> s[i..i + |word|][0] == s[i] && s[i..i + |word|][1] == s[i + 1];
    }
  }

  lemma FailedFirstWords()
    ensures !Contains(FAILED_FIRST, "IN PROGRESS") && !Contains(FAILED_FIRST, "PASSED")
    ensures Contains(FAILED_FIRST, "FAILED")
  {
    NoOccurrence(FAILED_FIRST, "IN PROGRESS");
    NoOccurrence(FAILED_FIRST, "PASSED");
    ContainsPrefix(FAILED_FIRST, "FAILED", 5);
  }

  lemma FailedFirstIsFailed()
    ensures ReadStatus(FAILED_FIRST) == Some(Failed) && !Contains(FAILED_FIRST, "IN PROGRESS")
  {
    hide Contains, IsUtf8;
    AsciiIsUtf8(FAILED_FIRST);
    FailedFirstWords();
  }

  lemma MarkIsOpen()
    ensures ReadStatus(MARK) == Some(Inprogress)
  {
    hide Contains, IsUtf8;
    AsciiIsUtf8(MARK);
    ContainsPrefix(MARK, "IN PROGRESS", 0);
  }

  /** A word without a newline is in the status file exactly when it is in the line. */
  lemma ContainsLine(text: string, word: string)
    requires word != [] && '\n' !in word
    ensures Contains(text + "\n", word) <==> Contains(text, word)
  {
    forall i | 0 <= i <= |text|
      ensures OccursAt(text + "\n", word, i) <==> OccursAt(text, word, i)
    {
      if i + |word| == |text| + 1 {
        assert (text + "\n")[i..i + |word|][|word| - 1] == '\n';
      } else if i + |word| <= |text| {
        assert (text + "\n")[i..i + |word|] == text[i..i + |word|];
      }
    }
  }

  /** How the daemon reads an ending line back. */
  function ReadLine(text: string): TestStatus {
    if Contains(text, "IN PROGRESS") then Inprogress
    else if Contains(text, "PASSED") then Passed
    else if Contains(text, "FAILED") then Failed
    else Notrun
  }

  lemma WordInPrefix(text: string, prefix: string, word: string, i: nat)
    requires StartsWith(text, prefix) && OccursAt(prefix, word, i)
    ensures Contains(text, word)
  {
    assert text[i..i + |word|] == prefix[i..i + |word|];
    ContainsPrefix(text, word, i);
  }

  /** An ending line holds the word it starts with. */
  lemma EndingWord(l: Console)
    ensures StartsWith(LineText(l), "========= PASSED ") ==> Contains(LineText(l), "PASSED")
    ensures StartsWith(LineText(l), "========= FAILED ") ==> Contains(LineText(l), "FAILED")
    ensures StartsWith(LineText(l), "========= NOTRUN") ==> Contains(LineText(l), "NOTRUN")
  {
    hide LineText, Contains;
    assert OccursAt("========= PASSED ", "PASSED", 10);
    assert OccursAt("========= FAILED ", "FAILED", 10);
    assert OccursAt("========= NOTRUN", "NOTRUN", 10);
    hide OccursAt;
    var text := LineText(l);
    if StartsWith(text, "========= PASSED ") {
      WordInPrefix(text, "========= PASSED ", "PASSED", 10);
    }
    if StartsWith(text, "========= FAILED ") {
      WordInPrefix(text, "========= FAILED ", "FAILED", 10);
    }
    if StartsWith(text, "========= NOTRUN") {
      WordInPrefix(text, "========= NOTRUN", "NOTRUN", 10);
    }
  }

  lemma StatusPlain(text: string)
    requires StartsWith(text, "=")
    ensures text + "\n" !in ["In progress", "Passed", "Failed", "Not run", "Failed to run", "Unknown", ""]
  {
    assert (text + "\n")[0] == '=';
  }

  lemma EndingReads(l: Console)
    requires Ending(l)
    ensures ReadStatus(LineText(l) + "\n") == if IsUtf8(LineText(l)) then Some(ReadLine(LineText(l))) else None
  {
    hide LineText, Contains, IsUtf8;
    var text := LineText(l);
    EndingWord(l);
    assert text[..1] == "=";
    StatusPlain(text);
    AsciiAtEnd(text, '\n');
    ContainsLine(text, "IN PROGRESS");
    ContainsLine(text, "PASSED");
    ContainsLine(text, "FAILED");
    ContainsLine(text, "NOTRUN");
  }

  /** The verdict read is the verdict written exactly when the line can be read as text
      and names no verdict that is looked for earlier. */
  lemma VerdictReadIff(l: Console)
    requires Ending(l)
    ensures StartsWith(LineText(l), "========= PASSED ") ==>
              (ReadStatus(LineText(l) + "\n") == Some(Passed) <==>
                IsUtf8(LineText(l)) && !Contains(LineText(l), "IN PROGRESS"))
    ensures StartsWith(LineText(l), "========= FAILED ") ==>
              (ReadStatus(LineText(l) + "\n") == Some(Failed) <==>
                IsUtf8(LineText(l)) && !Contains(LineText(l), "IN PROGRESS") && !Contains(LineText(l), "PASSED"))
    ensures StartsWith(LineText(l), "========= NOTRUN") ==>
              (ReadStatus(LineText(l) + "\n") == Some(Notrun) <==>
                IsUtf8(LineText(l)) && !Contains(LineText(l), "IN PROGRESS") && !Contains(LineText(l), "PASSED")
                && !Contains(LineText(l), "FAILED"))
  {
    hide LineText, Contains, ReadStatus, IsUtf8;
    EndingReads(l);
    EndingWord(l);
  }

  lemma {:induction false} NoNul(s: string)
    requires NUL !in s && (s != [] ==> s[|s| - 1] !in ['\n', '\r'])
    ensures Trim(CString(s + "\n")) == s
  {
    assert NUL !in s + "\n" && CString(s + "\n") == s + "\n";
    assert (s + "\n")[..|s|] == s;
    assert Trim(s) == s;
  }

  lemma FailedPassed(text: string)
    requires text == "========= FAILED PASSED"
    ensures NUL !in text && StartsWith(text, "========= FAILED ") && IsUtf8(text)
    ensures Contains(text, "PASSED") && !Contains(text, "IN PROGRESS")
  {
    FailedPassedAscii(text);
    FailedPassedWords(text);
  }

  lemma FailedPassedAscii(text: string)
    requires text == "========= FAILED PASSED"
    ensures NUL !in text && IsUtf8(text)
  {
    hide IsUtf8;
    assert forall i | 0 <= i < |text| :: 0 < text[i] as int < 0x80;
    AsciiIsUtf8(text);
  }

  lemma FailedPassedWords(text: string)
    requires text == "========= FAILED PASSED"
    ensures StartsWith(text, "========= FAILED ")
    ensures Contains(text, "PASSED") && !Contains(text, "IN PROGRESS")
  {
    hide Contains;
    assert text[..17] == "========= FAILED ";
    assert text[17..] == "PASSED" && text[17..23] == text[17..];
    ContainsPrefix(text, "PASSED", 17);
    NoOccurrence(text, "IN PROGRESS");
  }

  lemma PlainLine(end: Console, text: string)
    requires end.raw == text + "\n" && NUL !in text && (text != [] ==> text[|text| - 1] !in ['\n', '\r'])
    ensures LineText(end) == text
    ensures StartsWith(text, "========= PASSED ") || StartsWith(text, "========= FAILED ") ==> Ending(end)
  {
    NoNul(text);
  }

  /** A failed test whose name is PASSED is read as passed. */
  lemma FailureReadAsPassed(now: int, stamp: int)
    ensures var l := Console("========= FAILED PASSED" + "\n", now, stamp, []);
            Ending(l) && ReadStatus(LineText(l) + "\n") == Some(Passed)
  {
    hide LineText, Contains, ReadStatus, IsUtf8, StartsWith, Ending;
    var text := "========= FAILED PASSED";
    var l := Console(text + "\n", now, stamp, []);
    FailedPassed(text);
    assert text[|text| - 1] == 'D';
    PlainLine(l, text);
    EndingReads(l);
  }

  // --- one VM run ---

  /** The run saw no start of t, or the status it left for t cannot be read or reads as
      in progress. */
  predicate Unreached(lines: seq<Console>, t: string) {
    var i := LastStart(lines, t);
    i < 0 || !IsUtf8(StatusText(lines, i)) || Contains(StatusText(lines, i), "IN PROGRESS")
  }

  /** A started test is always left with a status the daemon can decide on, unless its
      ending line says in progress or is no text. */
  lemma StatusDecides(lines: seq<Console>, i: nat)
    requires i < |lines|
    ensures IsOpen(StatusText(lines, i)) <==>
            !IsUtf8(StatusText(lines, i)) || Contains(StatusText(lines, i), "IN PROGRESS")
    ensures !IsOpen(StatusText(lines, i)) ==> IsDone(ReadStatus(StatusText(lines, i)).value)
  {
    hide LineText, Contains, IsUtf8, FromStr;
    FailedFirstIsFailed();
    var e := Closing(lines, i);
    if e < |lines| && Ending(lines[e]) {
      EndingReads(lines[e]);
      AsciiAtEnd(LineText(lines[e]), '\n');
      ContainsLine(LineText(lines[e]), "IN PROGRESS");
    }
  }

  // --- the runs of one batch ---

  /** The status files after each VM run of the batch: they start as the marks, and
      each run leaves what its supervisor wrote (see Supervisor.Run). */
  ghost predicate Chain(marks: map<string, string>, streams: nat -> seq<Console>, files: nat -> map<string, string>) {
    && files(0) == marks
    && forall i: nat :: Wrote(files(i), streams(i), files(i + 1))
  }

  ghost predicate Wrote(before: map<string, string>, lines: seq<Console>, after: map<string, string>) {
    exists v: View :: Agrees(before, lines, v) && v.statuses == after
  }

  /** The pulled result directories: <basename>.<test>/status, where it can be read. */
  ghost predicate Pulled(onDisk: TestResultsMap, basename: string, files: map<string, string>) {
    forall t: string :: ReadsAs(onDisk, basename + "." + t, files, t)
  }

  predicate ReadsAs(onDisk: TestResultsMap, key: string, files: map<string, string>, t: string) {
    && (key in onDisk <==> t in files && ReadStatus(files[t]).Some?)
    && (key in onDisk ==> Some(onDisk[key].status) == ReadStatus(files[t]))
  }

  function Flat(subtest: string): string {
    ReplaceChar(subtest, '/', '.')
  }

  function Basename(p: JobKey): string {
    ResultBasename(p.test, p.kernel, p.env)
  }

  /** The worker of a batch: its marks, its consoles, its files. */
  ghost predicate Worker(w: Batch.World, p: JobKey, subtests: seq<string>, streams: nat -> seq<Console>,
                         files: nat -> map<string, string>) {
    && Chain(map i | 0 <= i < |subtests| :: Flat(subtests[i]) := MARK, streams, files)
    && forall i: nat :: Pulled(w.turns(i).onDisk, Basename(p), files(i + 1))
  }

  // --- there is one for any consoles ---

  /** The files after those lines. */
  function ViewAfter(seed: map<string, string>, lines: seq<Console>): (v: View)
    ensures Coherent(v)
  {
    if lines == [] then View(None, 0, false, seed, map[], map[], [], [])
    else StepView(ViewAfter(seed, lines[..|lines| - 1]), lines[|lines| - 1])
  }

  lemma {:induction false} ViewAgrees(seed: map<string, string>, lines: seq<Console>)
    ensures Agrees(seed, lines, ViewAfter(seed, lines))
  {
    if lines != [] {
      var init, last := lines[..|lines| - 1], lines[|lines| - 1];
      hide Agrees, StepView;
      ViewAgrees(seed, init);
      StepAgrees(seed, init, ViewAfter(seed, init), last);
      assert lines == init + [last];
    }
  }

  function FilesAfter(marks: map<string, string>, streams: nat -> seq<Console>, n: nat): map<string, string> {
    if n == 0 then marks else ViewAfter(FilesAfter(marks, streams, n - 1), streams(n - 1)).statuses
  }

  /** The test a directory is of. */
  function TestOf(basename: string, key: string): string {
    if |key| <= |basename| then "" else key[|basename| + 1..]
  }

  predicate Readable(files: map<string, string>, t: string) {
    t in files && ReadStatus(files[t]).Some?
  }

  function OnDisk(basename: string, files: map<string, string>): TestResultsMap {
    var keys := set t | t in files && Readable(files, t) :: basename + "." + t;
    map k | k in keys && Readable(files, TestOf(basename, k)) ::
      TestResult(ReadStatus(files[TestOf(basename, k)]).value, 0, 0)
  }

  lemma TestOfKey(basename: string, t: string)
    ensures TestOf(basename, basename + "." + t) == t
  {
  }

  lemma PulledOnDisk(basename: string, files: map<string, string>)
    ensures Pulled(OnDisk(basename, files), basename, files)
  {
    hide ReadStatus, TestOf;
    forall t: string
      ensures ReadsAs(OnDisk(basename, files), basename + "." + t, files, t)
    {
      TestOfKey(basename, t);
    }
  }

  function WorldOf(basename: string, marks: map<string, string>, streams: nat -> seq<Console>): Batch.World {
    Batch.World("url", [], (i: nat) =>
      Batch.Turn(true, true, OnDisk(basename, FilesAfter(marks, streams, i + 1)), true), 0, 0)
  }

  lemma WroteOne(marks: map<string, string>, streams: nat -> seq<Console>, i: nat)
    ensures Wrote(FilesAfter(marks, streams, i), streams(i), FilesAfter(marks, streams, i + 1))
  {
    hide Agrees, ViewAfter;
    ViewAgrees(FilesAfter(marks, streams, i), streams(i));
  }

  lemma FilesChain(marks: map<string, string>, streams: nat -> seq<Console>)
    ensures Chain(marks, streams, (i: nat) => FilesAfter(marks, streams, i))
  {
    hide Wrote;
    var files := (i: nat) => FilesAfter(marks, streams, i);
    forall i: nat
      ensures Wrote(files(i), streams(i), files(i + 1))
    {
      WroteOne(marks, streams, i);
    }
  }

  lemma AllPulled(basename: string, marks: map<string, string>, streams: nat -> seq<Console>)
    ensures forall i: nat ::
              Pulled(WorldOf(basename, marks, streams).turns(i).onDisk, basename, FilesAfter(marks, streams, i + 1))
  {
    hide Pulled, OnDisk, FilesAfter;
    forall i: nat
      ensures Pulled(WorldOf(basename, marks, streams).turns(i).onDisk, basename, FilesAfter(marks, streams, i + 1))
    {
      PulledOnDisk(basename, FilesAfter(marks, streams, i + 1));
    }
  }

  /** Whatever the consoles say, some world is that of a worker with those consoles. */
  lemma AnyConsoles(p: JobKey, subtests: seq<string>, streams: nat -> seq<Console>)
    ensures exists w, files :: Worker(w, p, subtests, streams, files)
  {
    var marks := map i | 0 <= i < |subtests| :: Flat(subtests[i]) := MARK;
    var base := Basename(p);
    hide Wrote, Pulled, ReadsAs, OnDisk, Flat, Basename, FilesAfter, Chain;
    var files, w := (i: nat) => FilesAfter(marks, streams, i), WorldOf(base, marks, streams);
    FilesChain(marks, streams);
    AllPulled(base, marks, streams);
    assert Worker(w, p, subtests, streams, files);
  }

  /** No run so far reached t. */
  ghost predicate NeverReached(streams: nat -> seq<Console>, n: nat, t: string) {
    forall i | 0 <= i < n :: Unreached(streams(i), t)
  }

  lemma OneRun(before: map<string, string>, lines: seq<Console>, after: map<string, string>, t: string)
    requires Wrote(before, lines, after) && t in before && IsOpen(before[t])
    ensures t in after && (IsOpen(after[t]) <==> Unreached(lines, t))
    ensures !Unreached(lines, t) ==>
              after[t] == StatusText(lines, LastStart(lines, t)) && IsDone(ReadStatus(after[t]).value)
  {
    hide ReadStatus, IsUtf8, IsOpen, StatusText, LastStart, Segment, Entries, OneAtATime;
    var v: View :| Agrees(before, lines, v) && v.statuses == after;
    assert TestAgrees(before, lines, v, t);
    if LastStart(lines, t) >= 0 {
      StatusDecides(lines, LastStart(lines, t));
    }
  }

  /** As long as no run reached t its status stays open. */
  lemma {:induction false} MarkStands(marks: map<string, string>, streams: nat -> seq<Console>,
                                      files: nat -> map<string, string>, n: nat, t: string)
    requires Chain(marks, streams, files) && t in marks && marks[t] == MARK && NeverReached(streams, n, t)
    ensures t in files(n) && IsOpen(files(n)[t])
  {
    hide ReadStatus, Wrote, Unreached;
    if n == 0 {
      MarkIsOpen();
    } else {
      MarkStands(marks, streams, files, n - 1, t);
      assert Wrote(files(n - 1), streams(n - 1), files(n - 1 + 1));
      OneRun(files(n - 1), streams(n - 1), files(n), t);
    }
  }

  /** A subtest has no verdict after n runs exactly when none of them reached it. */
  lemma {:induction false} VerdictIffReached(w: Batch.World, p: JobKey, subtests: seq<string>,
          streams: nat -> seq<Console>,
                                             files: nat -> map<string, string>, n: nat, st: string)
    requires Worker(w, p, subtests, streams, files) && st in subtests
    ensures Batch.FirstVerdict(w, n, Batch.KeyFor(p, st)).None? <==> NeverReached(streams, n, Flat(st))
  {
    hide ReadStatus, Worker, Unreached, StatusText, LastStart, ReplaceChar, Batch.KeyFor, IsDone;
    if n > 0 {
      VerdictIffReached(w, p, subtests, streams, files, n - 1, st);
      if NeverReached(streams, n - 1, Flat(st)) {
        TurnReads(w, p, subtests, streams, files, n - 1, st);
      }
    }
  }

  /** The verdict is what the first run that reached the subtest wrote, whatever
      later runs write. */
  lemma {:induction false} FirstReachDecides(w: Batch.World, p: JobKey, subtests: seq<string>,
          streams: nat -> seq<Console>,
                                             files: nat -> map<string, string>, i: nat, n: nat, st: string)
    requires Worker(w, p, subtests, streams, files) && st in subtests && i < n
    requires NeverReached(streams, i, Flat(st)) && !Unreached(streams(i), Flat(st))
    ensures var r := Batch.FirstVerdict(w, n, Batch.KeyFor(p, st));
            var lines := streams(i);
            r.Some? && Some(r.value.status) == ReadStatus(StatusText(lines, LastStart(lines, Flat(st))))
            && IsDone(r.value.status)
  {
    hide ReadStatus, Worker, Unreached, StatusText, LastStart, ReplaceChar, Batch.KeyFor, IsDone;
    if i < n - 1 {
      FirstReachDecides(w, p, subtests, streams, files, i, n - 1, st);
    } else {
      VerdictIffReached(w, p, subtests, streams, files, i, st);
      TurnReads(w, p, subtests, streams, files, i, st);
    }
  }

  lemma TurnReads(w: Batch.World, p: JobKey, subtests: seq<string>, streams: nat -> seq<Console>,
                  files: nat -> map<string, string>, i: nat, st: string)
    requires Worker(w, p, subtests, streams, files) && st in subtests && NeverReached(streams, i, Flat(st))
    ensures var r := Batch.ReadBack(w.turns(i), w.now, Batch.KeyFor(p, st));
            var lines := streams(i);
            && (r.status == Inprogress <==> Unreached(lines, Flat(st)))
            && (r.status != Inprogress ==>
                  Some(r.status) == ReadStatus(StatusText(lines, LastStart(lines, Flat(st)))) && IsDone(r.status))
  {
    hide ReadStatus, Wrote, Unreached, StatusText, LastStart, ResultBasename, IsDone;
    var t := Flat(st);
    var marks := map j | 0 <= j < |subtests| :: Flat(subtests[j]) := MARK;
    assert t in marks && marks[t] == MARK;
    MarkStands(marks, streams, files, i, t);
    assert Wrote(files(i), streams(i), files(i + 1));
    OneRun(files(i), streams(i), files(i + 1), t);
    assert Pulled(w.turns(i).onDisk, Basename(p), files(i + 1));
    assert ReadsAs(w.turns(i).onDisk, Basename(p) + "." + t, files(i + 1), t);
  }

  /** Every ending line can be read as text and does not say in progress. */
  predicate ReadableEnds(lines: seq<Console>) {
    forall k | 0 <= k < |lines| && Ending(lines[k]) ::
      IsUtf8(LineText(lines[k])) && !Contains(LineText(lines[k]), "IN PROGRESS")
  }

  predicate Started(lines: seq<Console>, t: string) {
    exists k | 0 <= k < |lines| :: Starting(lines[k]) == Some(t)
  }

  /** What is retried after n VM runs: the subtests of the batch none of them reached.
      With readable ending lines that do not say in progress, reached means started. */
  lemma RetriedIffNeverReached(w: Batch.World, p: JobKey, subtests: seq<string>, streams: nat -> seq<Console>,
                               files: nat -> map<string, string>, n: nat, st: string)
    requires Worker(w, p, subtests, streams, files) && st in subtests
    ensures st in Batch.Owed(w, n, p, subtests) <==> NeverReached(streams, n, Flat(st))
    ensures (forall i | 0 <= i < n :: ReadableEnds(streams(i))) ==>
              (st in Batch.Owed(w, n, p, subtests) <==> forall i | 0 <= i < n :: !Started(streams(i), Flat(st)))
  {
    VerdictIffReached(w, p, subtests, streams, files, n, st);
    Batch.InOwed(w, n, p, subtests, st);
    hide Worker, Unreached, ReadableEnds, Started;
    forall i | 0 <= i < n && ReadableEnds(streams(i))
      ensures Unreached(streams(i), Flat(st)) <==> !Started(streams(i), Flat(st))
    {
      UnreachedIffNotStarted(streams(i), Flat(st));
    }
  }

  lemma UnreachedIffNotStarted(lines: seq<Console>, t: string)
    requires ReadableEnds(lines)
    ensures Unreached(lines, t) <==> !Started(lines, t)
  {
    hide LineText, Contains, IsUtf8;
    var i := LastStart(lines, t);
    if i >= 0 {
      FailedFirstIsFailed();
      var e := Closing(lines, i);
      if e < |lines| && Ending(lines[e]) {
        AsciiAtEnd(LineText(lines[e]), '\n');
        ContainsLine(LineText(lines[e]), "IN PROGRESS");
      }
    }
  }

  // --- a started test that is retried ---

  lemma OddEnding(text: string)
    requires text == "========= PASSED x\U{ff}"
    ensures NUL !in text && StartsWith(text, "========= PASSED ") && !Contains(text, "IN PROGRESS") && !IsUtf8(text)
  {
    hide IsUtf8, Contains;
    OddWords(text);
    assert text[18] == '\U{ff}';
    NoSuchByte(text, 18);
  }

  lemma OddWords(text: string)
    requires text == "========= PASSED x\U{ff}"
    ensures NUL !in text && StartsWith(text, "========= PASSED ") && !Contains(text, "IN PROGRESS")
  {
    hide Contains;
    assert text[..17] == "========= PASSED ";
    NoOccurrence(text, "IN PROGRESS");
  }

  /** The end of a test that was started one line before. */
  lemma EndsAtOnce(start: Console, end: Console, t: string)
    requires Starting(start) == Some(t) && Ending(end)
    ensures LastStart([start, end], t) == 0 && StatusText([start, end], 0) == LineText(end) + "\n"
    ensures Started([start, end], t)
  {
    hide Starting, Ending, LineText;
    var lines := [start, end];
    StartOrEnd(end);
    assert [] + [start] == [start] && [start] + [end] == lines;
    LastStartExtends([start], end, t);
    LastStartExtends([], start, t);
    assert lines[0] == start && lines[1] == end;
    assert Closing(lines, 0) == 1;
  }

  /** A passed test whose ending line holds a byte that is no UTF-8 leaves a status that
      cannot be read: whatever started it, the run counts as not having reached it. */
  lemma UnreadableIsRetried(start: Console, t: string, now: int, stamp: int)
    requires Starting(start) == Some(t)
    ensures var end := Console("========= PASSED x\U{ff}" + "\n", now, stamp, []);
            && Ending(end) && !Contains(LineText(end), "IN PROGRESS")
            && Started([start, end], t) && Unreached([start, end], t)
  {
    hide Contains, IsUtf8, LastStart, StatusText, Started, Starting;
    var text := "========= PASSED x\U{ff}";
    var end := Console(text + "\n", now, stamp, []);
    OddEnding(text);
    PlainLine(end, text);
    EndsAtOnce(start, end, t);
    AsciiAtEnd(text, '\n');
  }

}
