/** Draining the qemu monitor (lib/supervisor.c): the readline echo of a command
    renders back to the command and is dropped; every reply line is logged. */
module Monitor {
  import opened Text
  import opened Terminal

  /** lib/supervisor.c monitor_log_line: prompt, banner and our own echo are not news. */
  predicate IsNews(cmd: Option<string>, l: string) {
    && l != ""
    && !StartsWith(l, "(qemu)") && !StartsWith(l, "QEMU ") && !StartsWith(l, "Type 'help'")
    && !(cmd.Some? && StartsWith(cmd.value, l))
  }

  function NewsOf(cmd: Option<string>, lines: seq<string>): seq<string> {
    if lines == [] then []
    else NewsOf(cmd, lines[..|lines| - 1])
         + if IsNews(cmd, lines[|lines| - 1]) then [lines[|lines| - 1]] else []
  }

  /** Those of the lines at the places kept, which are in order. */
  ghost predicate Picks(lines: seq<string>, kept: seq<nat>, picked: seq<string>) {
    && |picked| == |kept|
    && (forall i | 0 <= i < |kept| :: kept[i] < |lines| && picked[i] == lines[kept[i]])
    && forall i, j | 0 <= i < j < |kept| :: kept[i] < kept[j]
  }

  /** What is logged of some lines: in order, as often as they come, those that are not
      empty, no prompt, no banner, and no beginning of the command. */
  lemma {:induction false} NewsAre(cmd: Option<string>, lines: seq<string>) returns (kept: seq<nat>)
    ensures Picks(lines, kept, NewsOf(cmd, lines))
    ensures forall k | 0 <= k < |lines| ::
              k in kept <==> lines[k] != "" && !StartsWith(lines[k], "(qemu)") && !StartsWith(lines[k], "QEMU ")
                             && !StartsWith(lines[k], "Type 'help'")
                             && (cmd.Some? ==> !StartsWith(cmd.value, lines[k]))
  {
    kept := [];
    if lines != [] {
      hide IsNews, StartsWith;
      var n := |lines| - 1;
      var before := NewsAre(cmd, lines[..n]);
      kept := before + if IsNews(cmd, lines[n]) then [n] else [];
      PicksLonger(lines, before, NewsOf(cmd, lines[..n]));
      IsNewsIff(cmd, lines[n]);
    }
  }

  lemma IsNewsIff(cmd: Option<string>, l: string)
    ensures IsNews(cmd, l) <==> l != "" && !StartsWith(l, "(qemu)") && !StartsWith(l, "QEMU ")
                                && !StartsWith(l, "Type 'help'") && (cmd.Some? ==> !StartsWith(cmd.value, l))
  {
  }

  lemma PicksLonger(lines: seq<string>, kept: seq<nat>, picked: seq<string>)
    requires lines != [] && Picks(lines[..|lines| - 1], kept, picked)
    ensures Picks(lines, kept, picked)
    ensures Picks(lines, kept + [|lines| - 1], picked + [lines[|lines| - 1]])
  {
  }

  /** The rendered lines, the last of which may lack its newline. */
  function Lines(t: Term): seq<string> {
    t.out + if t.line == [] then [] else [CString(t.line)]
  }

  /** The chunks up to the read that returns nothing. */
  function UpToEnd(chunks: seq<string>): seq<string> {
    if chunks == [] || chunks[0] == "" then [] else [chunks[0]] + UpToEnd(chunks[1..])
  }

  /** The callback's work on the lines emitted since the first `known`. */
  method LogNew(cmd: Option<string>, lines: seq<string>, known: nat, before: seq<string>) returns (logged: seq<string>)
    requires known <= |lines| && before == NewsOf(cmd, lines[..known])
    ensures logged == NewsOf(cmd, lines)
  {
    logged := before;
    for k := known to |lines|
      invariant logged == NewsOf(cmd, lines[..k])
    {
      assert lines[..k + 1][..k] == lines[..k];
      if IsNews(cmd, lines[k]) {
        logged := logged + [lines[k]];
      }
    }
    assert lines[..|lines|] == lines;
  }

  /** lib/supervisor.c monitor_drain, given what the successive reads return. */
  method MonitorDrain(chunks: seq<string>, cmd: Option<string>) returns (logged: seq<string>, ghost kept: seq<nat>)
    ensures logged == NewsOf(cmd, Lines(RenderAll(Some(CAPACITY), BLANK, UpToEnd(chunks))))
    ensures var lines := Lines(RenderAll(Some(CAPACITY), BLANK, UpToEnd(chunks)));
            && Picks(lines, kept, logged)
            && forall k | 0 <= k < |lines| ::
                 k in kept <==> lines[k] != "" && !StartsWith(lines[k], "(qemu)") && !StartsWith(lines[k], "QEMU ")
                                && !StartsWith(lines[k], "Type 'help'")
                                && (cmd.Some? ==> !StartsWith(cmd.value, lines[k]))
  {
    hide Render, IsNews;
    var r := new Renderer();
    logged := [];
    var i := 0;
    while i < |chunks| && chunks[i] != ""
      invariant 0 <= i <= |chunks| && r.Valid() && fresh(r) && fresh(r.line)
      invariant logged == NewsOf(cmd, r.emitted)
      invariant RenderAll(Some(CAPACITY), r.Screen(), UpToEnd(chunks[i..]))
             == RenderAll(Some(CAPACITY), BLANK, UpToEnd(chunks))
    {
      ghost var before := r.Screen();
      var known := |r.emitted|;
      r.RenderChunk(chunks[i]);
      assert chunks[i..][1..] == chunks[i + 1..];
      ghost var todo := UpToEnd(chunks[i..]);
      assert todo[1..] == UpToEnd(chunks[i + 1..]);
      assert before.out <= r.emitted && r.emitted[..known] == before.out;
      logged := LogNew(cmd, r.emitted, known, logged);
      i := i + 1;
    }
    assert UpToEnd(chunks[i..]) == [];
    logged := LogPending(r, cmd, logged);
    kept := NewsAre(cmd, Lines(RenderAll(Some(CAPACITY), BLANK, UpToEnd(chunks))));
  }

  /** The end of lib/supervisor.c monitor_drain: a line without a newline. */
  method LogPending(r: Renderer, cmd: Option<string>, news: seq<string>) returns (logged: seq<string>)
    requires r.Valid() && news == NewsOf(cmd, r.emitted)
    ensures logged == NewsOf(cmd, Lines(r.Screen()))
  {
    logged := news;
    if r.len > 0 {
      var last := CString(r.line[..r.len]);
      ghost var all := r.emitted + [last];
      assert all[..|all| - 1] == r.emitted;
      if IsNews(cmd, last) {
        logged := logged + [last];
      }
      assert logged == NewsOf(cmd, all);
    } else {
      assert Lines(r.Screen()) == r.emitted;
    }
  }

  // --- what readline sends ---

  predicate IsPlain(s: string) {
    forall i | 0 <= i < |s| :: s[i] !in [ESC, '\n', '\r', BS, NUL]
  }

  /** Three ways to move back n: backspaces, single steps, one counted step. */
  datatype Back = Backspaces | Steps | Counted

  const LEFT := [ESC, '[', 'D']
  const ERASE := [ESC, '[', 'K']

  function Repeat(unit: string, n: nat): string {
    if n == 0 then [] else unit + Repeat(unit, n - 1)
  }

  function BackUp(style: Back, n: nat): string {
    match style
    case Backspaces => Repeat([BS], n)
    case Steps => Repeat(LEFT, n)
    case Counted => if n == 0 then [] else [ESC, '['] + Decimal(n) + ['D']
  }

  /** One redraw: back up over the old text, print the new, erase what is left. */
  function Redraw(style: Back, was: string, now: string): string {
    BackUp(style, |was|) + (now + ERASE)
  }

  datatype Edit = Edit(style: Back, text: string)

  /** The redraws of a line being edited from `was` through the successive texts. */
  function Redraws(was: string, edits: seq<Edit>): string
    decreases |edits|
  {
    if edits == [] then []
    else Redraw(edits[0].style, was, edits[0].text) + Redraws(edits[0].text, edits[1..])
  }

  function FinalText(was: string, edits: seq<Edit>): string {
    if edits == [] then was else edits[|edits| - 1].text
  }

  /** The line so far: a prompt, then the text, the cursor at its end. */
  function LineOf(prompt: string, text: string, out: seq<string>): (t: Term)
    ensures t.cursor <= |t.line|
  {
    Term(prompt + text, |prompt| + |text|, out)
  }

  lemma {:induction false} PrintPlain(limit: Option<nat>, t: Term, s: string)
    requires t.cursor <= |t.line| && IsPlain(s)
    requires limit.Some? ==> t.cursor + |s| <= limit.value
    ensures var n := t.cursor + |s|;
            Render(limit, t, s) == Term(t.line[..t.cursor] + s + if n <= |t.line| then t.line[n..] else [], n, t.out)
    ensures !MidEscape(s)
    decreases |s|
  {
    if s == [] {
      assert t.line[..t.cursor] + [] + t.line[t.cursor..] == t.line;
    } else {
      var u := Put(limit, t, s[0]);
      var rest := s[1..];
      assert IsPlain(rest);
      PrintPlain(limit, u, rest);
      assert u.line[..u.cursor] + rest == t.line[..t.cursor] + s;
      var n := t.cursor + |s|;
      if n <= |t.line| {
        assert u.line[n..] == t.line[n..];
      }
    }
  }

  lemma {:induction false} RepeatLeft(limit: Option<nat>, t: Term, unit: string, n: nat)
    requires t.cursor <= |t.line| && n <= t.cursor && (unit == [BS] || unit == LEFT)
    ensures Render(limit, t, Repeat(unit, n)) == t.(cursor := t.cursor - n)
    ensures !MidEscape(Repeat(unit, n))
    decreases n
  {
    if n > 0 {
      var s := Repeat(unit, n);
      var u := t.(cursor := t.cursor - 1);
      RepeatLeft(limit, u, unit, n - 1);
      if unit == [BS] {
        assert s[1..] == Repeat(unit, n - 1);
      } else {
        DigitsEndIs(s, 2, 2);
        assert s[2..2] == [];
        assert s[3..] == Repeat(unit, n - 1);
      }
    }
  }

  lemma {:induction false} ArgIsParse(s: string)
    requires forall c | c in s :: IsDigit(c)
    requires ParseDecimal(s) < U32
    ensures Arg(s) == ParseDecimal(s)
  {
    if s != [] {
      ArgIsParse(s[..|s| - 1]);
    }
  }

  lemma CountedLeft(limit: Option<nat>, t: Term, n: nat)
    requires t.cursor <= |t.line| && n <= t.cursor && 0 < n < U32
    ensures Render(limit, t, BackUp(Counted, n)) == t.(cursor := t.cursor - n)
    ensures !MidEscape(BackUp(Counted, n))
  {
    var s := BackUp(Counted, n);
    var j := |s| - 1;
    forall k | 2 <= k < j
      ensures IsDigit(s[k])
    {
      assert s[k] == Decimal(n)[k - 2];
    }
    assert s[..] == s;
    RenderSequence(limit, t, s, 0, j);
    DigitsEndIs(s, 2, j);
    assert s[2..j] == Decimal(n);
    ParseOfDecimal(n);
    ArgIsParse(Decimal(n));
    assert s[j + 1..] == [];
  }

  lemma BackUpMoves(limit: Option<nat>, t: Term, style: Back, n: nat)
    requires t.cursor <= |t.line| && n <= t.cursor && n < U32
    ensures Render(limit, t, BackUp(style, n)) == t.(cursor := t.cursor - n)
    ensures !MidEscape(BackUp(style, n))
  {
    match style {
      case Backspaces => RepeatLeft(limit, t, [BS], n);
      case Steps => RepeatLeft(limit, t, LEFT, n);
      case Counted => if n > 0 { CountedLeft(limit, t, n); }
    }
  }

  lemma EraseTruncates(limit: Option<nat>, t: Term)
    requires t.cursor <= |t.line|
    ensures Render(limit, t, ERASE) == t.(line := t.line[..t.cursor])
    ensures !MidEscape(ERASE)
  {
    DigitsEndIs(ERASE, 2, 2);
    assert ERASE[2..2] == [] && ERASE[3..] == [];
  }

  lemma RedrawOnce(limit: Option<nat>, prompt: string, was: string, out: seq<string>, e: Edit)
    requires IsPlain(e.text) && |was| < U32
    requires limit.Some? ==> |prompt| + |e.text| <= limit.value
    ensures Render(limit, LineOf(prompt, was, out), Redraw(e.style, was, e.text)) == LineOf(prompt, e.text, out)
    ensures !MidEscape(Redraw(e.style, was, e.text))
  {
    var t := LineOf(prompt, was, out);
    var u := t.(cursor := |prompt|);
    BackUpMoves(limit, t, e.style, |was|);
    RenderAppend(limit, t, BackUp(e.style, |was|), e.text + ERASE);
    PrintPlain(limit, u, e.text);
    RenderAppend(limit, u, e.text, ERASE);
    var v := Render(limit, u, e.text);
    EraseTruncates(limit, v);
    assert v.line[..v.cursor] == prompt + e.text;
    MidEscapeAppend(e.text, ERASE);
    MidEscapeAppend(BackUp(e.style, |was|), e.text + ERASE);
  }

  lemma {:induction false} MidEscapeAppend(a: string, b: string)
    requires !MidEscape(a)
    ensures MidEscape(a + b) == MidEscape(b)
    decreases |a|
  {
    if a == [] {
      assert a + b == b;
    } else if a[0] != ESC {
      assert (a + b)[1..] == a[1..] + b;
      MidEscapeAppend(a[1..], b);
    } else if a[1] != '[' {
      assert (a + b)[2..] == a[2..] + b;
      MidEscapeAppend(a[2..], b);
    } else {
      var j := DigitsEnd(a, 2);
      DigitsEndAppend(a, b, 2);
      assert (a + b)[j + 1..] == a[j + 1..] + b;
      MidEscapeAppend(a[j + 1..], b);
    }
  }

  predicate EditsFit(limit: Option<nat>, prompt: string, edits: seq<Edit>) {
    forall i | 0 <= i < |edits| ::
      IsPlain(edits[i].text) && |edits[i].text| < U32
      && (limit.Some? ==> |prompt| + |edits[i].text| <= limit.value)
  }

  /** However the text was edited, keystroke by keystroke or through the history,
      the redraws render to exactly the final text. */
  lemma {:induction false} RedrawsRenderFinal(limit: Option<nat>, prompt: string, was: string, out: seq<string>,
          edits: seq<Edit>)
    requires EditsFit(limit, prompt, edits) && |was| < U32
    ensures Render(limit, LineOf(prompt, was, out), Redraws(was, edits)) == LineOf(prompt, FinalText(was, edits), out)
    ensures !MidEscape(Redraws(was, edits))
    decreases |edits|
  {
    if edits != [] {
      hide Render, MidEscape, Redraw;
      var first := Redraw(edits[0].style, was, edits[0].text);
      var rest := Redraws(edits[0].text, edits[1..]);
      RedrawOnce(limit, prompt, was, out, edits[0]);
      RedrawsRenderFinal(limit, prompt, edits[0].text, out, edits[1..]);
      RenderAppend(limit, LineOf(prompt, was, out), first, rest);
      MidEscapeAppend(first, rest);
    }
  }

  // --- a whole answer ---

  const CRLF := ['\r', '\n']

  lemma NewlineEmits(limit: Option<nat>, t: Term)
    requires t.cursor <= |t.line|
    ensures Render(limit, t, CRLF) == Term([], 0, t.out + [CString(t.line)])
    ensures !MidEscape(CRLF)
  {
    assert CRLF[1..] == ['\n'] && ['\n'][1..] == [];
    var u := t.(cursor := 0);
    assert Render(limit, t, CRLF) == Render(limit, u, ['\n']);
    assert Render(limit, u, ['\n']) == Render(limit, Put(limit, u, '\n'), []);
  }

  function ReplyText(replies: seq<string>): string {
    if replies == [] then [] else ReplyText(replies[..|replies| - 1]) + (replies[|replies| - 1] + CRLF)
  }

  predicate RepliesFit(replies: seq<string>) {
    forall i | 0 <= i < |replies| :: IsPlain(replies[i]) && |replies[i]| <= CAPACITY
  }

  lemma {:induction false} RepliesRender(t: Term, replies: seq<string>)
    requires t.line == [] && t.cursor == 0 && RepliesFit(replies)
    ensures Render(Some(CAPACITY), t, ReplyText(replies)) == Term([], 0, t.out + replies)
    ensures !MidEscape(ReplyText(replies))
  {
    hide Render;
    if replies == [] {
      assert t.out + [] == t.out;
      RenderNothing(Some(CAPACITY), t);
    } else {
      hide MidEscape;
      var init, r := replies[..|replies| - 1], replies[|replies| - 1];
      RepliesRender(t, init);
      var u := Term([], 0, t.out + init);
      RenderAppend(Some(CAPACITY), t, ReplyText(init), r + CRLF);
      PrintPlain(Some(CAPACITY), u, r);
      assert [] + r + [] == r;
      RenderAppend(Some(CAPACITY), u, r, CRLF);
      NewlineEmits(Some(CAPACITY), Render(Some(CAPACITY), u, r));
      assert CString(r) == r;
      assert t.out + init + [r] == t.out + replies;
      MidEscapeAppend(r, CRLF);
      MidEscapeAppend(ReplyText(init), r + CRLF);
    }
  }

  const PROMPT := "(qemu) "

  /** What the monitor sends for one command: perhaps the pending prompt, the
      redraws of the line, its end, the replies and the next prompt. */
  function Answer(prompt: string, edits: seq<Edit>, replies: seq<string>): string {
    prompt + (Redraws("", edits) + (CRLF + (ReplyText(replies) + PROMPT)))
  }

  lemma TailRenders(line: string, replies: seq<string>)
    requires IsPlain(line) && RepliesFit(replies)
    ensures Render(Some(CAPACITY), Term(line, |line|, []), CRLF + (ReplyText(replies) + PROMPT))
            == Term(PROMPT, |PROMPT|, [line] + replies)
  {
    hide Render, MidEscape;
    var cap := Some(CAPACITY);
    var u := Term(line, |line|, []);
    var v := Term([], 0, [line]);
    NewlineEmits(cap, u);
    RenderAppend(cap, u, CRLF, ReplyText(replies) + PROMPT);
    assert NUL !in line;
    assert [] + [CString(line)] == [line];
    RepliesRender(v, replies);
    RenderAppend(cap, v, ReplyText(replies), PROMPT);
    PrintPlain(cap, Term([], 0, [line] + replies), PROMPT);
    assert [] + PROMPT + [] == PROMPT;
  }

  lemma AnswerRenders(prompt: string, edits: seq<Edit>, replies: seq<string>)
    requires IsPlain(prompt) && |prompt| <= CAPACITY && EditsFit(Some(CAPACITY), prompt, edits) && RepliesFit(replies)
    ensures Render(Some(CAPACITY), BLANK, Answer(prompt, edits, replies))
            == Term(PROMPT, |PROMPT|, [prompt + FinalText("", edits)] + replies)
  {
    var cap := Some(CAPACITY);
    var tail := CRLF + (ReplyText(replies) + PROMPT);
    var t := LineOf(prompt, "", []);
    PrintPlain(cap, BLANK, prompt);
    assert [] + prompt + [] == prompt == prompt + "";
    RenderAppend(cap, BLANK, prompt, Redraws("", edits) + tail);
    assert Render(cap, BLANK, prompt) == t;
    RedrawsRenderFinal(cap, prompt, "", [], edits);
    RenderAppend(cap, t, Redraws("", edits), tail);
    assert IsPlain(FinalText("", edits));
    TailRenders(prompt + FinalText("", edits), replies);
  }

  lemma {:induction false} NewsAppend(cmd: Option<string>, a: seq<string>, b: seq<string>)
    ensures NewsOf(cmd, a + b) == NewsOf(cmd, a) + NewsOf(cmd, b)
  {
    if b == [] {
      assert a + b == a;
    } else {
      assert (a + b)[..|a + b| - 1] == a + b[..|b| - 1];
      NewsAppend(cmd, a, b[..|b| - 1]);
    }
  }

  /** After any editing that ends in the command we sent, read in any chunks that
      do not split an escape sequence, the log gets the replies that are news
      and nothing else: not the prompt, not the echo. */
  lemma EchoDropped(chunks: seq<string>, prompt: string, cmd: string, edits: seq<Edit>, replies: seq<string>)
    requires prompt == "" || prompt == PROMPT
    requires EditsFit(Some(CAPACITY), prompt, edits) && RepliesFit(replies)
    requires FinalText("", edits) == cmd
    requires Concat(chunks) == Answer(prompt, edits, replies)
    requires forall i | 0 <= i < |chunks| - 1 :: !MidEscape(chunks[i])
    ensures NewsOf(Some(cmd), Lines(RenderAll(Some(CAPACITY), BLANK, chunks))) == NewsOf(Some(cmd), replies)
    ensures (forall i | 0 <= i < |replies| ::
               replies[i] != "" && !StartsWith(replies[i], "(qemu)") && !StartsWith(replies[i], "QEMU ")
               && !StartsWith(replies[i], "Type 'help'") && !StartsWith(cmd, replies[i])) ==>
            NewsOf(Some(cmd), Lines(RenderAll(Some(CAPACITY), BLANK, chunks))) == replies
  {
    EchoGoes(chunks, prompt, cmd, edits, replies);
    hide *;
    RepliesAreNews(cmd, replies);
  }

  lemma RepliesAreNews(cmd: string, replies: seq<string>)
    ensures (forall i | 0 <= i < |replies| ::
               replies[i] != "" && !StartsWith(replies[i], "(qemu)") && !StartsWith(replies[i], "QEMU ")
               && !StartsWith(replies[i], "Type 'help'") && !StartsWith(cmd, replies[i])) ==>
            NewsOf(Some(cmd), replies) == replies
  {
    AllNews(Some(cmd), replies);
  }

  lemma EchoGoes(chunks: seq<string>, prompt: string, cmd: string, edits: seq<Edit>, replies: seq<string>)
    requires prompt == "" || prompt == PROMPT
    requires EditsFit(Some(CAPACITY), prompt, edits) && RepliesFit(replies)
    requires FinalText("", edits) == cmd
    requires Concat(chunks) == Answer(prompt, edits, replies)
    requires forall i | 0 <= i < |chunks| - 1 :: !MidEscape(chunks[i])
    ensures NewsOf(Some(cmd), Lines(RenderAll(Some(CAPACITY), BLANK, chunks))) == NewsOf(Some(cmd), replies)
  {
    hide Render, RenderAll, MidEscape, NewsOf, Answer;
    ChunkingIrrelevant(Some(CAPACITY), BLANK, chunks);
    AnswerRenders(prompt, edits, replies);
    hide *;
    PromptReads();
    OnlyReplies(prompt, cmd, replies);
  }

  lemma {:induction false} AllNews(cmd: Option<string>, lines: seq<string>)
    ensures (forall i | 0 <= i < |lines| :: IsNews(cmd, lines[i])) ==> NewsOf(cmd, lines) == lines
  {
    hide IsNews;
    if lines != [] {
      AllNews(cmd, lines[..|lines| - 1]);
      assert lines == lines[..|lines| - 1] + [lines[|lines| - 1]];
    }
  }

  lemma PromptReads()
    ensures CString(PROMPT) == PROMPT
  {
  }

  lemma OnlyReplies(prompt: string, cmd: string, replies: seq<string>)
    requires prompt == "" || prompt == PROMPT
    ensures NewsOf(Some(cmd), [prompt + cmd] + replies + [PROMPT]) == NewsOf(Some(cmd), replies)
  {
    var c, echo := Some(cmd), prompt + cmd;
    assert !IsNews(c, echo) by {
      if prompt == "" {
        assert echo == cmd;
      } else {
        assert StartsWith(echo, "(qemu)");
      }
    }
    assert StartsWith(PROMPT, "(qemu)");
    NewsAppend(c, [echo] + replies, [PROMPT]);
    NewsAppend(c, [echo], replies);
    assert NewsOf(c, []) == [];
    assert [echo][..0] == [] && [PROMPT][..0] == [];
    assert NewsOf(c, [echo]) == [] && NewsOf(c, [PROMPT]) == [];
  }
}
