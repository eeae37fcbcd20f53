/** The terminal renderer of lib/supervisor.c: what the qemu monitor's readline
    sends is rendered into a fixed line buffer, and the rendered lines that are
    news go to the log. */
module Terminal {
  import opened Text

  const ESC: char := '\U{1b}'
  const BS: char := '\U{08}'
  const CAPACITY: nat := 4095   // sizeof(line) - 1
  const U32: nat := 0x1_0000_0000

  // --- the terminal line, with or without a capacity ---

  datatype Term = Term(line: seq<char>, cursor: nat, out: seq<string>)

  const BLANK := Term([], 0, [])

  function Put(limit: Option<nat>, t: Term, c: char): (r: Term)
    requires t.cursor <= |t.line|
    ensures r.cursor <= |r.line|
  {
    if c == '\n' then Term([], 0, t.out + [CString(t.line)])
    else if c == '\r' then t.(cursor := 0)
    else if c == BS then t.(cursor := if t.cursor > 0 then t.cursor - 1 else 0)
    else if limit.Some? && t.cursor >= limit.value then t
    else Term(if t.cursor < |t.line| then t.line[t.cursor := c] else t.line + [c], t.cursor + 1, t.out)
  }

  /** ESC[<arg>D and ESC[K; every other final byte is dropped. */
  function Control(t: Term, arg: nat, final: char): (r: Term)
    requires t.cursor <= |t.line|
    ensures r.cursor <= |r.line|
  {
    if final == 'D' then
      var back := if arg == 0 then 1 else arg;
      t.(cursor := if back < t.cursor then t.cursor - back else 0)
    else if final == 'K' then t.(line := t.line[..t.cursor])
    else t
  }

  /** The first index from i on that is not a digit. */
  function DigitsEnd(buf: string, i: nat): (j: nat)
    requires i <= |buf|
    ensures i <= j <= |buf| && (forall k | i <= k < j :: IsDigit(buf[k]))
    ensures j < |buf| ==> !IsDigit(buf[j])
    decreases |buf| - i
  {
    if i < |buf| && IsDigit(buf[i]) then DigitsEnd(buf, i + 1) else i
  }

  /** The numeric argument, in 32-bit unsigned arithmetic. */
  function Arg(digits: string): nat
    requires forall i | 0 <= i < |digits| :: IsDigit(digits[i])
  {
    if digits == [] then 0
    else
      var d := digits[|digits| - 1];
      assert IsDigit(d);
      (Arg(digits[..|digits| - 1]) * 10 + (d as int - '0' as int)) % U32
  }

  function Render(limit: Option<nat>, t: Term, buf: string): (r: Term)
    requires t.cursor <= |t.line|
    ensures r.cursor <= |r.line|
    ensures limit.Some? && |t.line| <= limit.value ==> |r.line| <= limit.value
    ensures t.out <= r.out
    decreases |buf|
  {
    if buf == [] then t
    else if buf[0] != ESC then Render(limit, Put(limit, t, buf[0]), buf[1..])
    else if |buf| == 1 then t
    else if buf[1] != '[' then Render(limit, t, buf[2..])
    else
      var j := DigitsEnd(buf, 2);
      if j == |buf| then t
      else Render(limit, Control(t, Arg(buf[2..j]), buf[j]), buf[j + 1..])
  }

  lemma RenderNothing(limit: Option<nat>, t: Term)
    requires t.cursor <= |t.line|
    ensures Render(limit, t, []) == t
  {
  }

  // --- the fixed buffer ---

  class Renderer {
    const line: array<char>
    var cursor: nat
    var len: nat
    var emitted: seq<string>

    ghost predicate Valid()
      reads this
    {
      line.Length == CAPACITY + 1 && cursor <= len <= CAPACITY
    }

    ghost function Screen(): Term
      reads this, line
      requires Valid()
    {
      Term(line[..len], cursor, emitted)
    }

    constructor ()
      ensures Valid() && fresh(line) && Screen() == BLANK
    {
      line := new char[CAPACITY + 1](_ => NUL);
      cursor, len, emitted := 0, 0, [];
    }

    /** lib/supervisor.c render_putc. */
    method Putc(c: char)
      requires Valid()
      modifies this, line
      ensures Valid() && Screen() == Put(Some(CAPACITY), old(Screen()), c)
    {
      if c == '\n' {
        line[len] := NUL;
        emitted := emitted + [CString(line[..len])];
        cursor, len := 0, 0;
      } else if c == '\r' {
        cursor := 0;
      } else if c == BS {
        if cursor > 0 {
          cursor := cursor - 1;
        }
      } else if cursor < CAPACITY {
        line[cursor] := c;
        cursor := cursor + 1;
        if cursor > len {
          len := cursor;
          assert line[..len] == old(line[..len]) + [c];
        }
      }
    }

    /** The final byte of an escape sequence. */
    method Act(arg: nat, final: char)
      requires Valid()
      modifies this
      ensures Valid() && Screen() == Control(old(Screen()), arg, final)
    {
      if final == 'D' {
        var back := if arg == 0 then 1 else arg;
        cursor := if back < cursor then cursor - back else 0;
      } else if final == 'K' {
        len := cursor;
        assert line[..len] == old(line[..len])[..cursor];
      }
    }

    /** The digits from `start` on, read in 32-bit unsigned arithmetic. */
    method Digits(buf: string, start: nat) returns (next: nat, arg: nat)
      requires start <= |buf|
      ensures start <= next <= |buf| && (forall k | start <= k < next :: IsDigit(buf[k]))
      ensures next < |buf| ==> !IsDigit(buf[next])
      ensures arg == Arg(buf[start..next])
    {
      next, arg := start, 0;
      while next < |buf| && IsDigit(buf[next])
        invariant start <= next <= |buf| && (forall k | start <= k < next :: IsDigit(buf[k]))
        invariant arg == Arg(buf[start..next])
      {
        assert buf[start..next + 1][..next - start] == buf[start..next];
        arg := (arg * 10 + (buf[next] as int - '0' as int)) % U32;
        next := next + 1;
      }
    }

    /** The escape sequence at buf[i..]: the inner part of lib/supervisor.c render. */
    method Escape(buf: string, i: nat) returns (next: nat)
      requires Valid() && i < |buf| && buf[i] == ESC
      modifies this
      ensures Valid() && i < next <= |buf|
      ensures Render(Some(CAPACITY), Screen(), buf[next..]) == Render(Some(CAPACITY), old(Screen()), buf[i..])
    {
      hide Render, Put, Arg, Control;
      next := i + 1;
      if next < |buf| && buf[next] == '[' {
        var arg;
        next, arg := Digits(buf, i + 2);
        RenderSequence(Some(CAPACITY), Screen(), buf, i, next);
        RenderNothing(Some(CAPACITY), Screen());
        assert next == |buf| ==> buf[next..] == [];
        if next < |buf| {
          Act(arg, buf[next]);
          next := next + 1;
        }
      } else {
        RenderOther(Some(CAPACITY), Screen(), buf, i);
        next := if next < |buf| then next + 1 else next;
      }
    }

    /** lib/supervisor.c render: the escape state is local to one call. */
    method RenderChunk(buf: string)
      requires Valid()
      modifies this, line
      ensures Valid() && Screen() == Render(Some(CAPACITY), old(Screen()), buf)
    {
      var i := 0;
      while i < |buf|
        invariant Valid() && 0 <= i <= |buf|
        invariant Render(Some(CAPACITY), Screen(), buf[i..]) == Render(Some(CAPACITY), old(Screen()), buf)
      {
        if buf[i] != ESC {
          assert buf[i..][1..] == buf[i + 1..];
          Putc(buf[i]);
          i := i + 1;
        } else {
          i := Escape(buf, i);
        }
      }
    }
  }

  lemma {:induction false} DigitsEndIs(buf: string, i: nat, j: nat)
    requires i <= j <= |buf| && (forall k | i <= k < j :: IsDigit(buf[k]))
    requires j < |buf| ==> !IsDigit(buf[j])
    ensures DigitsEnd(buf, i) == j
    decreases j - i
  {
    if i < j {
      DigitsEndIs(buf, i + 1, j);
    }
  }

  /** The sequence starting at i, whose argument ends at j. */
  lemma RenderSequence(limit: Option<nat>, t: Term, buf: string, i: nat, j: nat)
    requires t.cursor <= |t.line| && i + 2 <= j <= |buf| && buf[i] == ESC && buf[i + 1] == '['
    requires (forall k | i + 2 <= k < j :: IsDigit(buf[k])) && (j < |buf| ==> !IsDigit(buf[j]))
    ensures Render(limit, t, buf[i..]) ==
            if j == |buf| then t else Render(limit, Control(t, Arg(buf[i + 2..j]), buf[j]), buf[j + 1..])
  {
    var rest := buf[i..];
    DigitsEndIs(rest, 2, j - i);
    if j < |buf| {
      assert rest[2..j - i] == buf[i + 2..j];
      assert rest[j - i + 1..] == buf[j + 1..];
    }
  }

  /** An escape that is no control sequence swallows the next character. */
  lemma RenderOther(limit: Option<nat>, t: Term, buf: string, i: nat)
    requires t.cursor <= |t.line| && i < |buf| && buf[i] == ESC && (i + 1 < |buf| ==> buf[i + 1] != '[')
    ensures i + 1 == |buf| ==> Render(limit, t, buf[i..]) == t && Render(limit, t, buf[i + 1..]) == t
    ensures i + 1 < |buf| ==> Render(limit, t, buf[i..]) == Render(limit, t, buf[i + 2..])
  {
    if i + 1 < |buf| {
      assert buf[i..][2..] == buf[i + 2..];
    }
  }

  // --- lines that fit ---

  /** No character is printed with the cursor at or past n. */
  predicate Fits(n: nat, t: Term, buf: string)
    requires t.cursor <= |t.line|
    decreases |buf|
  {
    if buf == [] then true
    else if buf[0] != ESC then
      (buf[0] in ['\n', '\r', BS] || t.cursor < n) && Fits(n, Put(None, t, buf[0]), buf[1..])
    else if |buf| == 1 then true
    else if buf[1] != '[' then Fits(n, t, buf[2..])
    else
      var j := DigitsEnd(buf, 2);
      j == |buf| || Fits(n, Control(t, Arg(buf[2..j]), buf[j]), buf[j + 1..])
  }

  /** On streams whose lines fit, the fixed buffer is an unbounded terminal line. */
  lemma {:induction false} BoundedRefines(n: nat, t: Term, buf: string)
    requires t.cursor <= |t.line| && Fits(n, t, buf)
    ensures Render(Some(n), t, buf) == Render(None, t, buf)
    decreases |buf|
  {
    if buf != [] {
      if buf[0] != ESC {
        BoundedRefines(n, Put(None, t, buf[0]), buf[1..]);
      } else if |buf| > 1 {
        if buf[1] != '[' {
          BoundedRefines(n, t, buf[2..]);
        } else {
          var j := DigitsEnd(buf, 2);
          if j < |buf| {
            BoundedRefines(n, Control(t, Arg(buf[2..j]), buf[j]), buf[j + 1..]);
          }
        }
      }
    }
  }

  // --- chunking ---

  /** The buffer ends inside an escape sequence. */
  predicate MidEscape(buf: string)
    decreases |buf|
  {
    if buf == [] then false
    else if buf[0] != ESC then MidEscape(buf[1..])
    else if |buf| == 1 then true
    else if buf[1] != '[' then MidEscape(buf[2..])
    else
      var j := DigitsEnd(buf, 2);
      j == |buf| || MidEscape(buf[j + 1..])
  }

  lemma {:induction false} DigitsEndAppend(a: string, b: string, i: nat)
    requires i <= |a|
    ensures DigitsEnd(a, i) < |a| ==> DigitsEnd(a + b, i) == DigitsEnd(a, i)
    ensures DigitsEnd(a, i) == |a| && (b == [] || !IsDigit(b[0])) ==> DigitsEnd(a + b, i) == |a|
    decreases |a| - i
  {
    if i < |a| && IsDigit(a[i]) {
      DigitsEndAppend(a, b, i + 1);
    }
  }

  lemma {:induction false} RenderAppend(limit: Option<nat>, t: Term, a: string, b: string)
    requires t.cursor <= |t.line| && !MidEscape(a)
    ensures Render(limit, t, a + b) == Render(limit, Render(limit, t, a), b)
    decreases |a|
  {
    if a == [] {
      assert a + b == b;
    } else if a[0] != ESC {
      assert (a + b)[1..] == a[1..] + b;
      RenderAppend(limit, Put(limit, t, a[0]), a[1..], b);
    } else if a[1] != '[' {
      assert (a + b)[2..] == a[2..] + b;
      RenderAppend(limit, t, a[2..], b);
    } else {
      var j := DigitsEnd(a, 2);
      DigitsEndAppend(a, b, 2);
      assert (a + b)[2..j] == a[2..j] && (a + b)[j + 1..] == a[j + 1..] + b;
      RenderAppend(limit, Control(t, Arg(a[2..j]), a[j]), a[j + 1..], b);
    }
  }

  lemma ControlDrops(t: Term, arg: nat, final: char)
    requires t.cursor <= |t.line| && final !in ['D', 'K']
    ensures Control(t, arg, final) == t
  {
  }

  lemma {:induction false} NewlineSwallowed(limit: Option<nat>, t: Term, a: string)
    requires t.cursor <= |t.line| && MidEscape(a)
    ensures Render(limit, t, a + "\n") == Render(limit, t, a)
    decreases |a|
  {
    hide Control, Arg, Put;
    if a[0] != ESC {
      assert (a + "\n")[1..] == a[1..] + "\n";
      NewlineSwallowed(limit, Put(limit, t, a[0]), a[1..]);
    } else if |a| == 1 {
      assert (a + "\n")[2..] == [];
    } else if a[1] != '[' {
      assert (a + "\n")[2..] == a[2..] + "\n";
      NewlineSwallowed(limit, t, a[2..]);
    } else {
      var j := DigitsEnd(a, 2);
      DigitsEndAppend(a, "\n", 2);
      if j < |a| {
        assert (a + "\n")[2..j] == a[2..j] && (a + "\n")[j + 1..] == a[j + 1..] + "\n";
        NewlineSwallowed(limit, Control(t, Arg(a[2..j]), a[j]), a[j + 1..]);
      } else {
        NewlineEnds(limit, t, a);
      }
    }
  }

  /** As the final byte of a sequence a newline is dropped like any other. */
  lemma NewlineEnds(limit: Option<nat>, t: Term, a: string)
    requires t.cursor <= |t.line| && |a| > 1 && a[0] == ESC && a[1] == '[' && DigitsEnd(a, 2) == |a|
    ensures Render(limit, t, a + "\n") == t == Render(limit, t, a)
  {
    hide Control, Arg, Put;
    var b, j := a + "\n", |a|;
    DigitsEndAppend(a, "\n", 2);
    assert b[j + 1..] == [] && b[j] == '\n';
    ControlDrops(t, Arg(b[2..j]), '\n');
  }

  /** Splitting a stream after `a` changes nothing, whatever follows, exactly
      when `a` does not end inside an escape sequence. */
  lemma SplitHarmlessIff(limit: Option<nat>, t: Term, a: string)
    requires t.cursor <= |t.line|
    ensures (forall b: string :: Render(limit, t, a + b) == Render(limit, Render(limit, t, a), b)) <==> !MidEscape(a)
  {
    if MidEscape(a) {
      NewlineSwallowed(limit, t, a);
      var mid := Render(limit, t, a);
      assert Render(limit, Put(limit, mid, '\n'), []).out == mid.out + [CString(mid.line)];
      assert "\n"[1..] == [];
      assert Render(limit, mid, "\n") != mid;
      assert Render(limit, t, a + "\n") != Render(limit, mid, "\n");
    } else {
      forall b: string
        ensures Render(limit, t, a + b) == Render(limit, Render(limit, t, a), b)
      {
        RenderAppend(limit, t, a, b);
      }
    }
  }

  function Concat(chunks: seq<string>): string {
    if chunks == [] then [] else chunks[0] + Concat(chunks[1..])
  }

  function RenderAll(limit: Option<nat>, t: Term, chunks: seq<string>): (r: Term)
    requires t.cursor <= |t.line|
    ensures r.cursor <= |r.line|
    decreases |chunks|
  {
    if chunks == [] then t else RenderAll(limit, Render(limit, t, chunks[0]), chunks[1..])
  }

  /** Any chunking whose splits fall outside escape sequences renders alike. */
  lemma {:induction false} ChunkingIrrelevant(limit: Option<nat>, t: Term, chunks: seq<string>)
    requires t.cursor <= |t.line|
    requires forall i | 0 <= i < |chunks| - 1 :: !MidEscape(chunks[i])
    ensures RenderAll(limit, t, chunks) == Render(limit, t, Concat(chunks))
    decreases |chunks|
  {
    if |chunks| == 1 {
      assert Concat(chunks) == chunks[0] + [] == chunks[0];
      assert RenderAll(limit, t, chunks) == RenderAll(limit, Render(limit, t, chunks[0]), []);
    } else if chunks != [] {
      RenderAppend(limit, t, chunks[0], Concat(chunks[1..]));
      ChunkingIrrelevant(limit, Render(limit, t, chunks[0]), chunks[1..]);
    }
  }
}
