/** How a POSIX shell cuts a command line into words (section 2.3 of the Shell Command
    Language, token recognition, and section 2.2, quoting), before any expansion.
    Substitutions, which a shell reads to their end, are not read here: the lemmas are
    about pieces that hold none. */
module Shell {
  import opened Text

  predicate IsBlank(c: char) {
    c == ' ' || c == '\t'
  }

  /** Unquoted, these end a word. */
  predicate IsMeta(c: char) {
    IsBlank(c) || c in ['\n', ';', '&', '|', '(', ')', '<', '>']
  }

  predicate IsQuoting(c: char) {
    c in ['\\', '\'', '"']
  }

  /** Between double quotes a backslash quotes these only. */
  predicate EscapesInDouble(c: char) {
    c in ['$', '`', '"', '\\']
  }

  datatype Mode = Bare | Single | Double

  /** The word at the start of s, quotes removed, and what is left of s. */
  function Word(s: string, m: Mode): (r: (string, string))
    ensures |r.1| <= |s|
    decreases |s|
  {
    if s == [] then ("", "")
    else
      match m
      case Bare =>
        if IsMeta(s[0]) then ("", s)
        else if s[0] == '\\' then
          if |s| == 1 then ("\\", "")
          else if s[1] == '\n' then Word(s[2..], Bare)
          else var r := Word(s[2..], Bare); ([s[1]] + r.0, r.1)
        else if s[0] == '\'' then Word(s[1..], Single)
        else if s[0] == '"' then Word(s[1..], Double)
        else var r := Word(s[1..], Bare); ([s[0]] + r.0, r.1)
      case Single =>
        if s[0] == '\'' then Word(s[1..], Bare)
        else var r := Word(s[1..], Single); ([s[0]] + r.0, r.1)
      case Double =>
        if s[0] == '"' then Word(s[1..], Bare)
        else if s[0] == '\\' && |s| > 1 && s[1] == '\n' then Word(s[2..], Double)
        else if s[0] == '\\' && |s| > 1 && EscapesInDouble(s[1]) then
          var r := Word(s[2..], Double); ([s[1]] + r.0, r.1)
        else var r := Word(s[1..], Double); ([s[0]] + r.0, r.1)
  }

  /** How many blanks s starts with. */
  function Blanks(s: string): (k: nat)
    ensures k <= |s| && forall i | 0 <= i < k :: IsBlank(s[i])
    ensures k < |s| ==> !IsBlank(s[k])
  {
    if s != [] && IsBlank(s[0]) then Blanks(s[1..]) + 1 else 0
  }

  function SkipBlanks(s: string): (r: string)
    ensures |r| <= |s|
  {
    s[Blanks(s)..]
  }

  predicate IsComment(s: string) {
    s != [] && s[0] == '#'
  }

  /** The next word of a line and what is left of it; a comment is no word. */
  function NextWord(line: string): Option<(string, string)> {
    var s := SkipBlanks(line);
    if IsComment(s) then None else Some(Word(s, Bare))
  }

  /** The line is those words, then the rest. */
  predicate ReadsAs(line: string, words: seq<string>, rest: string)
    decreases |words|
  {
    if words == [] then SkipBlanks(line) == SkipBlanks(rest)
    else
      var w := NextWord(line);
      w.Some? && w.value.0 == words[0] && ReadsAs(w.value.1, words[1..], rest)
  }

  /** Nothing in it is special to token recognition. */
  predicate IsBareword(s: string) {
    forall c | c in s :: !IsMeta(c) && !IsQuoting(c)
  }

  /** A bareword that is no comment. */
  predicate IsPlainWord(s: string) {
    IsBareword(s) && !IsComment(s)
  }

  /** A backquote, or the start of a substitution in parentheses or braces. */
  predicate MaySubstitute(s: string) {
    '`' in s || exists i | 0 <= i < |s| - 1 :: s[i] == '$' && s[i + 1] in ['(', '{']
  }

  // --- when a piece of a line is one word ---

  function Used(s: string, m: Mode): string {
    s[..|s| - |Word(s, m).1|]
  }

  predicate Quotes(s: string) {
    exists i | 0 <= i < |s| :: IsQuoting(s[i])
  }

  /** A word is no longer than what it was cut from, shorter if anything was quoted and
      the word ended before the line did; and a space inside it was quoted and stays. */
  ghost predicate Fits(w: string, used: string, rest: string, m: Mode) {
    && |w| <= |used|
    && (rest != [] && (m != Bare || Quotes(used)) ==> |w| < |used|)
    && (' ' in used ==> ' ' in w)
    && (m == Bare && !Quotes(used) ==> w == used && IsBareword(w))
  }

  lemma UsedFront(s: string, m: Mode, n: nat, next: Mode)
    requires n <= |s| && Word(s, m).1 == Word(s[n..], next).1
    requires s[n..] == Used(s[n..], next) + Word(s[n..], next).1
    ensures Used(s, m) == s[..n] + Used(s[n..], next) && s == Used(s, m) + Word(s, m).1
  {
    hide Word;
    assert s == s[..n] + s[n..];
  }

  /** A character kept as it is. */
  lemma FitsKept(c: char, w: string, used: string, rest: string, m: Mode)
    requires Fits(w, used, rest, m) && (m == Bare ==> !IsMeta(c) && !IsQuoting(c))
    ensures Fits([c] + w, [c] + used, rest, m)
  {
    hide IsMeta, IsQuoting;
    QuotesFront(c, used);
  }

  /** A quote that goes. */
  lemma FitsQuote(c: char, w: string, used: string, rest: string, m: Mode, next: Mode)
    requires Fits(w, used, rest, next) && IsQuoting(c)
    ensures Fits(w, [c] + used, rest, m)
  {
    QuotesFront(c, used);
  }

  /** A backslash that goes, and the character it quoted. */
  lemma FitsEscape(c: char, w: string, used: string, rest: string, m: Mode)
    requires Fits(w, used, rest, m)
    ensures Fits([c] + w, ['\\', c] + used, rest, m)
  {
    assert ['\\', c] + used == ['\\'] + ([c] + used);
    QuotesFront('\\', [c] + used);
  }

  lemma FitsJoined(w: string, used: string, rest: string, m: Mode)
    requires Fits(w, used, rest, m)
    ensures Fits(w, ['\\', '\n'] + used, rest, m)
  {
    assert ['\\', '\n'] + used == ['\\'] + (['\n'] + used);
    QuotesFront('\\', ['\n'] + used);
  }

  lemma {:induction false} WordUses(s: string, m: Mode)
    ensures s == Used(s, m) + Word(s, m).1 && Fits(Word(s, m).0, Used(s, m), Word(s, m).1, m)
    decreases |s|
  {
    if s != [] {
      match m
      case Bare => BareUses(s);
      case Single => SingleUses(s);
      case Double => DoubleUses(s);
    }
  }

  lemma {:induction false} BareUses(s: string)
    requires s != []
    ensures s == Used(s, Bare) + Word(s, Bare).1 && Fits(Word(s, Bare).0, Used(s, Bare), Word(s, Bare).1, Bare)
    decreases |s|, 0
  {
    hide IsMeta, IsQuoting, Fits, Used;
    SpaceIsMeta();
    if IsMeta(s[0]) {
      NothingUsed(s);
    } else if s[0] == '\\' {
      if |s| == 1 {
        LoneBackslash(s);
      } else {
        WordUses(s[2..], Bare);
        UsedFront(s, Bare, 2, Bare);
        assert s[..2] == ['\\', s[1]];
        if s[1] == '\n' {
          FitsJoined(Word(s[2..], Bare).0, Used(s[2..], Bare), Word(s, Bare).1, Bare);
        } else {
          FitsEscape(s[1], Word(s[2..], Bare).0, Used(s[2..], Bare), Word(s, Bare).1, Bare);
        }
      }
    } else {
      var next := if s[0] == '\'' then Single else if s[0] == '"' then Double else Bare;
      WordUses(s[1..], next);
      UsedFront(s, Bare, 1, next);
      assert s[..1] == [s[0]];
      if next == Bare {
        FitsKept(s[0], Word(s[1..], Bare).0, Used(s[1..], Bare), Word(s, Bare).1, Bare);
      } else {
        FitsQuote(s[0], Word(s[1..], next).0, Used(s[1..], next), Word(s, Bare).1, Bare, next);
      }
    }
  }

  lemma {:induction false} SingleUses(s: string)
    requires s != []
    ensures s == Used(s, Single) + Word(s, Single).1
            && Fits(Word(s, Single).0, Used(s, Single), Word(s, Single).1, Single)
    decreases |s|, 0
  {
    hide IsMeta, IsQuoting, Fits, Used;
    SpaceIsMeta();
    var next := if s[0] == '\'' then Bare else Single;
    WordUses(s[1..], next);
    UsedFront(s, Single, 1, next);
    assert s[..1] == [s[0]];
    if next == Bare {
      FitsQuote(s[0], Word(s[1..], Bare).0, Used(s[1..], Bare), Word(s, Single).1, Single, Bare);
    } else {
      FitsKept(s[0], Word(s[1..], Single).0, Used(s[1..], Single), Word(s, Single).1, Single);
    }
  }

  lemma {:induction false} DoubleUses(s: string)
    requires s != []
    ensures s == Used(s, Double) + Word(s, Double).1
            && Fits(Word(s, Double).0, Used(s, Double), Word(s, Double).1, Double)
    decreases |s|, 0
  {
    hide IsMeta, IsQuoting, Fits, EscapesInDouble, Used;
    SpaceIsMeta();
    if s[0] == '"' {
      WordUses(s[1..], Bare);
      UsedFront(s, Double, 1, Bare);
      assert s[..1] == [s[0]];
      FitsQuote(s[0], Word(s[1..], Bare).0, Used(s[1..], Bare), Word(s, Double).1, Double, Bare);
    } else if s[0] == '\\' && |s| > 1 && (s[1] == '\n' || EscapesInDouble(s[1])) {
      WordUses(s[2..], Double);
      UsedFront(s, Double, 2, Double);
      assert s[..2] == ['\\', s[1]];
      if s[1] == '\n' {
        FitsJoined(Word(s[2..], Double).0, Used(s[2..], Double), Word(s, Double).1, Double);
      } else {
        FitsEscape(s[1], Word(s[2..], Double).0, Used(s[2..], Double), Word(s, Double).1, Double);
      }
    } else {
      WordUses(s[1..], Double);
      UsedFront(s, Double, 1, Double);
      assert s[..1] == [s[0]];
      FitsKept(s[0], Word(s[1..], Double).0, Used(s[1..], Double), Word(s, Double).1, Double);
    }
  }

  lemma NothingUsed(s: string)
    requires s != [] && IsMeta(s[0])
    ensures Used(s, Bare) == [] && Word(s, Bare) == ("", s) && Fits("", [], s, Bare)
  {
  }

  lemma LoneBackslash(s: string)
    requires s == ['\\']
    ensures Used(s, Bare) == s && Word(s, Bare) == ("\\", "") && Fits("\\", s, "", Bare)
  {
    assert IsQuoting(s[0]);
  }

  lemma SpaceIsMeta()
    ensures IsMeta(' ') && IsQuoting('\\') && IsQuoting('\'') && IsQuoting('"')
    ensures forall c :: IsQuoting(c) ==> c in ['\\', '\'', '"']
  {
  }

  lemma QuotesFront(c: char, s: string)
    ensures Quotes([c] + s) <==> IsQuoting(c) || Quotes(s)
  {
    var t := [c] + s;
    if Quotes(t) {
      var i :| 0 <= i < |t| && IsQuoting(t[i]);
      assert i > 0 ==> s[i - 1] == t[i];
    }
    if Quotes(s) {
      var i :| 0 <= i < |s| && IsQuoting(s[i]);
      assert t[i + 1] == s[i];
    }
    assert t[0] == c;
  }

  lemma {:induction false} BarewordReads(word: string, tail: string)
    requires IsBareword(word) && tail != [] && IsMeta(tail[0])
    ensures Word(word + tail, Bare) == (word, tail)
  {
    if word == [] {
      assert word + tail == tail;
    } else {
      assert (word + tail)[1..] == word[1..] + tail;
      assert word[0] in word && (word + tail)[0] == word[0];
      BarewordReads(word[1..], tail);
      assert [word[0]] + word[1..] == word;
    }
  }

  /** A space-free piece of a line, followed by a space, is read as one word, as it
      stands, exactly when nothing in it is special and it does not start a comment. */
  lemma PieceIsWord(piece: string, tail: string)
    requires IsPiece(piece)
    ensures var r := NextWord(piece + " " + tail);
            && (r.Some? && r.value.0 == piece <==> IsPlainWord(piece))
            && (IsPlainWord(piece) ==> r.value.1 == " " + tail)
    ensures IsPlainWord(piece) <==>
            piece[0] != '#' && forall c | c in piece ::
                                 c !in {'\t', '\n', ';', '&', '|', '(', ')', '<', '>', '\\', '\'', '"'}
  {
    hide Word, MaySubstitute;
    var s := piece + " " + tail;
    var k, t := Blanks(s), SkipBlanks(s);
    BlanksEnd(piece, s, k);
    if IsBareword(piece) {
      assert s == piece + (" " + tail);
      assert s[0] == piece[0] && piece[0] in piece;
      assert k == 0 && t == s;
      BarewordReads(piece, " " + tail);
    } else {
      WordUses(t, Bare);
      NotOneWord(piece, tail, k, Word(t, Bare).0, Used(t, Bare), Word(t, Bare).1);
    }
  }

  lemma NotOneWord(piece: string, tail: string, k: nat, w: string, used: string, rest: string)
    requires k <= |piece| && !IsBareword(piece)
    requires (piece + " " + tail)[k..] == used + rest && Fits(w, used, rest, Bare) && ' ' !in piece
    ensures w != piece
  {
    hide IsBareword, Fits;
    FitsBounds(w, used, rest);
    CutAtSpace(piece, tail, k, used, rest);
    if k == 0 && |used| == |piece| {
      NotAsItStands(w, piece, rest);
    }
  }

  lemma CutAtSpace(piece: string, tail: string, k: nat, used: string, rest: string)
    requires k <= |piece| && (piece + " " + tail)[k..] == used + rest
    ensures if k + |used| > |piece| then ' ' in used else rest != []
    ensures k == 0 && |used| == |piece| ==> used == piece
  {
    var t := (piece + " " + tail)[k..];
    assert t[|piece| - k] == ' ' && |t| == |used| + |rest|;
    assert t[..|used|] == used && (k == 0 ==> t[..|piece|] == piece);
    if k + |used| > |piece| {
      assert used[|piece| - k] == t[|piece| - k];
    }
  }

  lemma FitsBounds(w: string, used: string, rest: string)
    requires Fits(w, used, rest, Bare)
    ensures |w| <= |used| && (' ' in used ==> ' ' in w)
  {
  }

  lemma NotAsItStands(w: string, piece: string, rest: string)
    requires Fits(w, piece, rest, Bare) && rest != [] && !IsBareword(piece)
    ensures w != piece
  {
  }

  lemma BlanksEnd(piece: string, s: string, k: nat)
    requires piece <= s && k <= |s| && (forall i | 0 <= i < k :: IsBlank(s[i])) && exists c | c in piece :: !IsBlank(c)
    ensures k <= |piece|
  {
    var c :| c in piece && !IsBlank(c);
    var i :| 0 <= i < |piece| && piece[i] == c;
    assert s[i] == c;
  }

  /** Every non-empty word followed by a space. */
  function Spaced(words: seq<string>): string {
    if words == [] then ""
    else Spaced(words[..|words| - 1])
         + if words[|words| - 1] == "" then "" else words[|words| - 1] + " "
  }

  lemma {:induction false} SpacedFront(word: string, words: seq<string>)
    requires word != ""
    ensures Spaced([word] + words) == word + " " + Spaced(words)
  {
    var all := [word] + words;
    if words == [] {
      assert all[..0] == [] && Spaced([]) == "";
      assert all == [word];
    } else {
      var init, last := words[..|words| - 1], words[|words| - 1];
      assert all[..|all| - 1] == [word] + init && all[|all| - 1] == last;
      SpacedFront(word, init);
    }
  }

  // --- quoting undone ---

  /** Between single quotes everything stands for itself. */
  lemma {:induction false} SingleQuoted(s: string, tail: string)
    requires '\'' !in s
    ensures Word(s + ['\''] + tail, Single) == (s + Word(tail, Bare).0, Word(tail, Bare).1)
    decreases |s|
  {
    var t := s + ['\''] + tail;
    if s == "" {
      assert t[1..] == tail && "" + Word(tail, Bare).0 == Word(tail, Bare).0;
    } else {
      assert t[0] == s[0] && t[1..] == s[1..] + ['\''] + tail;
      SingleQuoted(s[1..], tail);
      assert [s[0]] + (s[1..] + Word(tail, Bare).0) == s + Word(tail, Bare).0;
    }
  }

  /** Backslashes before the four characters that are special between double quotes. */
  function Escaped(s: string): string {
    if s == "" then ""
    else (if s[0] in {'$', '`', '"', '\\'} then ['\\', s[0]] else [s[0]]) + Escaped(s[1..])
  }

  lemma DoubleStep(c: char, rest: string)
    ensures var t := (if c in {'$', '`', '"', '\\'} then ['\\', c] else [c]) + rest;
            Word(t, Double) == ([c] + Word(rest, Double).0, Word(rest, Double).1)
  {
    var t := (if c in {'$', '`', '"', '\\'} then ['\\', c] else [c]) + rest;
    if c in {'$', '`', '"', '\\'} {
      assert t[2..] == rest;
    } else {
      assert t[1..] == rest;
    }
  }

  lemma DoubleEnd(tail: string)
    ensures Word(['"'] + tail, Double) == Word(tail, Bare)
  {
    assert (['"'] + tail)[1..] == tail;
  }

  /** Anything can be put between double quotes that way. */
  lemma {:induction false} DoubleQuoted(s: string, tail: string)
    ensures Word(Escaped(s) + ['"'] + tail, Double) == (s + Word(tail, Bare).0, Word(tail, Bare).1)
    decreases |s|
  {
    hide Word;
    if s == "" {
      assert Escaped(s) + ['"'] + tail == ['"'] + tail;
      DoubleEnd(tail);
      assert "" + Word(tail, Bare).0 == Word(tail, Bare).0;
    } else {
      var rest := Escaped(s[1..]) + ['"'] + tail;
      DoubleQuoted(s[1..], tail);
      DoubleStep(s[0], rest);
      var front := if s[0] in {'$', '`', '"', '\\'} then ['\\', s[0]] else [s[0]];
      assert Escaped(s) + ['"'] + tail == front + rest;
      assert [s[0]] + (s[1..] + Word(tail, Bare).0) == s + Word(tail, Bare).0;
    }
  }

  /** A backslash there before any other character stays, but joins a line to the next. */
  lemma BackslashStays(c: char, tail: string)
    requires c !in {'$', '`', '"', '\\'}
    ensures Word(['\\', c] + tail, Double).0 ==
            if c == '\n' then Word(tail, Double).0 else ['\\', c] + Word(tail, Double).0
  {
    var t := ['\\', c] + tail;
    assert t[1..] == [c] + tail && t[2..] == tail && ([c] + tail)[1..] == tail;
  }

  predicate IsPiece(s: string) {
    ' ' !in s && !MaySubstitute(s) && exists c | c in s :: !IsBlank(c)
  }

  /** Space-separated pieces in front of a command are read as those words exactly when
      nothing in any of them is special and none starts a comment. */
  lemma {:induction false} PiecesReadIff(pieces: seq<string>, command: string)
    requires forall i | 0 <= i < |pieces| :: IsPiece(pieces[i])
    ensures ReadsAs(" " + (Spaced(pieces) + command), pieces, " " + command)
            <==> forall i | 0 <= i < |pieces| :: IsPlainWord(pieces[i])
    decreases |pieces|
  {
    hide Word, IsPlainWord, IsComment, MaySubstitute, Spaced;
    if pieces == [] {
      NoPieces(command);
    } else {
      var first, others := pieces[0], pieces[1..];
      var tail := Spaced(others) + command;
      FirstPiece(first, others, command);
      assert pieces == [first] + others;
      SkipOne(first + " " + tail);
      PieceIsWord(first, tail);
      assert forall i | 0 <= i < |others| :: others[i] == pieces[i + 1];
      PiecesReadIff(others, command);
    }
  }

  lemma NoPieces(command: string)
    ensures Spaced([]) + command == command
  {
  }

  lemma FirstPiece(first: string, others: seq<string>, command: string)
    requires first != ""
    ensures Spaced([first] + others) + command == first + " " + (Spaced(others) + command)
  {
    SpacedFront(first, others);
    assert first + " " + Spaced(others) + command == first + " " + (Spaced(others) + command);
  }

  lemma SkipOne(s: string)
    ensures SkipBlanks(" " + s) == SkipBlanks(s)
  {
    assert (" " + s)[1..] == s;
  }
}
