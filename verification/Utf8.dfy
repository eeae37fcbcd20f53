/** Which byte strings a Rust `read_to_string` accepts: well-formed UTF-8 (RFC 3629,
    section 4). Bytes are characters below 256; a string with any other character is
    no byte string. */
module Utf8 {

  predicate Within(c: char, lo: int, hi: int) {
    lo <= c as int <= hi
  }

  predicate IsTail(c: char) {
    Within(c, 0x80, 0xBF)
  }

  /** The length of the character encoded at the start of s, 0 if there is none. */
  function First(s: string): (n: nat)
    ensures n <= |s|
  {
    if s == [] then 0
    else if Within(s[0], 0, 0x7F) then 1
    else if |s| >= 2 && Within(s[0], 0xC2, 0xDF) && IsTail(s[1]) then 2
    else if |s| >= 3 && IsTail(s[2])
            && ((s[0] as int == 0xE0 && Within(s[1], 0xA0, 0xBF))
                || ((Within(s[0], 0xE1, 0xEC) || Within(s[0], 0xEE, 0xEF)) && IsTail(s[1]))
                || (s[0] as int == 0xED && Within(s[1], 0x80, 0x9F))) then 3
    else if |s| >= 4 && IsTail(s[2]) && IsTail(s[3])
            && ((s[0] as int == 0xF0 && Within(s[1], 0x90, 0xBF))
                || (Within(s[0], 0xF1, 0xF3) && IsTail(s[1]))
                || (s[0] as int == 0xF4 && Within(s[1], 0x80, 0x8F))) then 4
    else 0
  }

  predicate IsUtf8(s: string)
    decreases |s|
  {
    s == [] || (First(s) > 0 && IsUtf8(s[First(s)..]))
  }

  /** An ASCII character at the end neither completes nor breaks anything. */
  lemma {:induction false} AsciiAtEnd(s: string, c: char)
    requires c as int < 0x80
    ensures IsUtf8(s + [c]) <==> IsUtf8(s)
    decreases |s|
  {
    var t := s + [c];
    if s == [] {
      assert t == [c] && First(t) == 1 && t[1..] == [];
    } else {
      assert t[0] == s[0];
      assert First(t) == First(s);
      var n := First(s);
      if n > 0 {
        assert t[n..] == s[n..] + [c];
        AsciiAtEnd(s[n..], c);
      }
    }
  }

  lemma {:induction false} AsciiIsUtf8(s: string)
    requires forall i | 0 <= i < |s| :: s[i] as int < 0x80
    ensures IsUtf8(s)
    decreases |s|
  {
    if s != [] {
      assert First(s) == 1;
      AsciiIsUtf8(s[1..]);
    }
  }

  /** No character starts with that byte. */
  lemma {:induction false} NoSuchByte(s: string, i: nat)
    requires i < |s| && s[i] as int >= 0xF5
    ensures !IsUtf8(s)
    decreases |s|
  {
    var n := First(s);
    if n > 0 {
      if i >= n {
        NoSuchByte(s[n..], i - n);
      }
    }
  }
}
