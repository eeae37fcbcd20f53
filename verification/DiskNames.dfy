/** The names of disks (tests/prelude.sh): lower-case strings, numbered by length and
    then alphabetically from "a" as 0. `Rank` is the reference; it numbers the empty
    string as -1. */
module DiskNames {

  predicate IsName(s: string) {
    forall i | 0 <= i < |s| :: 'a' <= s[i] <= 'z'
  }

  function Value(c: char): (d: nat)
    requires 'a' <= c <= 'z'
    ensures d < 26
  {
    c as int - 'a' as int
  }

  function Letter(d: nat): (c: char)
    requires d < 26
    ensures 'a' <= c <= 'z' && Value(c) == d
  {
    ('a' as int + d) as char
  }

  function Rank(s: string): (r: int)
    requires IsName(s)
    ensures r >= -1
    ensures r == -1 <==> s == []
  {
    if s == [] then -1 else (Rank(s[..|s| - 1]) + 1) * 26 + Value(s[|s| - 1])
  }

  lemma RankLonger(p: string, c: char)
    requires IsName(p) && 'a' <= c <= 'z'
    ensures IsName(p + [c]) && Rank(p + [c]) == (Rank(p) + 1) * 26 + Value(c)
  {
    assert (p + [c])[..|p|] == p;
  }

  /** tests/prelude.sh disk_name_suffix: the loop prepends a letter and divides. */
  method DiskNameSuffix(index: int) returns (out: string)
    ensures IsName(out)
    ensures index >= 0 ==> out != [] && Rank(out) == index
    ensures index < 0 ==> out == []
  {
    hide Rank, Completes;
    var i := index;
    out := "";
    CompletesNothing(index);
    while i >= 0
      invariant IsName(out) && (i != index ==> index >= 0 && i >= -1)
      invariant index >= 0 ==> i < index ==> out != []
      invariant i <= index && (index < 0 ==> out == [])
      invariant Completes(out, i, index)
    {
      var c := Letter(i % 26);
      CompletesMore(out, i, index);
      out := [c] + out;
      i := i / 26 - 1;
    }
    if index >= 0 {
      CompletesAlone(out, index);
    }
  }

  /** Behind every name of number i those letters make the name of that number. */
  ghost predicate Completes(out: string, i: int, index: int) {
    IsName(out) && forall p | IsName(p) && Rank(p) == i :: Rank(p + out) == index
  }

  lemma CompletesNothing(index: int)
    ensures Completes("", index, index)
  {
    hide Rank;
    assert forall p: string :: p + "" == p;
  }

  lemma CompletesMore(out: string, i: nat, index: int)
    requires Completes(out, i, index)
    ensures Completes([Letter(i % 26)] + out, i / 26 - 1, index)
  {
    hide Rank, Letter, Value;
    var c := Letter(i % 26);
    forall p | IsName(p) && Rank(p) == i / 26 - 1
      ensures Rank(p + ([c] + out)) == index
    {
      RankLonger(p, c);
      assert p + [c] + out == p + ([c] + out);
    }
  }

  lemma CompletesAlone(out: string, index: int)
    requires Completes(out, -1, index)
    ensures Rank(out) == index
  {
    assert Rank([]) == -1 && [] + out == out;
  }

  lemma {:induction false} RankInjective(s: string, t: string)
    requires IsName(s) && IsName(t) && Rank(s) == Rank(t)
    ensures s == t
  {
    if s != [] && t != [] {
      var p, q := s[..|s| - 1], t[..|t| - 1];
      assert Value(s[|s| - 1]) == Rank(s) % 26 == Value(t[|t| - 1]);
      RankInjective(p, q);
      assert s == p + [s[|s| - 1]] && t == q + [t[|t| - 1]];
    }
  }

  /** Every number names a disk: with `RankInjective`, `Rank` is a bijection
      between non-empty names and the naturals. */
  lemma {:induction false} RankSurjective(n: nat)
    ensures exists s :: IsName(s) && s != [] && Rank(s) == n
  {
    var c := Letter(n % 26);
    if n < 26 {
      assert [c][..0] == [];
      assert Rank([]) == -1;
      assert IsName([c]) && Rank([c]) == n;
    } else {
      RankSurjective(n / 26 - 1);
      var p :| IsName(p) && p != [] && Rank(p) == n / 26 - 1;
      assert (p + [c])[..|p|] == p;
      assert IsName(p + [c]) && Rank(p + [c]) == n;
    }
  }

  /** Same length: the earlier differing letter decides. */
  predicate Before(s: string, t: string)
    requires |s| == |t|
  {
    exists k | 0 <= k < |s| :: s[..k] == t[..k] && s[k] < t[k]
  }

  /** Length first, then alphabetical: the order `a..z, aa..zz, aaa..`. */
  predicate ShortLex(s: string, t: string) {
    |s| < |t| || (|s| == |t| && Before(s, t))
  }

  /** The numbers of names of one length lie in [Low, 26 * Low + 26). */
  function Low(n: nat): (r: nat)
    ensures n > 0 ==> r > 0 || n == 1
  {
    if n <= 1 then 0 else (Low(n - 1) + 1) * 26
  }

  lemma {:induction false} RankRange(s: string)
    requires IsName(s) && s != []
    ensures Low(|s|) <= Rank(s) < Low(|s| + 1)
  {
    if |s| > 1 {
      RankRange(s[..|s| - 1]);
    } else {
      assert s[..0] == [] && Low(1) == 0 && Low(2) == 26;
    }
  }

  lemma {:induction false} LowMonotone(m: nat, n: nat)
    requires m <= n
    ensures Low(m) <= Low(n)
  {
    if m < n {
      LowMonotone(m, n - 1);
    }
  }

  lemma {:induction false} BeforeRanksLower(s: string, t: string)
    requires IsName(s) && IsName(t) && |s| == |t| && Before(s, t)
    ensures Rank(s) < Rank(t)
  {
    var n := |s| - 1;
    var k :| 0 <= k < |s| && s[..k] == t[..k] && s[k] < t[k];
    if k < n {
      assert s[..n][..k] == s[..k] && t[..n][..k] == t[..k];
      BeforeRanksLower(s[..n], t[..n]);
    }
  }

  /** Disk numbers follow the length-then-alphabetical order of their names. */
  lemma RankMonotone(s: string, t: string)
    requires IsName(s) && IsName(t)
    ensures Rank(s) < Rank(t) <==> ShortLex(s, t)
  {
    if |s| < |t| {
      ShorterRanksLower(s, t);
    } else if |t| < |s| {
      ShorterRanksLower(t, s);
    } else if s != t {
      FirstDifference(s, t);
      if Before(s, t) {
        BeforeRanksLower(s, t);
      } else {
        BeforeRanksLower(t, s);
      }
    } else if Before(s, t) {
      BeforeRanksLower(s, t);
    }
  }

  lemma ShorterRanksLower(s: string, t: string)
    requires IsName(s) && IsName(t) && |s| < |t|
    ensures Rank(s) < Rank(t)
  {
    if s != [] {
      RankRange(s);
      RankRange(t);
      LowMonotone(|s| + 1, |t|);
    }
  }

  lemma {:induction false} FirstDifference(s: string, t: string)
    requires |s| == |t| && s != t
    ensures Before(s, t) || Before(t, s)
  {
    var n := |s| - 1;
    if s[..n] == t[..n] {
      assert s == s[..n] + [s[n]] && t == t[..n] + [t[n]];
    } else {
      FirstDifference(s[..n], t[..n]);
      if Before(s[..n], t[..n]) {
        var k :| 0 <= k < n && s[..n][..k] == t[..n][..k] && s[..n][k] < t[..n][k];
        assert s[..k] == s[..n][..k] && t[..k] == t[..n][..k];
      } else {
        var k :| 0 <= k < n && t[..n][..k] == s[..n][..k] && t[..n][k] < s[..n][k];
        assert s[..k] == s[..n][..k] && t[..k] == t[..n][..k];
      }
    }
  }

  /** The scratch-device list of a test (tests/prelude.sh config-scratch-devs). */
  class ScratchConfig {
    const virtioBlk: bool
    const prefix: string
    var devices: seq<string>
    var sizes: seq<string>

    /** Device i carries the name the kernel gives disk i, or disk i+1 when the
        root disk occupies the first virtio-blk name. */
    ghost predicate Valid()
      reads this
    {
      && |devices| == |sizes|
      && forall i | 0 <= i < |devices| ::
           && |"/dev/" + prefix| <= |devices[i]|
           && devices[i][..|"/dev/" + prefix|] == "/dev/" + prefix
           && IsName(devices[i][|"/dev/" + prefix|..])
           && Rank(devices[i][|"/dev/" + prefix|..]) == i + if virtioBlk then 1 else 0
    }

    constructor (virtioBlk: bool, prefix: string)
      ensures Valid() && devices == []
      ensures this.virtioBlk == virtioBlk && this.prefix == prefix
    {
      this.virtioBlk, this.prefix := virtioBlk, prefix;
      devices, sizes := [], [];
    }

    method ConfigScratchDev(size: string)
      requires Valid()
      modifies this
      ensures Valid()
      ensures |devices| == |old(devices)| + 1 && devices[..|old(devices)|] == old(devices)
      ensures sizes == old(sizes) + [size]
      ensures forall i, j | 0 <= i < j < |devices| :: devices[i] != devices[j]
    {
      var index := |devices|;
      if virtioBlk {
        index := index + 1;
      }
      var suffix := DiskNameSuffix(index);
      var name := "/dev/" + prefix + suffix;
      assert name[|"/dev/" + prefix|..] == suffix;
      devices := devices + [name];
      sizes := sizes + [size];
    }
  }
}
