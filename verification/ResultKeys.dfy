/** Where results are filed and how statuses are spelled on the wire (src/lib.rs). */
module ResultKeys {
  import opened Text
  import opened Status

  // --- statuses ---

  /** src/lib.rs TestStatus::to_str. */
  function ToStr(s: TestStatus): string {
    match s
    case Inprogress => "In progress"
    case Passed => "Passed"
    case Failed => "Failed"
    case Notrun => "Not run"
    case FailedToRun => "Failed to run"
    case Unknown => "Unknown"
  }

  /** from_str undoes to_str. */
  lemma StatusRoundTrip(s: TestStatus)
    ensures FromStr(ToStr(s)) == s
  {
    assert "Passed"[0] == 'P' && "In progress"[0] == 'I' && "Unknown"[0] == 'U';
    assert "Not run"[0] == 'N' && |"Failed"| == 6 && |"Failed to run"| == 13;
  }

  // --- result keys ---

  /** src/lib.rs subtest_full_name. */
  function FullName(test: string, subtest: string): string {
    ReplaceChar(Without(test, ".ktest") + "." + subtest, '/', '.')
  }

  lemma ReplaceAppend(s: string, t: string, a: char, b: char)
    ensures ReplaceChar(s + t, a, b) == ReplaceChar(s, a, b) + ReplaceChar(t, a, b)
  {
  }

  /** With neither kernel nor environment the key is the name results always had. */
  lemma KeyIsFullName(test: string, subtest: string)
    ensures SubtestResultKey(test, subtest, "", "") == FullName(test, subtest)
  {
    hide Without;
    var t := Without(test, ".ktest");
    ReplaceAppend(t + ".", subtest, '/', '.');
    ReplaceAppend(t, ".", '/', '.');
    assert ReplaceChar(".", '/', '.') == ".";
  }

  /** The key is one path component. */
  lemma KeyIsOneComponent(test: string, subtest: string, kernel: string, env: string)
    requires '/' !in env
    ensures '/' !in SubtestResultKey(test, subtest, kernel, env)
  {
    hide Without;
  }

  /** `<test>[@<kernel>][@<env>].<subtest>`: the test less its extension. */
  lemma KeyForm(stem: string, subtest: string, kernel: string, env: string)
    requires '.' !in stem
    ensures SubtestResultKey(stem + ".ktest", subtest, kernel, env) ==
            ReplaceChar(stem, '/', '.') + (if kernel == "" then "" else "@" + ReplaceChar(kernel, '/', '_'))
            + (if env == "" then "" else "@" + env) + "." + ReplaceChar(subtest, '/', '.')
  {
    WithoutExtension(stem);
    var dotted := ReplaceChar(stem, '/', '.');
    assert dotted + "" == dotted;
    if kernel != "" {
      var base := dotted + ("@" + ReplaceChar(kernel, '/', '_'));
      assert base == dotted + "@" + ReplaceChar(kernel, '/', '_') && base + "" == base;
      assert base + ("@" + env) == base + "@" + env;
    } else {
      assert dotted + ("@" + env) == dotted + "@" + env;
    }
  }

  lemma {:induction false} WithoutExtension(stem: string)
    requires '.' !in stem
    ensures Without(stem + ".ktest", ".ktest") == stem
  {
    var s := stem + ".ktest";
    if stem == "" {
      assert s == ".ktest" && s[6..] == [] && Without([], ".ktest") == [];
    } else {
      assert s[0] == stem[0] && s[1..] == stem[1..] + ".ktest";
      assert !(".ktest" <= s);
      WithoutExtension(stem[1..]);
    }
  }

  /** Runs that differ in their kernel only share a key exactly when the kernels differ in
      slashes for underscores only. */
  lemma KernelSeparatesIff(test: string, subtest: string, env: string, k: string, l: string)
    ensures SubtestResultKey(test, subtest, k, env) == SubtestResultKey(test, subtest, l, env) <==>
            ReplaceChar(k, '/', '_') == ReplaceChar(l, '/', '_')
  {
    hide Without;
    var dotted := ReplaceChar(Without(test, ".ktest"), '/', '.');
    var tail := (if env == "" then "" else "@" + env) + ("." + ReplaceChar(subtest, '/', '.'));
    KeySplits(test, subtest, k, env, dotted, tail);
    KeySplits(test, subtest, l, env, dotted, tail);
    var x, y := Qualifier(k), Qualifier(l);
    if dotted + x + tail == dotted + y + tail {
      assert |x| == |y|;
      assert (dotted + x + tail)[|dotted|..|dotted| + |x|] == x && (dotted + y + tail)[|dotted|..|dotted| + |y|] == y;
      assert k != "" && l != "" ==> x[1..] == ReplaceChar(k, '/', '_') && y[1..] == ReplaceChar(l, '/', '_');
    }
  }

  /** Two kernels whose runs share a key. */
  lemma KernelsShareKey(test: string, subtest: string, env: string)
    ensures SubtestResultKey(test, subtest, "a/b", env) == SubtestResultKey(test, subtest, "a_b", env)
  {
    hide SubtestResultKey;
    KernelSeparatesIff(test, subtest, env, "a/b", "a_b");
    assert ReplaceChar("a/b", '/', '_') == "a_b" == ReplaceChar("a_b", '/', '_');
  }

  function Qualifier(kernel: string): string {
    if kernel == "" then "" else "@" + ReplaceChar(kernel, '/', '_')
  }

  lemma KeySplits(test: string, subtest: string, kernel: string, env: string, dotted: string, tail: string)
    requires dotted == ReplaceChar(Without(test, ".ktest"), '/', '.')
    requires tail == (if env == "" then "" else "@" + env) + ("." + ReplaceChar(subtest, '/', '.'))
    ensures SubtestResultKey(test, subtest, kernel, env) == dotted + Qualifier(kernel) + tail
  {
    hide Without, ReplaceChar;
    var q, r := Qualifier(kernel), "." + ReplaceChar(subtest, '/', '.');
    var base := if kernel == "" then dotted else dotted + "@" + ReplaceChar(kernel, '/', '_');
    Seam(dotted, "@", ReplaceChar(kernel, '/', '_'));
    assert dotted + "" == dotted && base == dotted + q;
    Seam(base, "@", env);
    Seam(base, "@" + env, r);
    Seam(if env == "" then base else base + "@" + env, ".", ReplaceChar(subtest, '/', '.'));
    assert env == "" ==> "" + r == r;
  }

  lemma Seam(x: string, y: string, z: string)
    ensures x + (y + z) == x + y + z
  {
  }
}
