/** Per-job environments (src/lib.rs encode_env, src/bin/ci-daemon.rs
    job_env_prefix): one string in the job key, in result directory names and on the
    supervisor's command line. */
module Env {
  import opened Text
  import opened Status
  import opened Shell

  /** A BTreeMap<String, String>: pairs in key order. */
  type Pairs = seq<(string, string)>

  predicate IsBad(s: string) {
    ' ' in s || '=' in s || ',' in s || '/' in s
  }

  predicate Encodable(env: Pairs) {
    forall i | 0 <= i < |env| :: env[i].0 != "" && !IsBad(env[i].0) && !IsBad(env[i].1)
  }

  lemma EncodableIs(env: Pairs)
    ensures Encodable(env) <==> forall i | 0 <= i < |env| ::
              env[i].0 != "" && forall c | c in {' ', '=', ',', '/'} :: c !in env[i].0 && c !in env[i].1
  {
    forall i | 0 <= i < |env|
      ensures !IsBad(env[i].0) && !IsBad(env[i].1) <==>
              forall c | c in {' ', '=', ',', '/'} :: c !in env[i].0 && c !in env[i].1
    {
      assert ' ' in {' ', '=', ',', '/'} && '=' in {' ', '=', ',', '/'};
      assert ',' in {' ', '=', ',', '/'} && '/' in {' ', '=', ',', '/'};
    }
  }

  function Assign(p: (string, string)): string {
    p.0 + ['='] + p.1
  }

  function Assigns(env: Pairs): (r: seq<string>)
    ensures |r| == |env| && forall i | 0 <= i < |env| :: r[i] == Assign(env[i])
  {
    seq(|env|, i requires 0 <= i < |env| => Assign(env[i]))
  }

  /** `parts.join(",")`. */
  function Encoded(env: Pairs): string {
    if env == [] then "" else Join(Assigns(env), ',')
  }

  datatype BadEnv = BadKey(key: string) | BadValue(key: string)

  /** src/lib.rs encode_env: the first offending pair is the one reported. */
  method EncodeEnv(env: Pairs) returns (r: Result<string, BadEnv>)
    ensures r.Ok? <==> forall i | 0 <= i < |env| ::
              env[i].0 != "" && forall c | c in {' ', '=', ',', '/'} :: c !in env[i].0 && c !in env[i].1
    ensures r.Ok? ==> r.value == Encoded(env)
    ensures r.Err? ==> exists i | 0 <= i < |env| ::
              Encodable(env[..i]) && r.error.key == env[i].0
              && (r.error.BadKey? <==> env[i].0 == "" || IsBad(env[i].0)) && (r.error.BadValue? ==> IsBad(env[i].1))
  {
    EncodableIs(env);
    hide IsBad;
    var parts: seq<string> := [];
    for i := 0 to |env|
      invariant Encodable(env[..i]) && parts == Assigns(env[..i])
    {
      var (k, v) := env[i];
      if k == "" || IsBad(k) {
        return Err(BadKey(k));
      }
      if IsBad(v) {
        return Err(BadValue(k));
      }
      parts := parts + [k + ['='] + v];
      assert Assigns(env[..i + 1]) == parts;
    }
    assert env[..|env|] == env;
    r := Ok(if parts == [] then "" else Join(parts, ','));
  }

  /** src/bin/ci-daemon.rs job_env_prefix. */
  method JobEnvPrefix(env: string, ws: string) returns (prefix: string)
    ensures prefix == Prefix(env, ws)
  {
    prefix := "ktest_deps_dir=$HOME/" + ws + " ";
    var pairs := Split(env, ',');
    for i := 0 to |pairs|
      invariant prefix == "ktest_deps_dir=$HOME/" + ws + " " + Spaced(pairs[..i])
    {
      assert pairs[..i + 1][..i] == pairs[..i];
      if pairs[i] != "" {
        prefix := prefix + pairs[i];
        prefix := prefix + " ";
        assert prefix == "ktest_deps_dir=$HOME/" + ws + " " + (Spaced(pairs[..i]) + (pairs[i] + " "));
      }
    }
    assert pairs[..|pairs|] == pairs;
  }

  function Prefix(env: string, ws: string): string {
    "ktest_deps_dir=$HOME/" + ws + " " + Spaced(Split(env, ','))
  }

  // --- what the encoding keeps ---

  lemma AssignParts(p: (string, string))
    requires p.0 != "" && !IsBad(p.0) && !IsBad(p.1)
    ensures Split(Assign(p), '=') == [p.0, p.1]
    ensures Assign(p) != "" && ',' !in Assign(p) && ' ' !in Assign(p)
  {
    JoinTwo(p.0, p.1, '=');
    SplitJoin([p.0, p.1], '=');
  }

  lemma AssignsClean(env: Pairs)
    requires Encodable(env)
    ensures forall i | 0 <= i < |env| :: Split(Assigns(env)[i], '=') == [env[i].0, env[i].1]
    ensures forall i | 0 <= i < |Assigns(env)| ::
              Assigns(env)[i] != "" && ',' !in Assigns(env)[i] && ' ' !in Assigns(env)[i]
  {
    hide IsBad, Assign;
    forall i | 0 <= i < |env|
      ensures Split(Assigns(env)[i], '=') == [env[i].0, env[i].1]
      ensures Assigns(env)[i] != "" && ',' !in Assigns(env)[i] && ' ' !in Assigns(env)[i]
    {
      AssignParts(env[i]);
    }
  }

  /** The encoding can be taken apart again: different environments never share one. */
  lemma EncodedInjective(a: Pairs, b: Pairs)
    requires Encodable(a) && Encodable(b) && Encoded(a) == Encoded(b)
    ensures a == b
  {
    AssignsClean(a);
    AssignsClean(b);
    hide Encodable, Assigns, Split;
    EncodedSplits(a);
    EncodedSplits(b);
    if a != [] && b != [] {
      assert |a| == |b|;
      forall i | 0 <= i < |a|
        ensures a[i] == b[i]
      {
        assert Assigns(a)[i] == Assigns(b)[i];
        assert [a[i].0, a[i].1][0] == [b[i].0, b[i].1][0] && [a[i].0, a[i].1][1] == [b[i].0, b[i].1][1];
      }
    }
  }

  lemma EncodedSplits(env: Pairs)
    requires Encodable(env)
    ensures Split(Encoded(env), ',') == if env == [] then [""] else Assigns(env)
    ensures env != [] ==> Assigns(env)[0] != ""
  {
    AssignsClean(env);
    if env != [] {
      SplitJoin(Assigns(env), ',');
    }
  }

  // --- on the command line ---

  /** A name the shell accepts on the left of an assignment. */
  predicate IsName(s: string) {
    s != [] && !IsDigit(s[0]) && forall c | c in s :: IsDigit(c) || 'a' <= c <= 'z' || 'A' <= c <= 'Z' || c == '_'
  }

  /** In an assignment the shell would replace part of the value. */
  predicate Expands(v: string) {
    '$' in v || '`' in v || StartsWith(v, "~") || Contains(v, ":~")
  }

  /** `readonly` are the names the shell refuses to assign, such as bash's UID. */
  predicate IsPlain(p: (string, string), readonly: set<string>) {
    IsName(p.0) && p.0 !in readonly && IsBareword(p.1) && !Expands(p.1)
  }

  function Words(env: Pairs, ws: string): seq<string> {
    ["ktest_deps_dir=$HOME/" + ws] + Assigns(env)
  }

  /** The variable every prefix sets. */
  const DEPS: string := "ktest_deps_dir"

  /** The prefix and the command behind it are read as one word for every pair, each an
      assignment of the value as it was given to a name that takes it, and then the
      command. */
  predicate SetsEnv(env: Pairs, ws: string, command: string, readonly: set<string>) {
    && ReadsAs(" " + (Prefix(Encoded(env), ws) + command), Words(env, ws), " " + command)
    && DEPS !in readonly
    && forall i | 0 <= i < |env| :: Assignable(env[i], readonly)
  }

  predicate Assignable(p: (string, string), readonly: set<string>) {
    IsName(p.0) && p.0 !in readonly && !Expands(p.1)
  }

  lemma PrefixIsSpaced(env: Pairs, ws: string)
    requires Encodable(env)
    ensures Prefix(Encoded(env), ws) == Spaced(Words(env, ws))
  {
    hide Encodable, Encoded, Assigns, Split;
    EncodedSplits(env);
    var head := "ktest_deps_dir=$HOME/" + ws;
    SpacedFront(head, Assigns(env));
    if env == [] {
      assert [""][..0] == [] && Spaced([]) == "" && Spaced([""]) == "";
      assert Assigns(env) == [];
    }
  }

  lemma AssignIsBareword(p: (string, string))
    requires IsName(p.0)
    ensures IsPlainWord(Assign(p)) <==> IsBareword(p.1)
  {
    var w := Assign(p);
    assert IsBareword(p.0) && w[0] == p.0[0] && w[0] != '#';
    assert forall c | c in p.0 :: c in w;
    assert forall c | c in p.1 :: c in w;
    assert !IsMeta('=') && !IsQuoting('=');
  }

  lemma AssignIsPiece(p: (string, string))
    requires ' ' !in Assign(p) && IsName(p.0) && !Expands(p.1)
    ensures IsPiece(Assign(p))
  {
    var w := Assign(p);
    assert w[|p.0|] == '=' && !IsBlank('=');
    assert forall c | c in w :: c in p.0 || c == '=' || c in p.1;
    assert '$' !in w && '`' !in w;
  }

  lemma FrontWords(head: string, rest: seq<string>)
    ensures (forall i | 0 <= i < |[head] + rest| :: IsPlainWord(([head] + rest)[i])) <==>
            IsPlainWord(head) && forall i | 0 <= i < |rest| :: IsPlainWord(rest[i])
    ensures (forall i | 0 <= i < |[head] + rest| :: IsPiece(([head] + rest)[i])) <==>
            IsPiece(head) && forall i | 0 <= i < |rest| :: IsPiece(rest[i])
  {
    hide IsPlainWord, IsPiece;
    var all := [head] + rest;
    assert all[0] == head;
    forall i | 0 <= i < |rest|
      ensures all[i + 1] == rest[i]
    {
    }
    assert forall i | 1 <= i < |all| :: all[i] == rest[i - 1];
  }

  lemma AssignsArePieces(env: Pairs)
    requires Encodable(env) && forall i | 0 <= i < |env| :: IsName(env[i].0) && !Expands(env[i].1)
    ensures forall i | 0 <= i < |env| ::
              IsPiece(Assigns(env)[i]) && (IsPlainWord(Assigns(env)[i]) <==> IsBareword(env[i].1))
  {
    AssignsClean(env);
    hide Encodable, Assign, IsBareword, IsPlainWord, IsPiece, IsName, Expands, Split;
    forall i | 0 <= i < |env|
      ensures IsPiece(Assigns(env)[i]) && (IsPlainWord(Assigns(env)[i]) <==> IsBareword(env[i].1))
    {
      AssignIsPiece(env[i]);
      AssignIsBareword(env[i]);
    }
  }

  /** The environment reaches the supervisor as it was given exactly when every key is a
      name the shell lets be set and no value holds a character it takes for itself:
      encode_env lets tabs, newlines, quotes, operators and expansions through. */
  lemma PrefixSetsEnvIff(env: Pairs, ws: string, command: string, readonly: set<string>)
    requires Encodable(env) && IsBareword(ws) && !MaySubstitute(ws)
    ensures SetsEnv(env, ws, command, readonly) <==>
            "ktest_deps_dir" !in readonly && forall i | 0 <= i < |env| ::
              && env[i].0 !in readonly && !('0' <= env[i].0[0] <= '9')
              && (forall c | c in env[i].0 :: '0' <= c <= '9' || 'a' <= c <= 'z' || 'A' <= c <= 'Z' || c == '_')
              && (forall c | c in env[i].1 ::
                    c !in {'\t', '\n', ';', '&', '|', '(', ')', '<', '>', '\\', '\'', '"', '$', '`'})
              && !StartsWith(env[i].1, "~") && !Contains(env[i].1, ":~")
  {
    SetsEnvIff(env, ws, command, readonly);
    forall i | 0 <= i < |env|
      ensures IsPlain(env[i], readonly) <==>
              && env[i].0 !in readonly && !('0' <= env[i].0[0] <= '9')
              && (forall c | c in env[i].0 :: '0' <= c <= '9' || 'a' <= c <= 'z' || 'A' <= c <= 'Z' || c == '_')
              && (forall c | c in env[i].1 ::
                    c !in {'\t', '\n', ';', '&', '|', '(', ')', '<', '>', '\\', '\'', '"', '$', '`'})
              && !StartsWith(env[i].1, "~") && !Contains(env[i].1, ":~")
    {
      PlainIs(env[i], readonly);
    }
  }

  lemma PlainIs(p: (string, string), readonly: set<string>)
    requires p.0 != "" && ' ' !in p.1
    ensures IsPlain(p, readonly) <==>
            && p.0 !in readonly && !('0' <= p.0[0] <= '9')
            && (forall c | c in p.0 :: '0' <= c <= '9' || 'a' <= c <= 'z' || 'A' <= c <= 'Z' || c == '_')
            && (forall c | c in p.1 ::
                  c !in {'\t', '\n', ';', '&', '|', '(', ')', '<', '>', '\\', '\'', '"', '$', '`'})
            && !StartsWith(p.1, "~") && !Contains(p.1, ":~")
  {
  }

  lemma SetsEnvIff(env: Pairs, ws: string, command: string, readonly: set<string>)
    requires Encodable(env) && IsBareword(ws) && !MaySubstitute(ws)
    ensures SetsEnv(env, ws, command, readonly) <==>
            DEPS !in readonly && forall i | 0 <= i < |env| :: IsPlain(env[i], readonly)
  {
    hide Encodable, Encoded, Assign, Assigns, Prefix, IsBareword, IsPlainWord, IsPiece, MaySubstitute, Spaced, ReadsAs,
         Split, IsName, Expands;
    if forall i | 0 <= i < |env| :: Assignable(env[i], readonly) {
      PrefixIsSpaced(env, ws);
      HeadIsPiece(ws);
      AssignsArePieces(env);
      FrontWords("ktest_deps_dir=$HOME/" + ws, Assigns(env));
      PiecesReadIff(Words(env, ws), command);
    }
  }

  lemma HeadIsPiece(ws: string)
    requires IsBareword(ws) && !MaySubstitute(ws)
    ensures IsPiece("ktest_deps_dir=$HOME/" + ws) && IsPlainWord("ktest_deps_dir=$HOME/" + ws)
  {
    var head := "ktest_deps_dir=$HOME/";
    var all := head + ws;
    assert all[0] == 'k' && !IsBlank('k');
    assert IsMeta(' ');
    assert IsBareword(head);
    assert '`' !in head && forall i | 0 <= i < |head| - 1 :: head[i] == '$' ==> head[i + 1] == 'H';
    forall i | 0 <= i < |all| - 1 && all[i] == '$'
      ensures all[i + 1] !in ['(', '{']
    {
      if i >= |head| {
        assert ws[i - |head|] == '$' && ws[i - |head| + 1] == all[i + 1];
      } else {
        assert head[|head| - 1] == '/';
      }
    }
  }

  /** Environments that are encoded without complaint and do not reach the supervisor:
      an operator and a tab end the word, a readonly name is refused. */
  lemma EncodedNotSet(ws: string, command: string, readonly: set<string>)
    requires IsBareword(ws) && !MaySubstitute(ws)
    ensures Encodable([("A", "1;2")]) && !SetsEnv([("A", "1;2")], ws, command, readonly)
    ensures Encodable([("A", "1\t2")]) && !SetsEnv([("A", "1\t2")], ws, command, readonly)
    ensures Encodable([("UID", "5")]) && !SetsEnv([("UID", "5")], ws, command, readonly + {"UID"})
  {
    hide SetsEnv;
    SetsEnvIff([("A", "1;2")], ws, command, readonly);
    SetsEnvIff([("A", "1\t2")], ws, command, readonly);
    SetsEnvIff([("UID", "5")], ws, command, readonly + {"UID"});
    assert "1;2"[1] == ';' && ';' in "1;2" && !IsBareword("1;2");
    assert "1\t2"[1] == '\t' && '\t' in "1\t2" && !IsBareword("1\t2");
    assert !IsPlain([("A", "1;2")][0], readonly) && !IsPlain([("A", "1\t2")][0], readonly);
    assert !IsPlain([("UID", "5")][0], readonly + {"UID"});
  }

  /** Runs of one subtest that differ only in their environment are filed apart. */
  lemma EnvSeparatesResults(test: string, subtest: string, kernel: string, a: Pairs, b: Pairs)
    requires Encodable(a) && Encodable(b) && a != b
    ensures SubtestResultKey(test, subtest, kernel, Encoded(a)) != SubtestResultKey(test, subtest, kernel, Encoded(b))
  {
    var base, tail := ResultBasename(test, kernel, ""), "." + ReplaceChar(subtest, '/', '.');
    if SubtestResultKey(test, subtest, kernel, Encoded(a)) == SubtestResultKey(test, subtest, kernel, Encoded(b)) {
      var x, y := ResultBasename(test, kernel, Encoded(a)), ResultBasename(test, kernel, Encoded(b));
      assert x + "." + ReplaceChar(subtest, '/', '.') == x + tail
             && y + "." + ReplaceChar(subtest, '/', '.') == y + tail;
      SameTail(x, y, tail);
      if Encoded(a) != "" && Encoded(b) != "" {
        assert x == base + "@" + Encoded(a) && y == base + "@" + Encoded(b);
        assert x[|base| + 1..] == Encoded(a) && y[|base| + 1..] == Encoded(b);
      } else {
        assert |x| == |base| + (if Encoded(a) == "" then 0 else 1 + |Encoded(a)|);
        assert |y| == |base| + (if Encoded(b) == "" then 0 else 1 + |Encoded(b)|);
      }
      EncodedInjective(a, b);
    }
  }

  lemma SameTail(x: string, y: string, tail: string)
    requires x + tail == y + tail
    ensures x == y
  {
    assert |x| == |y|;
    assert (x + tail)[..|x|] == x && (y + tail)[..|y|] == y;
  }
}
