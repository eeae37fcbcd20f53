/** Test-group inheritance (src/users.rs): `resolve_group` flattens the
    `extends` chains of a user's configuration. */
module Groups {
  import opened Text

  datatype RawGroup = RawGroup(
    ext: Option<string>,
    maxCommits: Option<nat>,
    nice: Option<nat>,
    durationNice: Option<nat>,
    alwaysPassesNice: Option<nat>,
    tests: Option<seq<string>>,
    kernels: Option<seq<string>>,
    env: Option<map<string, string>>)

  datatype Group = Group(
    maxCommits: nat,
    nice: nat,
    durationNice: nat,
    alwaysPassesNice: nat,
    tests: seq<string>,
    kernels: seq<string>,
    env: map<string, string>)

  /** Cycle carries the stack and the name that closed it; both the `extends`
      of a group and the group list of a branch can name a missing group. */
  datatype Error =
    | Cycle(stack: seq<string>, name: string)
    | NotDefined(name: string)
    | UndefinedInBranch(branch: string, name: string)

  type Raw = map<string, RawGroup>

  // --- what inheritance means ---

  /** c walks `extends` from c[0] without leaving the configuration. */
  ghost predicate IsPath(raw: Raw, c: seq<string>) {
    && (forall i | 0 <= i < |c| :: c[i] in raw)
    && forall i, j | 0 <= i < j < |c| && j == i + 1 :: raw[c[i]].ext == Some(c[j])
  }

  /** c is the whole ancestry of `name`: it ends at a group extending nothing. */
  ghost predicate IsChain(raw: Raw, name: string, c: seq<string>) {
    c != [] && c[0] == name && IsPath(raw, c) && raw[c[|c| - 1]].ext == None
  }

  ghost predicate Grounded(raw: Raw, name: string) {
    exists c :: IsChain(raw, name, c)
  }

  /** v is the value of the nearest group along c that sets the field, or the default. */
  ghost predicate IsNearest<T>(vals: seq<Option<T>>, dflt: T, v: T) {
    || (exists i | 0 <= i < |vals| :: vals[i] == Some(v) && forall j | 0 <= j < i :: vals[j] == None)
    || (v == dflt && forall j | 0 <= j < |vals| :: vals[j] == None)
  }

  function EnvOf(g: RawGroup): map<string, string> {
    g.env.GetOr(map[])
  }

  predicate Sets(g: RawGroup, k: string) {
    g.env.Some? && k in g.env.value
  }

  /** Every variable has the value of the nearest group along c that sets it. */
  ghost predicate IsMergedEnv(raw: Raw, c: seq<string>, env: map<string, string>)
    requires IsPath(raw, c)
  {
    && (forall k | k in env :: exists i | 0 <= i < |c| :: Sets(raw[c[i]], k))
    && forall k, i | 0 <= i < |c| && Sets(raw[c[i]], k) && (forall j | 0 <= j < i :: !Sets(raw[c[j]], k)) ::
         k in env && env[k] == raw[c[i]].env.value[k]
  }

  ghost function Along<T>(raw: Raw, c: seq<string>, field: RawGroup -> Option<T>): (vals: seq<Option<T>>)
    requires IsPath(raw, c)
    ensures |vals| == |c| && forall i | 0 <= i < |c| :: vals[i] == field(raw[c[i]])
  {
    seq(|c|, i requires 0 <= i < |c| => field(raw[c[i]]))
  }

  ghost predicate Inherits(raw: Raw, c: seq<string>, g: Group)
    requires IsPath(raw, c)
  {
    && IsNearest(Along(raw, c, (r: RawGroup) => r.maxCommits), 50, g.maxCommits)
    && IsNearest(Along(raw, c, (r: RawGroup) => r.nice), 0, g.nice)
    && IsNearest(Along(raw, c, (r: RawGroup) => r.durationNice), 180, g.durationNice)
    && IsNearest(Along(raw, c, (r: RawGroup) => r.alwaysPassesNice), 10, g.alwaysPassesNice)
    && IsNearest(Along(raw, c, (r: RawGroup) => r.tests), [], g.tests)
    && IsNearest(Along(raw, c, (r: RawGroup) => r.kernels), [], g.kernels)
    && IsMergedEnv(raw, c, g.env)
  }

  // --- ancestry is unique, so resolution is a function ---

  lemma {:induction false} ChainUnique(raw: Raw, name: string, c: seq<string>, d: seq<string>)
    requires IsChain(raw, name, c) && IsChain(raw, name, d)
    ensures c == d
    decreases |c|
  {
    if |c| > 1 {
      assert raw[name].ext == Some(c[1]);
    }
    if |d| > 1 {
      assert raw[name].ext == Some(d[1]);
    }
    if |c| > 1 && |d| > 1 {
      ChainUnique(raw, c[1], c[1..], d[1..]);
      assert c == [c[0]] + c[1..] && d == [d[0]] + d[1..];
    }
  }

  // --- when every group resolves ---

  predicate TargetsDefined(raw: Raw) {
    forall n | n in raw && raw[n].ext.Some? :: raw[n].ext.value in raw
  }

  /** c leaves its first group and comes back to it. */
  ghost predicate IsCycle(raw: Raw, c: seq<string>) {
    |c| >= 2 && IsPath(raw, c) && c[|c| - 1] == c[0]
  }

  /** Every parent exists and no group reaches itself. */
  ghost predicate WellFormed(raw: Raw) {
    TargetsDefined(raw) && forall c :: !IsCycle(raw, c)
  }

  lemma {:induction false} PathPrefixOfChain(raw: Raw, p: seq<string>, c: seq<string>)
    requires p != [] && IsPath(raw, p) && IsChain(raw, p[0], c)
    ensures |p| <= |c| && c[..|p|] == p
  {
    if |p| > 1 {
      var q := p[..|p| - 1];
      PathPrefixOfChain(raw, q, c);
      assert raw[q[|q| - 1]].ext == Some(p[|p| - 1]);
      assert c[|q| - 1] == q[|q| - 1];
      assert |c| > |q|;
      assert raw[c[|q| - 1]].ext == Some(c[|q|]);
      assert p == q + [p[|p| - 1]] && c[..|p|] == c[..|q|] + [c[|q|]];
    }
  }

  /** A group on a cycle has no finite ancestry. */
  lemma CycleNotGrounded(raw: Raw, cycle: seq<string>)
    requires IsCycle(raw, cycle)
    ensures !Grounded(raw, cycle[0])
  {
    if Grounded(raw, cycle[0]) {
      var c :| IsChain(raw, cycle[0], c);
      PathPrefixOfChain(raw, cycle, c);
      var k := |cycle| - 1;
      assert c[k] == c[..|cycle|][k] == cycle[0];
      assert IsChain(raw, cycle[0], c[k..]);
      ChainUnique(raw, cycle[0], c, c[k..]);
      assert false;
    }
  }

  /** A path that comes back to one of its groups holds a cycle. */
  lemma RepeatIsCycle(raw: Raw, p: seq<string>, n: string, k: nat)
    requires p != [] && IsPath(raw, p) && n in raw && raw[p[|p| - 1]].ext == Some(n) && k < |p| && p[k] == n
    ensures IsCycle(raw, (p + [n])[k..])
  {
  }

  /** Walking on from a path that has not repeated a group ends, if nothing is
      missing and there is no cycle. */
  lemma {:induction false} WalkToRoot(raw: Raw, p: seq<string>) returns (c: seq<string>)
    requires p != [] && IsPath(raw, p)
    requires forall i, j | 0 <= i < j < |p| :: p[i] != p[j]
    requires WellFormed(raw)
    ensures IsChain(raw, p[0], c)
    decreases raw.Keys - set n | n in p
  {
    var last := p[|p| - 1];
    match raw[last].ext {
      case None => c := p;
      case Some(n) =>
        assert n in raw;
        var q := p + [n];
        if n in p {
          var k :| 0 <= k < |p| && p[k] == n;
          RepeatIsCycle(raw, p, n, k);
          assert false;
        }
        assert n in raw.Keys - (set m | m in p) && n !in raw.Keys - (set m | m in q);
        assert forall m | m in p :: m in q;
        c := WalkToRoot(raw, q);
    }
  }

  /** All groups resolve exactly when every `extends` target is defined and no
      group reaches itself. */
  lemma AllGroundedIff(raw: Raw)
    ensures (forall n | n in raw :: Grounded(raw, n)) <==>
            WellFormed(raw)
  {
    if WellFormed(raw) {
      forall n | n in raw
        ensures Grounded(raw, n)
      {
        var c := WalkToRoot(raw, [n]);
      }
    }
    if forall n | n in raw :: Grounded(raw, n) {
      forall n | n in raw && raw[n].ext.Some?
        ensures raw[n].ext.value in raw
      {
        var c :| IsChain(raw, n, c);
        assert |c| > 1 && raw[c[0]].ext == Some(c[1]);
      }
      forall c | IsCycle(raw, c)
        ensures false
      {
        CycleNotGrounded(raw, c);
      }
    }
  }

  // --- the resolver ---

  /** One level of resolution: what `g` sets wins over its resolved parent. */
  function Overlay(g: RawGroup, parent: Option<Group>): Group {
    Group(
      g.maxCommits.GetOr(if parent.Some? then parent.value.maxCommits else 50),
      g.nice.GetOr(if parent.Some? then parent.value.nice else 0),
      g.durationNice.GetOr(if parent.Some? then parent.value.durationNice else 180),
      g.alwaysPassesNice.GetOr(if parent.Some? then parent.value.alwaysPassesNice else 10),
      g.tests.GetOr(if parent.Some? then parent.value.tests else []),
      g.kernels.GetOr(if parent.Some? then parent.value.kernels else []),
      (if parent.Some? then parent.value.env else map[]) + EnvOf(g))
  }

  /** The overlays of a path of groups, root first. */
  function Flatten(raw: Raw, c: seq<string>): Group
    requires c != [] && forall i | 0 <= i < |c| :: c[i] in raw
  {
    Overlay(raw[c[0]], if |c| == 1 then None else Some(Flatten(raw, c[1..])))
  }

  /** g is what `name`'s whole ancestry flattens to. */
  ghost predicate ResolvesTo(raw: Raw, name: string, g: Group) {
    exists c :: IsChain(raw, name, c) && g == Flatten(raw, c)
  }

  lemma NearestExtends<T>(vals: seq<Option<T>>, dflt: T, v: T, head: Option<T>)
    requires IsNearest(vals, dflt, v)
    ensures IsNearest([head] + vals, dflt, head.GetOr(v))
  {
    var all := [head] + vals;
    if head.Some? {
      assert all[0] == Some(head.value);
    } else if i :| 0 <= i < |vals| && vals[i] == Some(v) && forall j | 0 <= j < i :: vals[j] == None {
      assert all[i + 1] == Some(v);
    }
  }

  lemma AlongExtends<T>(raw: Raw, name: string, c: seq<string>, field: RawGroup -> Option<T>, dflt: T, v: T)
    requires IsPath(raw, [name] + c) && IsPath(raw, c)
    requires IsNearest(Along(raw, c, field), dflt, v)
    ensures IsNearest(Along(raw, [name] + c, field), dflt, field(raw[([name] + c)[0]]).GetOr(v))
  {
    NearestExtends(Along(raw, c, field), dflt, v, field(raw[([name] + c)[0]]));
    assert Along(raw, [name] + c, field) == [field(raw[([name] + c)[0]])] + Along(raw, c, field);
  }

  lemma EnvIs(g: RawGroup, k: string)
    ensures k in EnvOf(g) <==> Sets(g, k)
    ensures Sets(g, k) ==> EnvOf(g)[k] == g.env.value[k]
  {
  }

  /** The groups behind the first set no variable before c[i] does. */
  lemma SetBehind(raw: Raw, name: string, c: seq<string>, k: string, i: nat)
    requires IsPath(raw, [name] + c) && IsPath(raw, c) && 0 < i <= |c|
    requires forall j | 0 <= j < i :: !Sets(raw[([name] + c)[j]], k)
    ensures ([name] + c)[i] == c[i - 1] && forall j | 0 <= j < i - 1 :: !Sets(raw[c[j]], k)
  {
    hide Sets;
    var d := [name] + c;
    forall j | 0 <= j < i - 1
      ensures !Sets(raw[c[j]], k)
    {
      assert d[j + 1] == c[j];
    }
  }

  lemma EnvKeyExtends(raw: Raw, name: string, c: seq<string>, env: map<string, string>, k: string)
    requires IsPath(raw, [name] + c) && IsPath(raw, c)
    requires k in env ==> exists i | 0 <= i < |c| :: Sets(raw[c[i]], k)
    requires k in env + EnvOf(raw[([name] + c)[0]])
    ensures exists i | 0 <= i < |[name] + c| :: Sets(raw[([name] + c)[i]], k)
  {
    hide EnvOf, Sets;
    var d := [name] + c;
    EnvIs(raw[d[0]], k);
    if !Sets(raw[d[0]], k) {
      var i :| 0 <= i < |c| && Sets(raw[c[i]], k);
      assert d[i + 1] == c[i];
    }
  }

  lemma EnvValueExtends(raw: Raw, name: string, c: seq<string>, env: map<string, string>, k: string, i: nat)
    requires IsPath(raw, [name] + c) && IsPath(raw, c) && IsMergedEnv(raw, c, env)
    requires i < |[name] + c| && Sets(raw[([name] + c)[i]], k)
    requires forall j | 0 <= j < i :: !Sets(raw[([name] + c)[j]], k)
    ensures var e := env + EnvOf(raw[([name] + c)[0]]);
            k in e && e[k] == raw[([name] + c)[i]].env.value[k]
  {
    hide EnvOf;
    EnvIs(raw[([name] + c)[0]], k);
    if i > 0 {
      SetBehind(raw, name, c, k, i);
    }
  }

  lemma EnvExtends(raw: Raw, name: string, c: seq<string>, env: map<string, string>)
    requires IsPath(raw, [name] + c) && IsPath(raw, c) && IsMergedEnv(raw, c, env)
    ensures IsMergedEnv(raw, [name] + c, env + EnvOf(raw[([name] + c)[0]]))
  {
    hide EnvOf;
    var d := [name] + c;
    var e := env + EnvOf(raw[d[0]]);
    forall k | k in e
      ensures exists i | 0 <= i < |d| :: Sets(raw[d[i]], k)
    {
      EnvKeyExtends(raw, name, c, env, k);
    }
    forall k, i | 0 <= i < |d| && Sets(raw[d[i]], k) && (forall j | 0 <= j < i :: !Sets(raw[d[j]], k))
      ensures k in e && e[k] == raw[d[i]].env.value[k]
    {
      EnvValueExtends(raw, name, c, env, k, i);
    }
  }

  lemma OverlayInherits(raw: Raw, name: string, c: seq<string>, parent: Group)
    requires IsPath(raw, [name] + c) && IsPath(raw, c) && Inherits(raw, c, parent)
    ensures Inherits(raw, [name] + c, Overlay(raw[([name] + c)[0]], Some(parent)))
  {
    AlongExtends(raw, name, c, (r: RawGroup) => r.maxCommits, 50, parent.maxCommits);
    AlongExtends(raw, name, c, (r: RawGroup) => r.nice, 0, parent.nice);
    AlongExtends(raw, name, c, (r: RawGroup) => r.durationNice, 180, parent.durationNice);
    AlongExtends(raw, name, c, (r: RawGroup) => r.alwaysPassesNice, 10, parent.alwaysPassesNice);
    AlongExtends(raw, name, c, (r: RawGroup) => r.tests, [], parent.tests);
    AlongExtends(raw, name, c, (r: RawGroup) => r.kernels, [], parent.kernels);
    EnvExtends(raw, name, c, parent.env);
  }

  /** A resolved group holds, for every field and every variable, the nearest
      definition along its ancestry, and the default where there is none. */
  lemma {:induction false} FlattenInherits(raw: Raw, c: seq<string>)
    requires c != [] && IsPath(raw, c)
    ensures Inherits(raw, c, Flatten(raw, c))
  {
    if |c| == 1 {
      var dflt := Group(50, 0, 180, 10, [], [], map[]);
      assert Overlay(raw[c[0]], None) == Overlay(raw[c[0]], Some(dflt));
      assert [c[0]] + [] == c;
      OverlayInherits(raw, c[0], [], dflt);
    } else {
      FlattenInherits(raw, c[1..]);
      assert [c[0]] + c[1..] == c;
      OverlayInherits(raw, c[0], c[1..], Flatten(raw, c[1..]));
    }
  }

  /** Resolution is a function of the configuration alone: the order in which
      groups are visited, and what the memo already holds, do not matter. */
  lemma ResolutionUnique(raw: Raw, name: string, g: Group, h: Group)
    requires ResolvesTo(raw, name, g) && ResolvesTo(raw, name, h)
    ensures g == h
  {
    var c :| IsChain(raw, name, c) && g == Flatten(raw, c);
    var d :| IsChain(raw, name, d) && h == Flatten(raw, d);
    ChainUnique(raw, name, c, d);
  }

  lemma OverlayResolves(raw: Raw, name: string, parent: Option<Group>)
    requires name in raw
    requires raw[name].ext.None? ==> parent == None
    requires raw[name].ext.Some? ==> parent.Some? && ResolvesTo(raw, raw[name].ext.value, parent.value)
    ensures ResolvesTo(raw, name, Overlay(raw[name], parent)) && Grounded(raw, name)
  {
    if raw[name].ext.Some? {
      var c :| IsChain(raw, raw[name].ext.value, c) && parent.value == Flatten(raw, c);
      var d := [name] + c;
      assert d[1..] == c;
      assert IsChain(raw, name, d) && Flatten(raw, d) == Overlay(raw[name], parent);
    } else {
      assert IsChain(raw, name, [name]) && Flatten(raw, [name]) == Overlay(raw[name], None);
    }
  }

  predicate AllDefined(names: seq<string>, groups: set<string>) {
    forall i | 0 <= i < |names| :: names[i] in groups
  }

  /** The branch check of src/users.rs userrc_read_str. */
  method FirstUndefined(branches: map<string, seq<string>>, groups: set<string>) returns (bad: Option<Error>)
    ensures bad.None? <==> forall b | b in branches :: AllDefined(branches[b], groups)
    ensures bad.Some? ==> bad.value.UndefinedInBranch? && bad.value.branch in branches
    ensures bad.Some? ==> bad.value.name in branches[bad.value.branch] && bad.value.name !in groups
  {
    var todo := branches.Keys;
    while todo != {}
      invariant todo <= branches.Keys
      invariant forall b | b in branches && b !in todo :: AllDefined(branches[b], groups)
      decreases todo
    {
      var b :| b in todo;
      for i := 0 to |branches[b]|
        invariant forall j | 0 <= j < i :: branches[b][j] in groups
      {
        if branches[b][i] !in groups {
          return Some(UndefinedInBranch(b, branches[b][i]));
        }
      }
      todo := todo - {b};
    }
    return None;
  }

  lemma RevisitNotGrounded(raw: Raw, stack: seq<string>, name: string)
    requires IsPath(raw, stack) && name in stack
    requires raw[stack[|stack| - 1]].ext == Some(name)
    ensures !Grounded(raw, name)
  {
    var k :| 0 <= k < |stack| && stack[k] == name;
    var cycle := stack[k..] + [name];
    assert IsCycle(raw, cycle);
    CycleNotGrounded(raw, cycle);
  }

  lemma PushKeepsPath(raw: Raw, stack: seq<string>, name: string)
    requires IsPath(raw, stack) && Distinct(stack) && name in raw && name !in stack
    requires stack != [] ==> raw[stack[|stack| - 1]].ext == Some(name)
    ensures IsPath(raw, stack + [name]) && Distinct(stack + [name])
    ensures raw.Keys - (set n | n in stack + [name]) < raw.Keys - set n | n in stack
  {
    assert name in raw.Keys - (set n | n in stack);
    assert forall n | n in stack :: n in stack + [name];
  }

  predicate Distinct(s: seq<string>) {
    forall i, j | 0 <= i < j < |s| :: s[i] != s[j]
  }

  ghost predicate IsMemo(raw: Raw, resolved: map<string, Group>) {
    forall n | n in resolved :: ResolvesTo(raw, n, resolved[n])
  }

  predicate Grows(before: map<string, Group>, after: map<string, Group>) {
    forall n | n in before :: n in after && after[n] == before[n]
  }

  lemma MemoAdd(raw: Raw, before: map<string, Group>, resolved: map<string, Group>, name: string, g: Group)
    requires IsMemo(raw, resolved) && ResolvesTo(raw, name, g)
    requires Grows(before, resolved) && name !in before
    ensures IsMemo(raw, resolved[name := g]) && Grows(before, resolved[name := g])
  {
  }

  class Resolver {
    const raw: Raw
    var resolved: map<string, Group>
    var stack: seq<string>

    constructor (raw: Raw)
      ensures this.raw == raw && resolved == map[] && stack == []
    {
      this.raw := raw;
      resolved, stack := map[], [];
    }

    /** Memo entries are right, the stack is a repetition-free path. */
    ghost predicate Valid()
      reads this
    {
      && IsMemo(raw, resolved)
      && IsPath(raw, stack)
      && Distinct(stack)
    }

    /** src/users.rs resolve_group: memo hit, cycle check, definition check, then
        the parent, then the overlay. The stack is left as it is on an error. */
    method ResolveGroup(name: string) returns (r: Result<(), Error>)
      requires Valid()
      requires stack != [] ==> raw[stack[|stack| - 1]].ext == Some(name)
      modifies this`resolved, this`stack
      ensures IsMemo(raw, resolved) && Grows(old(resolved), resolved)
      ensures r.Ok? ==> stack == old(stack) && name in resolved
      ensures r.Ok? <==> Grounded(raw, name)
      ensures old(stack) <= stack
      ensures r.Err? ==> IsPath(raw, stack) && !r.error.UndefinedInBranch?
      ensures r.Err? && stack != [] ==> raw[stack[|stack| - 1]].ext == Some(r.error.name)
      ensures r.Err? && stack == [] ==> r.error.name == name
      ensures r.Err? && r.error.NotDefined? ==> r.error.name !in raw
      ensures r.Err? && r.error.Cycle? ==> r.error.stack == stack && r.error.name in stack
      decreases raw.Keys - set n | n in stack
    {
      if name in resolved {
        return Ok(());
      }
      if name in stack {
        RevisitNotGrounded(raw, stack, name);
        return Err(Cycle(stack, name));
      }
      if name !in raw {
        assert !Grounded(raw, name);
        return Err(NotDefined(name));
      }
      var g := raw[name];
      ghost var outer := stack;
      PushKeepsPath(raw, stack, name);
      stack := stack + [name];

      var parent: Option<Group> := None;
      if g.ext.Some? {
        var p := g.ext.value;
        var pr := ResolveGroup(p);
        GroundedThroughParent(raw, name);
        if pr.Err? {
          return pr;
        }
        parent := Some(resolved[p]);
      }
      OverlayResolves(raw, name, parent);
      stack := stack[..|stack| - 1];
      assert stack == outer;
      MemoAdd(raw, old(resolved), resolved, name, Overlay(g, parent));
      resolved := resolved[name := Overlay(g, parent)];
      return Ok(());
    }

    /** The driving loop of src/users.rs userrc_read_str; any visiting order. */
    method ResolveAll() returns (r: Result<(), Error>)
      requires resolved == map[] && stack == []
      modifies this
      ensures r.Ok? <==> forall n | n in raw :: Grounded(raw, n)
      ensures r.Ok? ==> stack == [] && resolved.Keys == raw.Keys
      ensures r.Ok? ==> forall n | n in raw :: ResolvesTo(raw, n, resolved[n])
    {
      var todo := raw.Keys;
      while todo != {}
        invariant Valid() && stack == [] && todo <= raw.Keys
        invariant raw.Keys - todo <= resolved.Keys
        decreases todo
      {
        var name :| name in todo;
        var one := ResolveGroup(name);
        if one.Err? {
          return Err(one.error);
        }
        todo := todo - {name};
      }
      ResolvedAreGrounded();
      return Ok(());
    }

    /** src/users.rs userrc_read_str on parsed groups and branches. */
    method UserrcRead(branches: map<string, seq<string>>) returns (r: Result<map<string, Group>, Error>)
      requires resolved == map[] && stack == []
      modifies this
      ensures r.Ok? <==>
              WellFormed(raw) && forall b | b in branches :: AllDefined(branches[b], raw.Keys)
      ensures r.Ok? ==> r.value.Keys == raw.Keys
      ensures r.Ok? ==> forall n | n in raw :: ResolvesTo(raw, n, r.value[n])
    {
      AllGroundedIff(raw);
      var all := ResolveAll();
      if all.Err? {
        return Err(all.error);
      }
      var bad := FirstUndefined(branches, resolved.Keys);
      if bad.Some? {
        return Err(bad.value);
      }
      return Ok(resolved);
    }

    lemma ResolvedAreGrounded()
      requires IsMemo(raw, resolved)
      ensures resolved.Keys <= raw.Keys && forall n | n in resolved :: Grounded(raw, n)
    {
      forall n | n in resolved
        ensures n in raw && Grounded(raw, n)
      {
        var c :| IsChain(raw, n, c) && resolved[n] == Flatten(raw, c);
      }
    }
  }

  lemma GroundedThroughParent(raw: Raw, name: string)
    requires name in raw && raw[name].ext.Some?
    ensures Grounded(raw, name) <==> Grounded(raw, raw[name].ext.value)
  {
    var p := raw[name].ext.value;
    if Grounded(raw, name) {
      var c :| IsChain(raw, name, c);
      assert |c| > 1 && raw[c[0]].ext == Some(c[1]);
      assert IsChain(raw, p, c[1..]);
    }
    if Grounded(raw, p) {
      var c :| IsChain(raw, p, c);
      assert IsChain(raw, name, [name] + c);
    }
  }
}
