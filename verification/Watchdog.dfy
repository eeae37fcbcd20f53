/** The watchdog of lib/supervisor.c: an alarm handler that escalates from a
    marker on the console to SIGTERM to SIGKILL, interleaved with the statements
    of the main loop that reset it. */
module Watchdog {
  import opened Text

  const U32: nat := 0x1_0000_0000

  /** What happened, in order, with the time it happened. */
  datatype Happening = Reset(at: int) | Marker(at: int) | Term(at: int) | Kill(at: int)

  /** How far the main loop is through set_timeout. */
  datatype Main = Waiting | StageCleared(n: nat) | TimeoutStored(n: nat)

  datatype State = State(
    now: int,
    stage: nat,
    timeout: nat,
    alarm: Option<int>,
    main: Main,
    log: seq<Happening>)

  /** alarm(2) takes an unsigned int; zero cancels. */
  function Arm(s: State, seconds: nat): State {
    s.(alarm := if seconds % U32 == 0 then None else Some(s.now + seconds % U32))
  }

  function Note(s: State, h: Happening): State {
    s.(log := s.log + [h])
  }

  /** lib/supervisor.c alarm_handler; `echoes` says whether the console took the marker. */
  function Handler(s: State, echoes: bool): State {
    if s.stage == 0 && echoes then
      Arm(Note(s.(stage := 1), Marker(s.now)), 30)
    else if s.stage <= 1 then
      Arm(Note(s.(stage := 2), Term(s.now)), 10)
    else
      Arm(Note(s.(stage := s.stage + 1), Kill(s.now)), 10)
  }

  datatype Event =
    | Tick(dt: nat)                 // time passes
    | Fire(echoes: bool)            // the alarm expired: the handler runs to completion
    | ClearStage(n: nat)            // set_timeout(n), statement by statement
    | StoreTimeout
    | ArmTimeout
    | PostMortem                    // alarm(5) after a kernel BUG line

  predicate Enabled(s: State, e: Event) {
    match e
    case Tick(_) => true
    case Fire(_) => s.alarm.Some? && s.alarm.value <= s.now
    case ClearStage(_) => s.main.Waiting?
    case StoreTimeout => s.main.StageCleared?
    case ArmTimeout => s.main.TimeoutStored?
    case PostMortem => s.main.Waiting?
  }

  function Step(s: State, e: Event): State
    requires Enabled(s, e)
  {
    match e
    case Tick(dt) => s.(now := s.now + dt)
    case Fire(echoes) => Handler(s, echoes)
    case ClearStage(n) => Note(s.(stage := 0, main := StageCleared(n)), Reset(s.now))
    case StoreTimeout => s.(timeout := s.main.n, main := TimeoutStored(s.main.n))
    case ArmTimeout => Arm(s.(main := Waiting), s.main.n)
    case PostMortem => Arm(s, 5)
  }

  function Init(now: int): State {
    State(now, 0, 0, None, Waiting, [])
  }

  function Exec(s: State, events: seq<Event>): Option<State>
    decreases |events|
  {
    if events == [] then Some(s)
    else if Enabled(s, events[0]) then Exec(Step(s, events[0]), events[1..])
    else None
  }

  // --- the handler and set_timeout as the process has them ---

  class Timer {
    var now: int
    var stage: nat
    var timeout: nat
    var alarm: Option<int>
    ghost var log: seq<Happening>

    ghost function View(): State
      reads this
    {
      State(now, stage, timeout, alarm, Waiting, log)
    }

    constructor (now: int)
      ensures View() == Init(now)
    {
      this.now, stage, timeout, alarm, log := now, 0, 0, None, [];
    }

    method Alarm(seconds: nat)
      modifies this`alarm
      ensures View() == Arm(old(View()), seconds)
    {
      alarm := if seconds % U32 == 0 then None else Some(now + seconds % U32);
    }

    /** The switch with its fallthrough. */
    method AlarmHandler(echoes: bool)
      modifies this
      ensures View() == Handler(old(View()), echoes)
    {
      var was := stage;
      stage := stage + 1;
      if was == 0 {
        if echoes {
          log := log + [Marker(now)];
          Alarm(30);
          return;
        }
        stage := stage + 1;
      }
      if was <= 1 {
        log := log + [Term(now)];
        Alarm(10);
      } else {
        log := log + [Kill(now)];
        Alarm(10);
      }
    }

    /** set_timeout with no alarm in between is its three steps in a row. */
    method SetTimeout(n: nat)
      modifies this
      ensures stage == 0 && timeout == n && now == old(now) && log == old(log) + [Reset(now)]
      ensures alarm == if n % 0x1_0000_0000 == 0 then None else Some(now + n % 0x1_0000_0000)
      ensures Exec(old(View()), [ClearStage(n), StoreTimeout, ArmTimeout]) == Some(View())
    {
      ghost var s := View();
      stage := 0;
      log := log + [Reset(now)];
      timeout := n;
      Alarm(n);
      ghost var s1 := Step(s, ClearStage(n));
      ghost var s2 := Step(s1, StoreTimeout);
      assert Exec(s2, [ArmTimeout]) == Exec(Step(s2, ArmTimeout), [ArmTimeout][1..]);
      assert [StoreTimeout, ArmTimeout][1..] == [ArmTimeout];
      assert [ClearStage(n), StoreTimeout, ArmTimeout][1..] == [StoreTimeout, ArmTimeout];
    }
  }

  // --- no SIGKILL without a SIGTERM ---

  /** SIGTERM is at j and nothing from j on, up to k, is a reset. */
  predicate TermStands(log: seq<Happening>, j: int, k: int)
    requires 0 <= k <= |log|
  {
    0 <= j < k && log[j].Term? && forall i | j < i < k :: !log[i].Reset?
  }

  /** Every SIGKILL follows a SIGTERM sent since the last reset. */
  ghost predicate KillsEarned(log: seq<Happening>) {
    forall k | 0 <= k < |log| && log[k].Kill? :: exists j :: TermStands(log, j, k)
  }

  ghost predicate Inv(s: State) {
    KillsEarned(s.log) && (s.stage >= 2 ==> exists j :: TermStands(s.log, j, |s.log|))
  }

  lemma NoteKeeps(log: seq<Happening>, h: Happening)
    requires KillsEarned(log)
    requires h.Kill? ==> exists j :: TermStands(log, j, |log|)
    ensures KillsEarned(log + [h])
    ensures h.Term? ==> TermStands(log + [h], |log|, |log| + 1)
    ensures !h.Reset? ==> forall j | TermStands(log, j, |log|) :: TermStands(log + [h], j, |log| + 1)
  {
    var longer := log + [h];
    forall k | 0 <= k < |longer| && longer[k].Kill?
      ensures exists j :: TermStands(longer, j, k)
    {
      var j :| TermStands(log, j, k);
      assert TermStands(longer, j, k);
    }
  }

  lemma StepKeepsInv(s: State, e: Event)
    requires Inv(s) && Enabled(s, e)
    ensures Inv(Step(s, e))
  {
    var t := Step(s, e);
    if |t.log| > |s.log| {
      var h := t.log[|s.log|];
      assert t.log == s.log + [h];
      NoteKeeps(s.log, h);
      if h.Kill? {
        var j :| TermStands(s.log, j, |s.log|);
        assert TermStands(t.log, j, |t.log|);
      } else if h.Term? {
        assert TermStands(t.log, |s.log|, |t.log|);
      }
    }
  }

  lemma {:induction false} ExecKeepsInv(s: State, events: seq<Event>)
    requires Inv(s) && Exec(s, events).Some?
    ensures Inv(Exec(s, events).value)
    decreases |events|
  {
    if events != [] {
      StepKeepsInv(s, events[0]);
      ExecKeepsInv(Step(s, events[0]), events[1..]);
    }
  }

  /** With the handler interleaved anywhere between main-loop statements, SIGKILL
      is sent only after a SIGTERM sent since the last stage reset. */
  lemma KillNeedsTerm(now: int, events: seq<Event>, k: nat)
    requires Exec(Init(now), events).Some?
    requires k < |Exec(Init(now), events).value.log| && Exec(Init(now), events).value.log[k].Kill?
    ensures exists j :: TermStands(Exec(Init(now), events).value.log, j, k)
  {
    ExecKeepsInv(Init(now), events);
  }

  // --- a silent guest is killed in time ---

  /** No line arrives, and the handler runs as soon as the alarm expires: time does not
      pass an alarm that has not been delivered. */
  predicate SilentPrompt(s: State, events: seq<Event>)
    decreases |events|
  {
    events == []
    || (Enabled(s, events[0])
        && (events[0].Fire? || (events[0].Tick? && (s.alarm.Some? ==> s.now + events[0].dt <= s.alarm.value)))
        && SilentPrompt(Step(s, events[0]), events[1..]))
  }

  predicate Happens(log: seq<Happening>, from: int, h: Happening) {
    exists i | 0 <= i < |log| :: from <= i && log[i] == h
  }

  lemma {:induction false} LogGrows(s: State, events: seq<Event>)
    requires SilentPrompt(s, events)
    ensures Exec(s, events).Some? && s.log <= Exec(s, events).value.log
    decreases |events|
  {
    if events != [] {
      LogGrows(Step(s, events[0]), events[1..]);
    }
  }

  /** The next expiry sends what the stage calls for, at the moment it is due. */
  lemma {:induction false} KilledWhenDue(s: State, events: seq<Event>)
    requires SilentPrompt(s, events) && s.alarm.Some? && s.now <= s.alarm.value && s.stage >= 2
    ensures Exec(s, events).Some?
    ensures Exec(s, events).value.now > s.alarm.value ==>
              Happens(Exec(s, events).value.log, |s.log|, Kill(s.alarm.value))
    decreases |events|
  {
    LogGrows(s, events);
    if events != [] {
      var t := Step(s, events[0]);
      LogGrows(t, events[1..]);
      if events[0].Tick? {
        KilledWhenDue(t, events[1..]);
      } else {
        assert t.log[|s.log|] == Kill(s.alarm.value);
        assert Exec(s, events).value.log[|s.log|] == Kill(s.alarm.value);
      }
    }
  }

  /** Term sent at `at`, SIGKILL ten seconds later, among what happened since. */
  predicate Escalated(log: seq<Happening>, from: int, at: int) {
    Happens(log, from, Term(at)) && Happens(log, from, Kill(at + 10))
  }

  lemma FireEscalates(s: State, t: State, events: seq<Event>)
    requires SilentPrompt(t, events) && t.stage == 2 && t.alarm == Some(t.now + 10)
    requires |t.log| > |s.log| && t.log[|s.log|] == Term(t.now)
    ensures Exec(t, events).Some?
    ensures Exec(t, events).value.now > t.now + 10 ==> Escalated(Exec(t, events).value.log, |s.log|, t.now)
  {
    KilledWhenDue(t, events);
    LogGrows(t, events);
    var u := Exec(t, events).value;
    assert u.log[|s.log|] == Term(t.now);
    if u.now > t.now + 10 {
      var i :| 0 <= i < |u.log| && |t.log| <= i && u.log[i] == Kill(t.now + 10);
    }
  }

  lemma {:induction false} TermWhenDue(s: State, events: seq<Event>)
    requires SilentPrompt(s, events) && s.alarm.Some? && s.now <= s.alarm.value && s.stage <= 1
    ensures Exec(s, events).Some?
    ensures var t := Exec(s, events).value;
            var a := s.alarm.value;
            && (t.now > a + 10 && s.stage == 1 ==> Escalated(t.log, |s.log|, a))
            && (t.now > a + 40 ==> Escalated(t.log, |s.log|, a) || (s.stage == 0 && Escalated(t.log, |s.log|, a + 30)))
    decreases |events|
  {
    LogGrows(s, events);
    if events != [] {
      var t := Step(s, events[0]);
      LogGrows(t, events[1..]);
      if events[0].Tick? {
        TermWhenDue(t, events[1..]);
      } else if t.stage == 1 {
        TermWhenDue(t, events[1..]);
        var u := Exec(s, events).value;
        if u.now > s.alarm.value + 40 {
          FromLater(u.log, |s.log|, |t.log|, s.alarm.value + 30);
        }
      } else {
        FireEscalates(s, t, events[1..]);
      }
    }
  }

  lemma FromLater(log: seq<Happening>, early: int, late: int, at: int)
    requires early <= late && Escalated(log, late, at)
    ensures Escalated(log, early, at)
  {
    var i :| 0 <= i < |log| && late <= i && log[i] == Term(at);
    var j :| 0 <= j < |log| && late <= j && log[j] == Kill(at + 10);
  }

  /** From any reachable state with an alarm armed that is not overdue, in every run in
      which no line arrives and the handler is prompt: if SIGTERM already stands, SIGKILL
      is sent when the alarm fires; else SIGTERM is sent when it fires or 30 s later
      (only if the console takes the marker), and SIGKILL 10 s after it. */
  lemma SilentGuestIsKilled(now: int, before: seq<Event>, events: seq<Event>)
    requires Exec(Init(now), before).Some? && SilentPrompt(Exec(Init(now), before).value, events)
    requires var s := Exec(Init(now), before).value; s.alarm.Some? && s.now <= s.alarm.value
    ensures var s := Exec(Init(now), before).value;
            var a := s.alarm.value;
            Exec(s, events).Some? &&
            var t := Exec(s, events).value;
            if s.stage >= 2 then
              (exists j :: TermStands(s.log, j, |s.log|)) && (t.now > a ==> Happens(t.log, |s.log|, Kill(a)))
            else
              t.now > a + 40 ==> Escalated(t.log, |s.log|, a) || (s.stage == 0 && Escalated(t.log, |s.log|, a + 30))
  {
    ExecKeepsInv(Init(now), before);
    var s := Exec(Init(now), before).value;
    if s.stage >= 2 {
      KilledWhenDue(s, events);
    } else {
      TermWhenDue(s, events);
    }
  }

  /** The handler at the moment its alarm expires. */
  function Expire(s: State, echoes: bool): State
    requires s.alarm.Some?
  {
    Handler(s.(now := s.alarm.value), echoes)
  }

  function Kills(from: int, n: nat): seq<Happening>
    decreases n
  {
    if n == 0 then [] else [Kill(from)] + Kills(from + 10, n - 1)
  }

  function ExpireTimes(s: State, n: nat): State
    requires s.alarm.Some?
    decreases n
  {
    if n == 0 then s else ExpireTimes(Expire(s, true), n - 1)
  }

  /** Once SIGTERM stands, SIGKILL is sent every ten seconds for as long as it takes. */
  lemma {:induction false} KillsRepeat(s: State, n: nat)
    requires s.stage >= 2 && s.alarm.Some?
    ensures ExpireTimes(s, n).log == s.log + Kills(s.alarm.value, n)
    decreases n
  {
    if n > 0 {
      var t := Expire(s, true);
      KillsRepeat(t, n - 1);
      assert s.log + [Kill(s.alarm.value)] + Kills(s.alarm.value + 10, n - 1) == s.log + Kills(s.alarm.value, n);
    }
  }

  // --- exactly when nothing is armed ---

  predicate Arms(e: Event) {
    e.ArmTimeout? || e.Fire? || e.PostMortem?
  }

  /** The index of the last statement that set the alarm, or -1. */
  function LastArm(events: seq<Event>): (i: int)
    ensures -1 <= i < |events| && (i >= 0 ==> Arms(events[i]))
    ensures forall j | i < j < |events| :: !Arms(events[j])
  {
    if events == [] then -1
    else if Arms(events[|events| - 1]) then |events| - 1
    else LastArm(events[..|events| - 1])
  }

  /** The timeout of the last set_timeout begun. */
  function AskedFor(events: seq<Event>): nat {
    if events == [] then 0
    else if events[|events| - 1].ClearStage? then events[|events| - 1].n
    else AskedFor(events[..|events| - 1])
  }

  lemma {:induction false} ExecLast(s: State, events: seq<Event>)
    requires events != [] && Exec(s, events).Some?
    ensures var m := Exec(s, events[..|events| - 1]);
            && m.Some? && Enabled(m.value, events[|events| - 1])
            && Exec(s, events) == Some(Step(m.value, events[|events| - 1]))
    decreases |events|
  {
    if |events| > 1 {
      ExecLast(Step(s, events[0]), events[1..]);
      assert events[1..][..|events| - 2] == events[..|events| - 1][1..];
    } else {
      assert events[..0] == [] && events[1..] == [];
    }
  }

  /** Wherever the handler cuts in: nothing is armed exactly when nothing ever was, or
      the last statement to set the alarm was the end of a set_timeout of zero. */
  lemma {:induction false} UnarmedIff(now: int, events: seq<Event>)
    requires Exec(Init(now), events).Some?
    ensures var t := Exec(Init(now), events).value;
            && (!t.main.Waiting? ==> t.main.n == AskedFor(events))
            && var i := LastArm(events);
               t.alarm.None? <==> i < 0 || (events[i].ArmTimeout? && AskedFor(events[..i]) % U32 == 0)
  {
    if events != [] {
      var init, last := events[..|events| - 1], events[|events| - 1];
      ExecLast(Init(now), events);
      UnarmedIff(now, init);
      if !Arms(last) {
        var i := LastArm(init);
        assert i >= 0 ==> init[..i] == events[..i];
      }
    }
  }

  /** The time after those events. */
  function Clock(now: int, events: seq<Event>): int {
    if events == [] then now
    else Clock(now, events[..|events| - 1])
         + if events[|events| - 1].Tick? then events[|events| - 1].dt else 0
  }

  /** When the alarm is due: counted from the last statement that set it, the timeout
      asked for (in 32 bits, zero for none), 5 s after a kernel BUG line, and from the
      handler 30 s after a marker the console took and 10 s after a signal. */
  lemma {:induction false} DueAt(now: int, events: seq<Event>)
    requires Exec(Init(now), events).Some? && LastArm(events) >= 0
    ensures var t, i := Exec(Init(now), events).value, LastArm(events);
            && Exec(Init(now), events[..i]).Some?
            && var was, from := Exec(Init(now), events[..i]).value, Clock(now, events[..i]);
               var asked := AskedFor(events[..i]);
               t.alarm == match events[i]
                          case PostMortem => Some(from + 5)
                          case Fire(echoes) => Some(from + if was.stage == 0 && echoes then 30 else 10)
                          case _ => if asked % 0x1_0000_0000 == 0 then None else Some(from + asked % 0x1_0000_0000)
  {
    var init, last := events[..|events| - 1], events[|events| - 1];
    ExecLast(Init(now), events);
    if Arms(last) {
      ClockIs(now, init);
      UnarmedIff(now, init);
    } else {
      DueAt(now, init);
      assert init[..LastArm(init)] == events[..LastArm(init)];
    }
  }

  lemma {:induction false} ClockIs(now: int, events: seq<Event>)
    requires Exec(Init(now), events).Some?
    ensures Exec(Init(now), events).value.now == Clock(now, events)
  {
    if events != [] {
      ExecLast(Init(now), events);
      ClockIs(now, events[..|events| - 1]);
    }
  }

  /** So with non-zero timeouts only, once armed an alarm is always armed. */
  lemma AlwaysArmed(now: int, events: seq<Event>)
    requires Exec(Init(now), events).Some? && LastArm(events) >= 0
    requires forall i | 0 <= i < |events| && events[i].ClearStage? :: events[i].n % U32 != 0
    ensures Exec(Init(now), events).value.alarm.Some?
  {
    UnarmedIff(now, events);
    var i := LastArm(events);
    if events[i].ArmTimeout? {
      ArmNeedsClear(now, events, i);
      AskedForIs(events[..i]);
    }
  }

  lemma {:induction false} AskedForIs(events: seq<Event>)
    requires exists i | 0 <= i < |events| :: events[i].ClearStage?
    ensures exists i | 0 <= i < |events| :: events[i].ClearStage? && events[i].n == AskedFor(events)
  {
    var init, last := events[..|events| - 1], events[|events| - 1];
    if !last.ClearStage? {
      var i :| 0 <= i < |events| && events[i].ClearStage?;
      assert init[i].ClearStage?;
      AskedForIs(init);
      var k :| 0 <= k < |init| && init[k].ClearStage? && init[k].n == AskedFor(init);
      assert events[k] == init[k];
    }
  }

  /** A set_timeout that arms was begun. */
  lemma ArmNeedsClear(now: int, events: seq<Event>, i: nat)
    requires Exec(Init(now), events).Some? && i < |events| && events[i].ArmTimeout?
    ensures exists j | 0 <= j < i :: events[..i][j].ClearStage?
  {
    ExecPrefix(now, events, i + 1);
    assert events[..i + 1][..i] == events[..i];
    ExecLast(Init(now), events[..i + 1]);
    BusyNeedsClear(now, events[..i]);
  }

  lemma {:induction false} ExecPrefix(now: int, events: seq<Event>, n: nat)
    requires Exec(Init(now), events).Some? && n <= |events|
    ensures Exec(Init(now), events[..n]).Some?
    decreases |events| - n
  {
    if n == |events| {
      assert events[..n] == events;
    } else {
      ExecPrefix(now, events, n + 1);
      ExecLast(Init(now), events[..n + 1]);
      assert events[..n + 1][..n] == events[..n];
    }
  }

  lemma {:induction false} BusyNeedsClear(now: int, events: seq<Event>)
    requires Exec(Init(now), events).Some? && !Exec(Init(now), events).value.main.Waiting?
    ensures exists j | 0 <= j < |events| :: events[j].ClearStage?
  {
    if events != [] {
      var init, last := events[..|events| - 1], events[|events| - 1];
      ExecLast(Init(now), events);
      if !last.ClearStage? {
        BusyNeedsClear(now, init);
        var j :| 0 <= j < |init| && init[j].ClearStage?;
        assert events[j] == init[j];
      }
    }
  }

  /** A run in which the escalation is lost: the guest's console is full, the alarm
      expires inside a set_timeout of zero, SIGTERM is sent, and then the alarm that was
      to send SIGKILL is cancelled. */
  const LOSING: seq<Event> := [ClearStage(60), StoreTimeout, ArmTimeout, Tick(60), ClearStage(0), Fire(false),
                               StoreTimeout, ArmTimeout]

  lemma CancelLosesEscalation()
    ensures var t := Exec(Init(0), LOSING);
            t.Some? && t.value.alarm == None && t.value.stage == 2 && t.value.main.Waiting?
            && TermStands(t.value.log, 2, |t.value.log|)
  {
    var s1 := State(60, 0, 60, Some(60), Waiting, [Reset(0)]);
    var first, second := LOSING[..4], LOSING[4..];
    assert LOSING == first + second;
    LosesFirst(first);
    LosesSecond(s1, second);
    ExecJoin(Init(0), first, second);
  }

  lemma LosesFirst(first: seq<Event>)
    requires first == [ClearStage(60), StoreTimeout, ArmTimeout, Tick(60)]
    ensures Exec(Init(0), first) == Some(State(60, 0, 60, Some(60), Waiting, [Reset(0)]))
  {
    FourSteps(Init(0), first);
    assert [] + [Reset(0)] == [Reset(0)];
  }

  lemma LosesSecond(s: State, second: seq<Event>)
    requires s == State(60, 0, 60, Some(60), Waiting, [Reset(0)])
    requires second == [ClearStage(0), Fire(false), StoreTimeout, ArmTimeout]
    ensures Exec(s, second) == Some(State(60, 2, 0, None, Waiting, [Reset(0), Reset(60), Term(60)]))
  {
    FourSteps(s, second);
    assert [Reset(0)] + [Reset(60)] + [Term(60)] == [Reset(0), Reset(60), Term(60)];
  }

  lemma FourSteps(s: State, es: seq<Event>)
    requires |es| == 4
    ensures Enabled(s, es[0]) ==>
              var s1 := Step(s, es[0]);
              Enabled(s1, es[1]) ==>
                var s2 := Step(s1, es[1]);
                Enabled(s2, es[2]) ==>
                  var s3 := Step(s2, es[2]);
                  Enabled(s3, es[3]) ==> Exec(s, es) == Some(Step(s3, es[3]))
  {
    hide Enabled, Step;
    assert es[1..][0] == es[1] && es[1..][1..] == es[2..] && es[2..][0] == es[2] && es[2..][1..] == es[3..];
    assert es[3..][0] == es[3] && es[3..][1..] == [];
    if Enabled(s, es[0]) {
      var s1 := Step(s, es[0]);
      if Enabled(s1, es[1]) {
        var s2 := Step(s1, es[1]);
        if Enabled(s2, es[2]) {
          var s3 := Step(s2, es[2]);
          if Enabled(s3, es[3]) {
            assert Exec(s3, es[3..]) == Exec(Step(s3, es[3]), []);
            assert Exec(s2, es[2..]) == Exec(s3, es[3..]);
            assert Exec(s1, es[1..]) == Exec(s2, es[2..]);
          }
        }
      }
    }
  }

  lemma {:induction false} ExecJoin(s: State, a: seq<Event>, b: seq<Event>)
    requires Exec(s, a).Some?
    ensures Exec(s, a + b) == Exec(Exec(s, a).value, b)
    decreases |a|
  {
    if a == [] {
      assert a + b == b;
    } else {
      assert (a + b)[1..] == a[1..] + b;
      ExecJoin(Step(s, a[0]), a[1..], b);
    }
  }
}
