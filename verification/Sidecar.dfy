/** The persistence sidecar (scripts/lull_slot_persist.py): a supervisor loop with a hang watchdog,
    a proactive bounce under memory pressure, and a cooldown between bounces.

    What the loop reads from the world in one turn is a `Poll`; what it does to it is a list of
    actions. Runs are sequences of polls. */
module Sidecar {
  import opened Common

  /** The five settings the loop looks at. */
  datatype Config = Config(hangStrikesMax: int, proactiveMb: int, proactiveTicks: int, bounceCooldown: real, interval: real)

  /** Loop variables. */
  datatype Loop = Loop(lastPid: Option<int>, hangStrikes: nat, lowStreak: nat, cooldownUntil: real, lastSave: real)

  /** One turn's readings: free memory (-1 unknown), server pid, whether a new instance became
      healthy, whether the health check was deaf, and the clock at its four uses. */
  datatype Poll = Poll(mem: int, pid: Option<int>, becameHealthy: bool, deaf: bool,
                       atCheck: real, atBounce: real, atSave: real, afterSave: real)

  datatype Action = RestoreAll | SaveIdle | HangRestart | Bounce

  // ---- The loop body as a function ----

  /** Generation change, health check and hang watchdog. */
  function Watch(c: Config, s: Loop, p: Poll): (Loop, seq<Action>) {
    if p.pid != s.lastPid then
      (s.(lastPid := p.pid, hangStrikes := 0, lowStreak := 0),
       if p.pid.Some? && p.becameHealthy then [RestoreAll] else [])
    else if p.pid.None? then (s, [])
    else if !p.deaf then (s.(hangStrikes := 0), [])
    else if c.hangStrikesMax > 0 && s.hangStrikes + 1 >= c.hangStrikesMax then
      (s.(hangStrikes := s.hangStrikes + 1, lastPid := None), [HangRestart])
    else (s.(hangStrikes := s.hangStrikes + 1), [])
  }

  predicate Low(c: Config, p: Poll) {
    p.mem != -1 && p.mem < c.proactiveMb
  }

  predicate Counts(c: Config, s: Loop, p: Poll) {
    c.proactiveMb > 0 && Low(c, p) && p.pid.Some? && p.pid == s.lastPid && p.atCheck >= s.cooldownUntil
  }

  /** The proactive bounce. */
  function Guard(c: Config, s: Loop, p: Poll): (Loop, seq<Action>) {
    if Counts(c, s, p) then
      if s.lowStreak + 1 >= c.proactiveTicks then
        (s.(lowStreak := s.lowStreak + 1, lastPid := None, cooldownUntil := p.atBounce + c.bounceCooldown),
         [SaveIdle, Bounce])
      else (s.(lowStreak := s.lowStreak + 1), [])
    else if !Low(c, p) then (s.(lowStreak := 0), [])
    else (s, [])
  }

  /** The periodic save. */
  function Autosave(c: Config, s: Loop, p: Poll): (Loop, seq<Action>) {
    if p.atSave - s.lastSave >= c.interval then
      (s.(lastSave := p.afterSave), if p.pid.Some? then [SaveIdle] else [])
    else (s, [])
  }

  function Turn(c: Config, s: Loop, p: Poll): (Loop, seq<Action>) {
    var (s1, a1) := Watch(c, s, p);
    var (s2, a2) := Guard(c, s1, p);
    var (s3, a3) := Autosave(c, s2, p);
    (s3, a1 + a2 + a3)
  }

  function Start(pid: Option<int>): Loop {
    Loop(pid, 0, 0, 0.0, 0.0)
  }

  // ---- The loop body as the source runs it ----

  class Supervisor {
    const config: Config
    var lastPid: Option<int>
    var hangStrikes: nat
    var lowStreak: nat
    var cooldownUntil: real
    var lastSave: real

    function View(): Loop
      reads this
    {
      Loop(lastPid, hangStrikes, lowStreak, cooldownUntil, lastSave)
    }

    constructor (c: Config, pid: Option<int>)
      ensures config == c && View() == Start(pid)
    {
      config := c;
      lastPid, hangStrikes, lowStreak, cooldownUntil, lastSave := pid, 0, 0, 0.0, 0.0;
    }

    /** One turn of the loop. */
    method Tick(p: Poll) returns (actions: seq<Action>)
      modifies this
      ensures (View(), actions) == Turn(config, old(View()), p)
      ensures Restarts(actions) <= 1
    {
      hide Restarts, Watch, Guard, Autosave;
      AtMostOneRestart(config, View(), p);
      var watched := WatchServer(p);
      var guarded := GuardMemory(p);
      var saved := SaveOnInterval(p);
      actions := watched + guarded + saved;
    }

    /** Generation change, health check and hang watchdog. */
    method WatchServer(p: Poll) returns (actions: seq<Action>)
      modifies this
      ensures (View(), actions) == Watch(config, old(View()), p)
    {
      actions := [];
      if p.pid != lastPid {
        lastPid := p.pid;
        hangStrikes := 0;
        lowStreak := 0;
        if p.pid.Some? && p.becameHealthy {
          actions := [RestoreAll];
        }
      } else if p.pid.Some? {
        if p.deaf {
          hangStrikes := hangStrikes + 1;
          if config.hangStrikesMax > 0 && hangStrikes >= config.hangStrikesMax {
            actions := [HangRestart];
            lastPid := None;
          }
        } else {
          hangStrikes := 0;
        }
      }
    }

    /** The proactive bounce. */
    method GuardMemory(p: Poll) returns (actions: seq<Action>)
      modifies this
      ensures (View(), actions) == Guard(config, old(View()), p)
    {
      actions := [];
      if config.proactiveMb > 0 && p.mem != -1 && p.mem < config.proactiveMb
         && p.pid.Some? && p.pid == lastPid && p.atCheck >= cooldownUntil {
        lowStreak := lowStreak + 1;
        if lowStreak >= config.proactiveTicks {
          actions := [SaveIdle, Bounce];
          lastPid := None;
          cooldownUntil := p.atBounce + config.bounceCooldown;
        }
      } else if p.mem == -1 || p.mem >= config.proactiveMb {
        lowStreak := 0;
      }
    }

    /** The periodic save. */
    method SaveOnInterval(p: Poll) returns (actions: seq<Action>)
      modifies this
      ensures (View(), actions) == Autosave(config, old(View()), p)
    {
      actions := [];
      if p.atSave - lastSave >= config.interval {
        if p.pid.Some? {
          actions := [SaveIdle];
        }
        lastSave := p.afterSave;
      }
    }
  }

  // ---- One turn ----

  function Restarts(actions: seq<Action>): nat {
    if actions == [] then 0
    else (if actions[0] == HangRestart || actions[0] == Bounce then 1 else 0) + Restarts(actions[1..])
  }

  lemma {:induction false} RestartsAppend(a: seq<Action>, b: seq<Action>)
    ensures Restarts(a + b) == Restarts(a) + Restarts(b)
  {
    if a == [] {
      assert a + b == b;
    } else {
      RestartsAppend(a[1..], b);
      assert (a + b)[1..] == a[1..] + b;
    }
  }

  /** No turn restarts the server twice. */
  lemma AtMostOneRestart(c: Config, s: Loop, p: Poll)
    ensures Restarts(Turn(c, s, p).1) <= 1
  {
    var (s1, a1) := Watch(c, s, p);
    var (s2, a2) := Guard(c, s1, p);
    var (s3, a3) := Autosave(c, s2, p);
    RestartsAppend(a1 + a2, a3);
    RestartsAppend(a1, a2);
    assert Restarts([SaveIdle, Bounce]) == 1 + Restarts([Bounce][1..]) by {
      assert [SaveIdle, Bounce][1..] == [Bounce];
    }
  }

  predicate Hangs(c: Config, s: Loop, p: Poll) {
    HangRestart in Turn(c, s, p).1
  }

  predicate Bounces(c: Config, s: Loop, p: Poll) {
    Bounce in Turn(c, s, p).1
  }

  lemma HangsWhen(c: Config, s: Loop, p: Poll)
    ensures Hangs(c, s, p) <==>
            p.pid.Some? && p.pid == s.lastPid && p.deaf && c.hangStrikesMax > 0 && s.hangStrikes + 1 >= c.hangStrikesMax
  {
    var (s1, a1) := Watch(c, s, p);
    if a1 == [HangRestart] {
      assert (a1 + Guard(c, s1, p).1)[0] == HangRestart;
    }
  }

  lemma BouncesWhen(c: Config, s: Loop, p: Poll)
    ensures var s1 := Watch(c, s, p).0;
            Bounces(c, s, p) <==> Counts(c, s1, p) && s1.lowStreak + 1 >= c.proactiveTicks
  {
    var (s1, a1) := Watch(c, s, p);
    var (s2, a2) := Guard(c, s1, p);
    if a2 == [SaveIdle, Bounce] {
      assert (a1 + a2)[|a1| + 1] == Bounce;
    }
  }

  // ---- Runs ----

  /** `states` are the loop variables before each poll and after the last. */
  ghost predicate IsRun(c: Config, states: seq<Loop>, polls: seq<Poll>) {
    && |states| == |polls| + 1 && states[0] == Start(states[0].lastPid)
    && forall i :: 0 <= i < |polls| ==> states[i + 1] == Turn(c, states[i], polls[i]).0
  }

  lemma RunStep(c: Config, states: seq<Loop>, polls: seq<Poll>, n: nat)
    requires IsRun(c, states, polls) && 0 < n <= |polls|
    ensures states[n] == Turn(c, states[n - 1], polls[n - 1]).0
  {
    assert states[n - 1 + 1] == Turn(c, states[n - 1], polls[n - 1]).0;
  }

  // ---- The hang watchdog ----

  /** A health-deaf poll of the generation the loop is watching. */
  predicate Strike(s: Loop, p: Poll, pid: int) {
    p.pid == s.lastPid == Some(pid) && p.deaf
  }

  /** The last `m` polls before `n` were all strikes against one generation. */
  ghost predicate StruckSince(states: seq<Loop>, polls: seq<Poll>, n: nat, m: nat, pid: int)
    requires |states| == |polls| + 1 && n <= |polls|
  {
    m <= n && forall j :: n - m <= j < n ==> Strike(states[j], polls[j], pid)
  }

  /** The strike counter is the number of strikes in a row, and stays below the limit. */
  lemma {:induction false} CounterIsStrikes(c: Config, states: seq<Loop>, polls: seq<Poll>, n: nat)
    requires IsRun(c, states, polls) && n <= |polls|
    ensures var s := states[n];
            s.lastPid.Some? ==>
            && StruckSince(states, polls, n, s.hangStrikes, s.lastPid.value)
            && (c.hangStrikesMax > 0 ==> s.hangStrikes < c.hangStrikesMax)
            && (s.hangStrikes < n ==> !Strike(states[n - 1 - s.hangStrikes], polls[n - 1 - s.hangStrikes], s.lastPid.value))
  {
    if n > 0 {
      CounterIsStrikes(c, states, polls, n - 1);
      RunStep(c, states, polls, n);
    }
  }

  /** Main result on the watchdog: the server is restarted as hung exactly when the last
      `hangStrikesMax` polls were deaf polls of one and the same generation. */
  lemma HangExactly(c: Config, states: seq<Loop>, polls: seq<Poll>, n: nat)
    requires IsRun(c, states, polls) && n < |polls| && c.hangStrikesMax > 0
    ensures Hangs(c, states[n], polls[n]) <==>
            polls[n].pid.Some? && StruckSince(states, polls, n + 1, c.hangStrikesMax, polls[n].pid.value)
  {
    var m := c.hangStrikesMax;
    var s, p := states[n], polls[n];
    CounterIsStrikes(c, states, polls, n);
    HangsWhen(c, s, p);
    if p.pid.Some? && StruckSince(states, polls, n + 1, m, p.pid.value) {
      assert Strike(states[n], polls[n], p.pid.value);
    }
  }

  /** Read off the polls alone: the restart follows that many deaf polls with one pid, and no healthy
      poll lies between them. */
  lemma HangFollowsDeafPolls(c: Config, states: seq<Loop>, polls: seq<Poll>, n: nat)
    requires IsRun(c, states, polls) && n < |polls| && Hangs(c, states[n], polls[n])
    ensures 0 < c.hangStrikesMax <= n + 1 && polls[n].pid.Some?
    ensures forall j :: n - c.hangStrikesMax < j <= n ==> polls[j].deaf && polls[j].pid == polls[n].pid
  {
    HangsWhen(c, states[n], polls[n]);
    HangExactly(c, states, polls, n);
    assert forall j :: n - c.hangStrikesMax < j <= n ==> Strike(states[j], polls[j], polls[n].pid.value);
  }

  // ---- The proactive bounce ----

  /** The clock never runs backwards. */
  ghost predicate Monotone(polls: seq<Poll>) {
    && (forall i :: 0 <= i < |polls| ==> polls[i].atCheck <= polls[i].atBounce)
    && (forall i, j :: 0 <= i < j < |polls| ==> polls[i].atBounce <= polls[j].atCheck)
  }

  /** While no cooldown is negative, the deadline is at or after that of every earlier bounce. */
  lemma {:induction false} DeadlineHolds(c: Config, states: seq<Loop>, polls: seq<Poll>, i: nat, n: nat)
    requires IsRun(c, states, polls) && Monotone(polls) && c.bounceCooldown >= 0.0
    requires i < n <= |polls| && Bounces(c, states[i], polls[i])
    ensures states[n].cooldownUntil >= polls[i].atBounce + c.bounceCooldown
  {
    RunStep(c, states, polls, n);
    BouncesWhen(c, states[n - 1], polls[n - 1]);
    if n - 1 > i {
      DeadlineHolds(c, states, polls, i, n - 1);
    }
  }

  /** Any two bounces are at least the cooldown apart. */
  lemma BouncesApart(c: Config, states: seq<Loop>, polls: seq<Poll>, i: nat, j: nat)
    requires IsRun(c, states, polls) && Monotone(polls) && i < j < |polls|
    requires Bounces(c, states[i], polls[i]) && Bounces(c, states[j], polls[j])
    ensures polls[j].atCheck - polls[i].atBounce >= c.bounceCooldown
  {
    BouncesWhen(c, states[j], polls[j]);
    if c.bounceCooldown >= 0.0 {
      DeadlineHolds(c, states, polls, i, j);
    }
  }

  /** Poll `j` found memory low in a server the loop is watching, outside any cooldown. */
  predicate CountedAt(c: Config, states: seq<Loop>, polls: seq<Poll>, j: nat)
    requires j < |polls| <= |states|
  {
    Counts(c, Watch(c, states[j], polls[j]).0, polls[j])
  }

  /** The last `m` polls before `n` all counted, against one generation watched throughout. */
  ghost predicate CountedSince(c: Config, states: seq<Loop>, polls: seq<Poll>, n: nat, m: nat, pid: int)
    requires |states| == |polls| + 1 && n <= |polls|
  {
    && m <= n
    && (forall j :: n - m <= j < n ==> CountedAt(c, states, polls, j) && polls[j].pid == Some(pid))
    && (forall j :: n - m < j < n ==> states[j].lastPid == Some(pid))
  }

  /** Polls it takes; a setting below one means one. */
  function Needed(c: Config): nat {
    if c.proactiveTicks < 1 then 1 else c.proactiveTicks
  }

  /** A streak that has begun is out of the cooldown, whose end only a bounce moves. */
  ghost predicate Clear(c: Config, s: Loop, polls: seq<Poll>, n: nat)
    requires n <= |polls|
  {
    s.lowStreak > 0 ==> c.proactiveMb > 0 && n > 0 && s.cooldownUntil <= polls[n - 1].atCheck
  }

  lemma NoneCounted(c: Config, states: seq<Loop>, polls: seq<Poll>, n: nat, pid: int)
    requires |states| == |polls| + 1 && n <= |polls|
    ensures CountedSince(c, states, polls, n, 0, pid)
  {
  }

  lemma OneMoreCounted(c: Config, states: seq<Loop>, polls: seq<Poll>, n: nat, m: nat, pid: int)
    requires |states| == |polls| + 1 && n < |polls| && CountedSince(c, states, polls, n, m, pid)
    requires CountedAt(c, states, polls, n) && polls[n].pid == Some(pid) && (m > 0 ==> states[n].lastPid == Some(pid))
    ensures CountedSince(c, states, polls, n + 1, m + 1, pid)
  {
  }

  /** Watching a poll keeps the streak of the same generation and begins a new one at zero. */
  lemma WatchStreak(c: Config, s: Loop, p: Poll)
    ensures var s1 := Watch(c, s, p).0;
            && s1.cooldownUntil == s.cooldownUntil
            && s1.lowStreak == (if p.pid == s.lastPid then s.lowStreak else 0)
            && (s1.lastPid.Some? ==> s1.lastPid == p.pid)
  {
  }

  /** What a turn makes of the streak. */
  lemma TurnStreak(c: Config, s: Loop, p: Poll)
    ensures var s1, x := Watch(c, s, p).0, Turn(c, s, p).0;
            && (Counts(c, s1, p) ==> x.lowStreak == s1.lowStreak + 1)
            && (!Counts(c, s1, p) ==> x.lowStreak == (if Low(c, p) then s1.lowStreak else 0) && x.lastPid == s1.lastPid)
            && (x.lastPid.Some? ==> x.lastPid == s1.lastPid && x.cooldownUntil == s1.cooldownUntil)
            && (x.lastPid.Some? && Counts(c, s1, p) ==> s1.lowStreak + 1 < c.proactiveTicks)
  {
  }

  /** With a clock that does not run backwards the streak is the number of counted polls in a row. */
  lemma {:induction false} StreakIsCounted(c: Config, states: seq<Loop>, polls: seq<Poll>, n: nat)
    requires IsRun(c, states, polls) && Monotone(polls) && n <= |polls|
    ensures var s := states[n];
            s.lastPid.Some? ==>
            && CountedSince(c, states, polls, n, s.lowStreak, s.lastPid.value)
            && s.lowStreak < Needed(c) && Clear(c, s, polls, n)
  {
    hide Turn, Watch, Counts, Low, CountedSince;
    var s := states[n];
    if n == 0 && s.lastPid.Some? {
      NoneCounted(c, states, polls, 0, s.lastPid.value);
    } else if s.lastPid.Some? {
      var before, p, pid := states[n - 1], polls[n - 1], s.lastPid.value;
      RunStep(c, states, polls, n);
      WatchStreak(c, before, p);
      TurnStreak(c, before, p);
      StreakIsCounted(c, states, polls, n - 1);
      NoneCounted(c, states, polls, n, pid);
      NoneCounted(c, states, polls, n - 1, pid);
      var s1 := Watch(c, before, p).0;
      if Counts(c, s1, p) {
        CountedInTime(c, s1, p);
        OneMoreCounted(c, states, polls, n - 1, s1.lowStreak, pid);
      } else if Low(c, p) && s1.lowStreak > 0 {
        LowAndClear(c, s1, p, polls, n - 1);
      }
    }
  }

  lemma CountedInTime(c: Config, s: Loop, p: Poll)
    requires Counts(c, s, p)
    ensures p.atCheck >= s.cooldownUntil && c.proactiveMb > 0
  {
  }

  /** Once begun, a streak counts every low poll of its generation. */
  lemma LowAndClear(c: Config, s: Loop, p: Poll, polls: seq<Poll>, n: nat)
    requires Monotone(polls) && n < |polls| && polls[n] == p && Clear(c, s, polls, n) && s.lowStreak > 0
    requires Low(c, p) && s.lastPid.Some? && s.lastPid == p.pid
    ensures Counts(c, s, p)
  {
  }

  /** The streak is at least the number of counted polls in a row; no clock needed. */
  lemma {:induction false} CountedIsStreak(c: Config, states: seq<Loop>, polls: seq<Poll>, n: nat, m: nat, pid: int)
    requires IsRun(c, states, polls) && n <= |polls| && CountedSince(c, states, polls, n, m, pid)
    requires states[n].lastPid == Some(pid)
    ensures states[n].lowStreak >= m
    decreases m
  {
    if m > 0 {
      hide Turn, Watch, Counts;
      var before, p := states[n - 1], polls[n - 1];
      RunStep(c, states, polls, n);
      WatchStreak(c, before, p);
      TurnStreak(c, before, p);
      assert CountedAt(c, states, polls, n - 1);
      if m > 1 {
        CountedIsStreak(c, states, polls, n - 1, m - 1, pid);
      }
    }
  }

  /** Main result on the bounce: the server is bounced exactly when the last `proactiveTicks` polls
      in a row found memory low, outside the cooldown, in one watched generation. */
  lemma BounceExactly(c: Config, states: seq<Loop>, polls: seq<Poll>, n: nat)
    requires IsRun(c, states, polls) && Monotone(polls) && n < |polls|
    ensures Bounces(c, states[n], polls[n]) <==>
            polls[n].pid.Some? && CountedSince(c, states, polls, n + 1, Needed(c), polls[n].pid.value)
  {
    hide Turn, Watch, Counts, CountedSince;
    var s, p := states[n], polls[n];
    BouncesWhen(c, s, p);
    WatchStreak(c, s, p);
    var s1 := Watch(c, s, p).0;
    if Bounces(c, s, p) {
      CountedHasPid(c, s1, p);
      StreakIsCounted(c, states, polls, n);
      NoneCounted(c, states, polls, n, p.pid.value);
      OneMoreCounted(c, states, polls, n, s1.lowStreak, p.pid.value);
      if s1.lowStreak + 1 > Needed(c) {
        assert false;
      }
    }
    if p.pid.Some? && CountedSince(c, states, polls, n + 1, Needed(c), p.pid.value) {
      CountedLast(c, states, polls, n, Needed(c), p.pid.value);
      if Needed(c) > 1 {
        CountedIsStreak(c, states, polls, n, Needed(c) - 1, p.pid.value);
      }
    }
  }

  lemma CountedHasPid(c: Config, s: Loop, p: Poll)
    requires Counts(c, s, p)
    ensures p.pid.Some? && s.lastPid == p.pid
  {
  }

  lemma CountedLast(c: Config, states: seq<Loop>, polls: seq<Poll>, n: nat, m: nat, pid: int)
    requires |states| == |polls| + 1 && n < |polls| && m > 0 && CountedSince(c, states, polls, n + 1, m, pid)
    ensures CountedAt(c, states, polls, n) && CountedSince(c, states, polls, n, m - 1, pid)
    ensures m > 1 ==> states[n].lastPid == Some(pid)
  {
  }

  /** Read off the polls alone: a bounce follows that many low polls in a row with one pid. */
  lemma BounceFollowsLowPolls(c: Config, states: seq<Loop>, polls: seq<Poll>, n: nat)
    requires IsRun(c, states, polls) && Monotone(polls) && n < |polls| && Bounces(c, states[n], polls[n])
    ensures c.proactiveMb > 0 && c.proactiveTicks <= n + 1 && polls[n].pid.Some?
    ensures forall j :: n - c.proactiveTicks < j <= n ==> Low(c, polls[j]) && polls[j].pid == polls[n].pid
  {
    BounceExactly(c, states, polls, n);
    assert CountedAt(c, states, polls, n);
    assert forall j :: n - c.proactiveTicks < j <= n ==> CountedAt(c, states, polls, j);
  }

  // ---- What the polls count against ----

  /** The loop watches the server it last saw, and none after it restarted one. */
  lemma WatchedExactly(c: Config, s: Loop, p: Poll)
    ensures Turn(c, s, p).0.lastPid == if Hangs(c, s, p) || Bounces(c, s, p) then None else p.pid
  {
    HangsWhen(c, s, p);
    BouncesWhen(c, s, p);
  }

  /** A poll counts exactly if it knows the free memory, finds it below the floor and a server that was not just
      restarted as hung, and comes after the cooldown. */
  lemma CountedExactly(c: Config, states: seq<Loop>, polls: seq<Poll>, j: nat)
    requires j < |polls| <= |states|
    ensures var s, p := states[j], polls[j];
            CountedAt(c, states, polls, j) <==>
            c.proactiveMb > 0 && p.mem != -1 && p.mem < c.proactiveMb && p.pid.Some? && !Hangs(c, s, p) && p.atCheck >= s.cooldownUntil
  {
    HangsWhen(c, states[j], polls[j]);
  }

  /** Poll `k` was the last before `n` that bounced the server. */
  ghost predicate LastBounce(c: Config, states: seq<Loop>, polls: seq<Poll>, k: nat, n: nat)
    requires |states| == |polls| + 1
  {
    && k < n <= |polls| && Bounces(c, states[k], polls[k])
    && forall j :: k < j < n ==> !Bounces(c, states[j], polls[j])
  }

  lemma CooldownStep(c: Config, s: Loop, p: Poll)
    ensures Turn(c, s, p).0.cooldownUntil == if Bounces(c, s, p) then p.atBounce + c.bounceCooldown else s.cooldownUntil
  {
    BouncesWhen(c, s, p);
  }

  /** The cooldown ends its length after the last bounce. */
  lemma {:induction false} CooldownExactly(c: Config, states: seq<Loop>, polls: seq<Poll>, k: nat, n: nat)
    requires IsRun(c, states, polls) && LastBounce(c, states, polls, k, n)
    ensures states[n].cooldownUntil == polls[k].atBounce + c.bounceCooldown
    decreases n
  {
    hide Turn, Bounces;
    RunStep(c, states, polls, n);
    CooldownStep(c, states[n - 1], polls[n - 1]);
    if k < n - 1 {
      CooldownExactly(c, states, polls, k, n - 1);
    }
  }

  lemma {:induction false} NoCooldownYet(c: Config, states: seq<Loop>, polls: seq<Poll>, n: nat)
    requires IsRun(c, states, polls) && n <= |polls| && forall j :: 0 <= j < n ==> !Bounces(c, states[j], polls[j])
    ensures states[n].cooldownUntil == 0.0
  {
    if n > 0 {
      hide Turn, Bounces;
      RunStep(c, states, polls, n);
      CooldownStep(c, states[n - 1], polls[n - 1]);
      NoCooldownYet(c, states, polls, n - 1);
    }
  }

  // ---- Restoring and saving ----

  /** Checkpoints are replayed exactly for a new instance that became healthy, and before anything else. */
  lemma RestoreExactly(c: Config, s: Loop, p: Poll)
    ensures var actions := Turn(c, s, p).1;
            && (RestoreAll in actions <==> p.pid != s.lastPid && p.pid.Some? && p.becameHealthy)
            && (RestoreAll in actions ==> actions[0] == RestoreAll)
  {
    var (s1, a1) := Watch(c, s, p);
    var (s2, a2) := Guard(c, s1, p);
    if a1 == [RestoreAll] {
      assert (a1 + a2)[0] == RestoreAll;
    }
  }

  /** No bounce without a save right before it. */
  lemma SavedBeforeBounce(c: Config, s: Loop, p: Poll, k: nat)
    requires k < |Turn(c, s, p).1| && Turn(c, s, p).1[k] == Bounce
    ensures k > 0 && Turn(c, s, p).1[k - 1] == SaveIdle
  {
    var (s1, a1) := Watch(c, s, p);
    var (s2, a2) := Guard(c, s1, p);
    var a := a1 + a2;
    assert forall j :: 0 <= j < |a| ==> a[j] == if j < |a1| then a1[j] else a2[j - |a1|];
  }

  /** The save interval is over. */
  predicate Due(c: Config, s: Loop, p: Poll) {
    p.atSave - s.lastSave >= c.interval
  }

  function Saves(actions: seq<Action>): nat {
    if actions == [] then 0 else (if actions[0] == SaveIdle then 1 else 0) + Saves(actions[1..])
  }

  lemma {:induction false} SavesAppend(a: seq<Action>, b: seq<Action>)
    ensures Saves(a + b) == Saves(a) + Saves(b)
  {
    if a == [] {
      assert a + b == b;
    } else {
      SavesAppend(a[1..], b);
      assert (a + b)[1..] == a[1..] + b;
    }
  }

  /** Slots are saved once for a bounce and once, at the end of the turn, when the interval is over and there is a
      server; only the end of the interval moves the clock of saves. */
  lemma SavesExactly(c: Config, s: Loop, p: Poll)
    ensures var (x, actions) := Turn(c, s, p);
            && Saves(actions) == (if Bounces(c, s, p) then 1 else 0) + (if Due(c, s, p) && p.pid.Some? then 1 else 0)
            && (Due(c, s, p) && p.pid.Some? ==> actions != [] && actions[|actions| - 1] == SaveIdle)
            && x.lastSave == if Due(c, s, p) then p.afterSave else s.lastSave
  {
    var (s1, a1) := Watch(c, s, p);
    var (s2, a2) := Guard(c, s1, p);
    var (s3, a3) := Autosave(c, s2, p);
    BouncesWhen(c, s, p);
    SavesAppend(a1 + a2, a3);
    SavesAppend(a1, a2);
    assert [SaveIdle, Bounce][1..] == [Bounce] && [Bounce][1..] == [] && [SaveIdle][1..] == [];
    assert Saves([SaveIdle, Bounce]) == 1 + Saves([Bounce]) && Saves([Bounce]) == Saves([]) == 0 && Saves([SaveIdle]) == 1 + Saves([]);
    assert Saves(a1) == 0 by {
      assert a1 != [] ==> a1[1..] == [];
    }
  }

  /** Poll `k` ended the last save interval before poll `n`. */
  ghost predicate LastDue(c: Config, states: seq<Loop>, polls: seq<Poll>, k: nat, n: nat)
    requires |states| == |polls| + 1
  {
    && k < n <= |polls| && Due(c, states[k], polls[k])
    && forall j :: k < j < n ==> !Due(c, states[j], polls[j])
  }

  /** The clock of saves is that of the last poll that ended an interval. */
  lemma {:induction false} SaveClock(c: Config, states: seq<Loop>, polls: seq<Poll>, k: nat, n: nat)
    requires IsRun(c, states, polls) && LastDue(c, states, polls, k, n)
    ensures states[n].lastSave == polls[k].afterSave
    decreases n
  {
    RunStep(c, states, polls, n);
    SavesExactly(c, states[n - 1], polls[n - 1]);
    if k < n - 1 {
      SaveClock(c, states, polls, k, n - 1);
    }
  }

  lemma {:induction false} SaveClockAtFirst(c: Config, states: seq<Loop>, polls: seq<Poll>, n: nat)
    requires IsRun(c, states, polls) && n <= |polls| && forall j :: 0 <= j < n ==> !Due(c, states[j], polls[j])
    ensures states[n].lastSave == 0.0
  {
    if n > 0 {
      RunStep(c, states, polls, n);
      SavesExactly(c, states[n - 1], polls[n - 1]);
      SaveClockAtFirst(c, states, polls, n - 1);
    }
  }

  /** Main result on saving: a poll with a server saves at its end exactly if the interval has passed since the end
      of the last poll that did so, or was due to without a server. */
  lemma AutosaveExactly(c: Config, states: seq<Loop>, polls: seq<Poll>, k: nat, n: nat)
    requires IsRun(c, states, polls) && n < |polls| && LastDue(c, states, polls, k, n) && polls[n].pid.Some?
    ensures Saves(Turn(c, states[n], polls[n]).1) ==
            (if Bounces(c, states[n], polls[n]) then 1 else 0) + (if polls[n].atSave - polls[k].afterSave >= c.interval then 1 else 0)
  {
    SaveClock(c, states, polls, k, n);
    SavesExactly(c, states[n], polls[n]);
  }
}
