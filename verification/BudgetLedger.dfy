/** The euro budget of the escalation daemon (scripts/ascensusd.py).

    Requests run in threads: each asks the gate, waits for the cloud, and then books its actual
    cost. Loading, adding and saving at booking time is one step, as the single-writer ledger
    intends; everything else interleaves freely, over any number of day and month changes. */
module BudgetLedger {
  import opened Common

  const CALLS_KEPT := 200

  /** UTC day and local day, both counted in days; the month follows from the UTC day. */
  datatype Clock = Clock(day: nat, localDay: nat)

  datatype Config = Config(daily: real, monthly: real, maxCalls: nat, budgetOff: bool, monthOf: nat -> nat)

  /** The ledger file; of a recorded call only its local day matters. */
  datatype Ledger = Ledger(day: nat, spent: real, month: nat, spentMonth: real, calls: seq<nat>)

  /** A booked call, for the record. */
  datatype Charge = Charge(day: nat, month: nat, localDay: nat, estimate: real, eur: real)

  /** `inFlight` holds the estimates of the requests between gate and booking; `log` records the
      booked calls and `lost` those that ended without one. */
  datatype State = State(now: Clock, file: Option<Ledger>, inFlight: seq<real>, log: seq<Charge>, lost: seq<Charge>)

  /** `Fail` is a call that ends in an error or returns no text: nothing is booked, whatever the
      provider charges for it. */
  datatype Event = Tick(next: Clock) | Ask(estimate: real) | Book(i: nat, eur: real) | Fail(i: nat, eur: real)

  ghost predicate ValidConfig(c: Config) {
    c.daily >= 0.0 && c.monthly >= 0.0 && forall d, e :: 0 <= d <= e ==> c.monthOf(d) <= c.monthOf(e)
  }

  // ---- The daemon ----

  function LoadLedger(c: Config, file: Option<Ledger>, now: Clock): Ledger {
    var month := c.monthOf(now.day);
    var led := if file.Some? then file.value else Ledger(now.day, 0.0, month, 0.0, []);
    var led' := if led.day != now.day then led.(day := now.day, spent := 0.0) else led;
    if led'.month != month then led'.(month := month, spentMonth := 0.0) else led'
  }

  function LastCalls(calls: seq<nat>): seq<nat> {
    if |calls| <= CALLS_KEPT then calls else calls[|calls| - CALLS_KEPT..]
  }

  function Count(days: seq<nat>, d: nat): nat {
    if days == [] then 0 else (if days[0] == d then 1 else 0) + Count(days[1..], d)
  }

  predicate Refuses(c: Config, led: Ledger, now: Clock, estimate: real) {
    !c.budgetOff &&
    (|| led.spent + estimate > c.daily
     || led.spentMonth + estimate > c.monthly
     || (c.maxCalls != 0 && Count(led.calls, now.localDay) >= c.maxCalls))
  }

  function BookCall(led: Ledger, eur: real, now: Clock): Ledger {
    Ledger(led.day, led.spent + eur, led.month, led.spentMonth + eur, LastCalls(led.calls + [now.localDay]))
  }

  function Without(s: seq<real>, i: nat): seq<real>
    requires i < |s|
  {
    s[..i] + s[i + 1..]
  }

  function ChargeOf(c: Config, s: State, i: nat, eur: real): Charge
    requires i < |s.inFlight|
  {
    Charge(s.now.day, c.monthOf(s.now.day), s.now.localDay, s.inFlight[i], eur)
  }

  predicate Enabled(s: State, e: Event) {
    match e
    case Tick(next) => next.day >= s.now.day && next.localDay >= s.now.localDay
    case Ask(estimate) => estimate >= 0.0
    case Book(i, eur) => i < |s.inFlight| && eur >= 0.0
    case Fail(i, eur) => i < |s.inFlight| && eur >= 0.0
  }

  function Step(c: Config, s: State, e: Event): State
    requires Enabled(s, e)
  {
    match e
    case Tick(next) => s.(now := next)
    case Ask(estimate) =>
      if Refuses(c, LoadLedger(c, s.file, s.now), s.now, estimate) then s
      else s.(inFlight := s.inFlight + [estimate])
    case Book(i, eur) =>
      var led := BookCall(LoadLedger(c, s.file, s.now), eur, s.now);
      State(s.now, Some(led), Without(s.inFlight, i), s.log + [ChargeOf(c, s, i, eur)], s.lost)
    case Fail(i, eur) => s.(inFlight := Without(s.inFlight, i), lost := s.lost + [ChargeOf(c, s, i, eur)])
  }

  function Init(now: Clock): State {
    State(now, None, [], [], [])
  }

  /** The code around the ledger file; `log` is the record of all bookings. */
  class Daemon {
    const config: Config
    var file: Option<Ledger>

    constructor (c: Config)
      ensures config == c && file == None
    {
      config, file := c, None;
    }

    /** The gate: decides, and changes nothing. */
    method Gate(now: Clock, estimate: real, ghost log: seq<Charge>) returns (admitted: bool)
      requires ValidConfig(config) && Books(config, State(now, file, [], log, [])) && Calls(State(now, file, [], log, []))
      ensures !admitted <==> OverBudget(config, log, now, estimate)
      ensures admitted <==> !Refuses(config, LoadLedger(config, file, now), now, estimate)
    {
      hide ValidConfig, Spent, OverBudget, LastCalls, LocalDays, Calls;
      RefusesExactly(config, State(now, file, [], log, []), estimate);
      admitted := true;
      if !config.budgetOff {
        var led := LoadLedger(config, file, now);
        if led.spent + estimate > config.daily || led.spentMonth + estimate > config.monthly {
          admitted := false;
        } else if config.maxCalls != 0 && Count(led.calls, now.localDay) >= config.maxCalls {
          admitted := false;
        }
      }
    }

    /** Booking the actual cost: load, add, keep the last calls, save. */
    method Commit(now: Clock, eur: real, estimate: real, ghost log: seq<Charge>) returns (ghost after: seq<Charge>)
      requires ValidConfig(config) && Books(config, State(now, file, [], log, [])) && eur >= 0.0
      requires Calls(State(now, file, [], log, []))
      modifies this
      ensures after == log + [Charge(now.day, config.monthOf(now.day), now.localDay, estimate, eur)]
      ensures Books(config, State(now, file, [], after, [])) && Calls(State(now, file, [], after, []))
      ensures file == Some(BookCall(LoadLedger(config, old(file), now), eur, now))
      ensures file.value.spent == Spent(Daily, after, now.day)
      ensures file.value.spentMonth == Spent(Monthly, after, config.monthOf(now.day))
    {
      hide ValidConfig, Spent;
      LoadedIsSpent(config, State(now, file, [], log, []));
      var led := LoadLedger(config, file, now);
      ghost var x := Charge(now.day, config.monthOf(now.day), now.localDay, estimate, eur);
      BookAgrees(config, led, log, x, now);
      after := log + [x];
      BookCounts(config, State(now, old(file), [], log, []), x);
      led := led.(calls := led.calls + [now.localDay]);
      led := led.(spent := led.spent + eur, spentMonth := led.spentMonth + eur);
      led := led.(calls := LastCalls(led.calls));
      file := Some(led);
    }
  }

  /** `states` is a run of the daemon that begins without a ledger file. */
  ghost predicate IsRun(c: Config, states: seq<State>, events: seq<Event>) {
    && |states| == |events| + 1 && states[0] == Init(states[0].now)
    && forall i :: 0 <= i < |events| ==> Enabled(states[i], events[i]) && states[i + 1] == Step(c, states[i], events[i])
  }

  /** At most `k` requests wait at once and no estimate exceeds `e`. */
  ghost predicate Bounded(s: State, k: nat, e: real) {
    |s.inFlight| <= k && forall i :: 0 <= i < |s.inFlight| ==> s.inFlight[i] <= e
  }

  // ---- What was booked, and what was paid ----

  datatype Period = Daily | Monthly

  function Key(p: Period, x: Charge): nat {
    if p == Daily then x.day else x.month
  }

  function Today(c: Config, p: Period, day: nat): nat {
    if p == Daily then day else c.monthOf(day)
  }

  function Cap(c: Config, p: Period): real {
    if p == Daily then c.daily else c.monthly
  }

  /** Sum of the booked costs of a day or month. */
  function Spent(p: Period, log: seq<Charge>, v: nat): real {
    if log == [] then 0.0
    else Spent(p, log[..|log| - 1], v) + if Key(p, log[|log| - 1]) == v then log[|log| - 1].eur else 0.0
  }

  /** What a day or month has cost, booked or not. */
  function Paid(p: Period, s: State, v: nat): real {
    Spent(p, s.log, v) + Spent(p, s.lost, v)
  }

  /** By how much the calls of a day or month cost more than was estimated at the gate. */
  function Overshoot(p: Period, log: seq<Charge>, v: nat): real {
    if log == [] then 0.0
    else
      var x := log[|log| - 1];
      Overshoot(p, log[..|log| - 1], v) +
      if Key(p, x) == v && x.eur > x.estimate then x.eur - x.estimate else 0.0
  }

  function Sum(s: seq<real>): real {
    if s == [] then 0.0 else s[0] + Sum(s[1..])
  }

  // ---- Small facts ----

  lemma {:induction false} SumSnoc(s: seq<real>, x: real)
    ensures Sum(s + [x]) == Sum(s) + x
  {
    if s == [] {
      assert s + [x] == [x] && [x][1..] == [];
    } else {
      SumSnoc(s[1..], x);
      assert (s + [x])[1..] == s[1..] + [x];
    }
  }

  lemma {:induction false} SumWithout(s: seq<real>, i: nat)
    requires i < |s|
    ensures Sum(Without(s, i)) == Sum(s) - s[i]
  {
    if i == 0 {
      assert Without(s, 0) == s[1..];
    } else {
      SumWithout(s[1..], i - 1);
      assert Without(s, i)[1..] == Without(s[1..], i - 1);
    }
  }

  /** `n * e`, added up. */
  function Times(n: nat, e: real): real {
    if n == 0 then 0.0 else e + Times(n - 1, e)
  }

  lemma {:induction false} TimesIsProduct(n: nat, e: real)
    ensures Times(n, e) == n as real * e
  {
    if n > 0 {
      TimesIsProduct(n - 1, e);
      assert n as real * e == (n - 1) as real * e + e;
    }
  }

  lemma {:induction false} TimesMonotone(m: nat, n: nat, e: real)
    requires m <= n && e >= 0.0
    ensures 0.0 <= Times(m, e) <= Times(n, e)
  {
    if n > 0 {
      TimesMonotone(if m == n then m - 1 else m, n - 1, e);
    }
  }

  lemma {:induction false} SumBound(s: seq<real>, e: real)
    requires forall i :: 0 <= i < |s| ==> 0.0 <= s[i] <= e
    ensures 0.0 <= Sum(s) <= Times(|s|, e)
  {
    if s != [] {
      SumBound(s[1..], e);
    }
  }

  lemma SpentSnoc(p: Period, log: seq<Charge>, x: Charge, v: nat)
    ensures Spent(p, log + [x], v) == Spent(p, log, v) + if Key(p, x) == v then x.eur else 0.0
    ensures Overshoot(p, log + [x], v) ==
            Overshoot(p, log, v) + if Key(p, x) == v && x.eur > x.estimate then x.eur - x.estimate else 0.0
  {
    assert (log + [x])[..|log|] == log;
  }

  lemma {:induction false} NothingSpent(p: Period, log: seq<Charge>, v: nat)
    requires forall i :: 0 <= i < |log| ==> Key(p, log[i]) != v
    ensures Spent(p, log, v) == 0.0
  {
    if log != [] {
      NothingSpent(p, log[..|log| - 1], v);
    }
  }

  lemma {:induction false} SpentSigns(p: Period, log: seq<Charge>, v: nat)
    requires forall i :: 0 <= i < |log| ==> log[i].eur >= 0.0
    ensures Spent(p, log, v) >= 0.0 && Overshoot(p, log, v) >= 0.0
  {
    if log != [] {
      SpentSigns(p, log[..|log| - 1], v);
    }
  }

  // ---- The invariant ----

  /** The record is dated up to `day`, each charge in the month of its day. */
  ghost predicate Dated(c: Config, log: seq<Charge>, day: nat) {
    forall i :: 0 <= i < |log| ==>
      log[i].eur >= 0.0 && log[i].month == c.monthOf(log[i].day) && log[i].day <= day
  }

  /** The ledger agrees with the record of its own day and month. */
  ghost predicate Agrees(c: Config, led: Ledger, log: seq<Charge>) {
    && led.month == c.monthOf(led.day)
    && led.spent == Spent(Daily, log, led.day) && led.spentMonth == Spent(Monthly, log, led.month)
  }

  ghost predicate Books(c: Config, s: State) {
    if s.file.None? then s.log == []
    else s.file.value.day <= s.now.day && Dated(c, s.log, s.file.value.day) && Agrees(c, s.file.value, s.log)
  }

  /** A loaded ledger shows what was booked on the current day and in the current month. */
  lemma LoadedIsSpent(c: Config, s: State)
    requires ValidConfig(c) && Books(c, s)
    ensures var led := LoadLedger(c, s.file, s.now);
            led.day == s.now.day && Agrees(c, led, s.log) && Dated(c, s.log, s.now.day)
  {
    var month := c.monthOf(s.now.day);
    if s.file.Some? {
      var before := s.file.value;
      if before.day != s.now.day {
        NothingSpent(Daily, s.log, s.now.day);
      }
      if before.month != month {
        forall i | 0 <= i < |s.log|
          ensures Key(Monthly, s.log[i]) != month
        {
          assert s.log[i].month <= before.month <= month;
        }
        NothingSpent(Monthly, s.log, month);
      }
    }
  }

  lemma BookAgrees(c: Config, led: Ledger, log: seq<Charge>, x: Charge, now: Clock)
    requires Agrees(c, led, log) && Dated(c, log, led.day) && led.day == now.day
    requires x.day == led.day && x.month == led.month && x.eur >= 0.0
    ensures Agrees(c, BookCall(led, x.eur, now), log + [x]) && Dated(c, log + [x], led.day)
  {
    hide Spent;
    SpentSnoc(Daily, log, x, led.day);
    SpentSnoc(Monthly, log, x, led.month);
  }

  lemma StepKeepsBooks(c: Config, s: State, e: Event)
    requires ValidConfig(c) && Books(c, s) && Enabled(s, e)
    ensures Books(c, Step(c, s, e))
  {
    hide ValidConfig, LoadLedger, Agrees, Dated, BookCall;
    if e.Book? {
      LoadedIsSpent(c, s);
      var led := LoadLedger(c, s.file, s.now);
      AgreesMonth(c, led, s.log);
      var x := Charge(s.now.day, c.monthOf(s.now.day), s.now.localDay, s.inFlight[e.i], e.eur);
      BookAgrees(c, led, s.log, x, s.now);
      BookKeepsDay(led, e.eur, s.now);
    }
  }

  lemma AgreesMonth(c: Config, led: Ledger, log: seq<Charge>)
    requires Agrees(c, led, log)
    ensures led.month == c.monthOf(led.day)
  {
  }

  lemma BookKeepsDay(led: Ledger, eur: real, now: Clock)
    ensures BookCall(led, eur, now).day == led.day
  {
  }

  /** Every waiting request was admitted, so its estimate alone fits both caps. */
  ghost predicate Admitted(c: Config, s: State) {
    forall i :: 0 <= i < |s.inFlight| ==> 0.0 <= s.inFlight[i] <= c.daily && s.inFlight[i] <= c.monthly
  }

  function Allowance(c: Config, p: Period, k: nat, e: real): real
    requires k >= 1
  {
    Cap(c, p) + Times(k - 1, e)
  }

  /** The current period can take every waiting request at its estimate. */
  ghost predicate Covered(c: Config, s: State, p: Period, k: nat, e: real)
    requires k >= 1
  {
    var v := Today(c, p, s.now.day);
    Spent(p, s.log, v) + Sum(s.inFlight) <= Allowance(c, p, k, e) + Overshoot(p, s.log, v)
  }

  /** No day or month has cost more than its cap, one estimate for each other waiting request, and
      what the calls exceeded their estimates by. */
  ghost predicate Within(c: Config, s: State, p: Period, k: nat, e: real)
    requires k >= 1
  {
    forall v :: Spent(p, s.log, v) <= Allowance(c, p, k, e) + Overshoot(p, s.log, v)
  }

  ghost predicate Inv(c: Config, s: State, k: nat, e: real)
    requires k >= 1
  {
    && Books(c, s) && Admitted(c, s)
    && Covered(c, s, Daily, k, e) && Covered(c, s, Monthly, k, e)
    && Within(c, s, Daily, k, e) && Within(c, s, Monthly, k, e)
  }

  lemma SumAdmitted(c: Config, s: State, p: Period, k: nat, e: real)
    requires ValidConfig(c) && Admitted(c, s) && Bounded(s, k, e) && k >= 1 && e >= 0.0
    ensures Sum(s.inFlight) <= Allowance(c, p, k, e)
  {
    var f := s.inFlight;
    if f == [] {
      TimesMonotone(0, k - 1, e);
    } else {
      SumBound(f[1..], e);
      TimesMonotone(|f| - 1, k - 1, e);
    }
  }

  lemma TickCovers(c: Config, s: State, next: Clock, p: Period, k: nat, e: real)
    requires k >= 1 && e >= 0.0 && ValidConfig(c) && Books(c, s) && Admitted(c, s) && Covered(c, s, p, k, e)
    requires Enabled(s, Tick(next)) && Bounded(s, k, e)
    ensures Covered(c, s.(now := next), p, k, e)
  {
    var old_, v := Today(c, p, s.now.day), Today(c, p, next.day);
    if v != old_ {
      forall i | 0 <= i < |s.log|
        ensures Key(p, s.log[i]) != v
      {
        assert s.log[i].day <= s.file.value.day <= s.now.day && c.monthOf(s.log[i].day) <= c.monthOf(s.now.day);
      }
      NothingSpent(p, s.log, v);
      SpentSigns(p, s.log, v);
      SumAdmitted(c, s, p, k, e);
    }
  }

  lemma AskCovers(c: Config, s: State, estimate: real, p: Period, k: nat, e: real)
    requires ValidConfig(c) && Books(c, s) && Admitted(c, s) && Enabled(s, Ask(estimate)) && !c.budgetOff
    requires !Refuses(c, LoadLedger(c, s.file, s.now), s.now, estimate)
    requires k >= 1 && Bounded(s.(inFlight := s.inFlight + [estimate]), k, e) && e >= 0.0
    ensures estimate <= c.daily && estimate <= c.monthly
    ensures Covered(c, s.(inFlight := s.inFlight + [estimate]), p, k, e)
  {
    hide ValidConfig, LoadLedger, Count, Spent, Overshoot, Sum;
    LoadedIsSpent(c, s);
    SpentSigns(Daily, s.log, s.now.day);
    SpentSigns(Monthly, s.log, c.monthOf(s.now.day));
    var f := s.inFlight;
    assert forall i :: 0 <= i < |f| ==> (f + [estimate])[i] == f[i];
    SumBound(f, e);
    SumSnoc(f, estimate);
    TimesMonotone(|f|, k - 1, e);
  }

  lemma BookCovers(c: Config, s: State, i: nat, eur: real, p: Period, k: nat, e: real)
    requires k >= 1 && Enabled(s, Book(i, eur)) && Covered(c, s, p, k, e) && Within(c, s, p, k, e) && Admitted(c, s)
    ensures Covered(c, Step(c, s, Book(i, eur)), p, k, e) && Within(c, Step(c, s, Book(i, eur)), p, k, e)
  {
    hide LoadLedger, Spent, Overshoot, Sum;
    var s' := Step(c, s, Book(i, eur));
    var v, x := Today(c, p, s.now.day), s'.log[|s.log|];
    SumWithout(s.inFlight, i);
    SumNonNegative(s'.inFlight);
    SpentSnoc(p, s.log, x, v);
    forall u
      ensures Spent(p, s'.log, u) <= Allowance(c, p, k, e) + Overshoot(p, s'.log, u)
    {
      SpentSnoc(p, s.log, x, u);
    }
  }

  lemma {:induction false} SumNonNegative(s: seq<real>)
    requires forall i :: 0 <= i < |s| ==> s[i] >= 0.0
    ensures Sum(s) >= 0.0
  {
    if s != [] {
      SumNonNegative(s[1..]);
    }
  }

  lemma StepKeeps(c: Config, s: State, ev: Event, k: nat, e: real)
    requires ValidConfig(c) && !c.budgetOff && k >= 1 && e >= 0.0
    requires Inv(c, s, k, e) && Enabled(s, ev) && Bounded(s, k, e) && Bounded(Step(c, s, ev), k, e)
    ensures Inv(c, Step(c, s, ev), k, e)
  {
    hide ValidConfig, LoadLedger, Spent, Overshoot, Sum, Refuses, Books, Allowance;
    StepKeepsBooks(c, s, ev);
    match ev
    case Tick(next) =>
      TickCovers(c, s, next, Daily, k, e);
      TickCovers(c, s, next, Monthly, k, e);
    case Ask(estimate) =>
      if !Refuses(c, LoadLedger(c, s.file, s.now), s.now, estimate) {
        AskCovers(c, s, estimate, Daily, k, e);
        AskCovers(c, s, estimate, Monthly, k, e);
      }
    case Book(i, eur) =>
      BookCovers(c, s, i, eur, Daily, k, e);
      BookCovers(c, s, i, eur, Monthly, k, e);
    case Fail(i, eur) =>
      SumWithout(s.inFlight, i);
  }

  lemma InitHolds(c: Config, now: Clock, k: nat, e: real)
    requires ValidConfig(c) && k >= 1 && e >= 0.0
    ensures Inv(c, Init(now), k, e)
  {
    TimesMonotone(0, k - 1, e);
  }

  lemma {:induction false} RunKeeps(c: Config, states: seq<State>, events: seq<Event>, n: nat, k: nat, e: real)
    requires ValidConfig(c) && !c.budgetOff && k >= 1 && e >= 0.0
    requires IsRun(c, states, events) && n < |states| && forall i :: 0 <= i <= n ==> Bounded(states[i], k, e)
    ensures Inv(c, states[n], k, e)
  {
    if n == 0 {
      InitHolds(c, states[0].now, k, e);
    } else {
      RunKeeps(c, states, events, n - 1, k, e);
      assert states[n - 1 + 1] == Step(c, states[n - 1], events[n - 1]);
      StepKeeps(c, states[n - 1], events[n - 1], k, e);
    }
  }

  /** Main result: in every interleaving, over all day and month changes, no more is booked on a day
      than the daily cap plus `k - 1` estimates plus that day's overshoot, and likewise in months.
      What is paid exceeds this by no more than what went unbooked. */
  lemma SpendingIsBounded(c: Config, states: seq<State>, events: seq<Event>, k: nat, e: real, v: nat)
    requires ValidConfig(c) && !c.budgetOff && k >= 1 && e >= 0.0
    requires IsRun(c, states, events) && forall i :: 0 <= i < |states| ==> Bounded(states[i], k, e)
    ensures var log := states[|states| - 1].log;
            && Spent(Daily, log, v) <= c.daily + (k - 1) as real * e + Overshoot(Daily, log, v)
            && Spent(Monthly, log, v) <= c.monthly + (k - 1) as real * e + Overshoot(Monthly, log, v)
    ensures var s := states[|states| - 1];
            forall p :: Paid(p, s, v) <=
              Cap(c, p) + (k - 1) as real * e + Overshoot(p, s.log, v) + Spent(p, s.lost, v)
  {
    hide ValidConfig, Spent, Overshoot, Times, Sum, Books, Step, Bounded;
    RunKeeps(c, states, events, |states| - 1, k, e);
    TimesIsProduct(k - 1, e);
  }

  lemma {:induction false} NoOvershoot(p: Period, log: seq<Charge>, v: nat)
    requires forall i :: 0 <= i < |log| ==> log[i].eur <= log[i].estimate
    ensures Overshoot(p, log, v) == 0.0
  {
    if log != [] {
      NoOvershoot(p, log[..|log| - 1], v);
    }
  }

  /** One request at a time, none above its estimate: no more than the caps is booked, nor paid while
      every call ends in a booking. */
  lemma SequentialKeepsCaps(c: Config, states: seq<State>, events: seq<Event>, e: real, v: nat)
    requires ValidConfig(c) && !c.budgetOff && e >= 0.0
    requires IsRun(c, states, events) && forall i :: 0 <= i < |states| ==> Bounded(states[i], 1, e)
    requires var log := states[|states| - 1].log; forall i :: 0 <= i < |log| ==> log[i].eur <= log[i].estimate
    ensures var log := states[|states| - 1].log; Spent(Daily, log, v) <= c.daily && Spent(Monthly, log, v) <= c.monthly
    ensures var s := states[|states| - 1]; s.lost == [] ==> Paid(Daily, s, v) <= c.daily && Paid(Monthly, s, v) <= c.monthly
  {
    var log := states[|states| - 1].log;
    SpendingIsBounded(c, states, events, 1, e, v);
    NoOvershoot(Daily, log, v);
    NoOvershoot(Monthly, log, v);
  }

  // ---- The bound is reached ----

  ghost predicate BoundedRun(c: Config, states: seq<State>, events: seq<Event>, k: nat, e: real) {
    IsRun(c, states, events) && |states| == |events| + 1 && forall i :: 0 <= i < |states| ==> Bounded(states[i], k, e)
  }

  lemma OneMore(c: Config, states: seq<State>, events: seq<Event>, ev: Event, k: nat, e: real)
    requires BoundedRun(c, states, events, k, e) && Enabled(states[|events|], ev)
    requires Bounded(Step(c, states[|events|], ev), k, e)
    ensures BoundedRun(c, states + [Step(c, states[|events|], ev)], events + [ev], k, e)
  {
    hide Step, Enabled, Bounded;
    var ss, es := states + [Step(c, states[|events|], ev)], events + [ev];
    forall i | 0 <= i < |es|
      ensures Enabled(ss[i], es[i]) && ss[i + 1] == Step(c, ss[i], es[i])
    {
      if i < |events| {
        assert ss[i] == states[i] && ss[i + 1] == states[i + 1] && es[i] == events[i];
      }
    }
  }

  /** A call booked at its estimate. */
  function Exact(c: Config, now: Clock, eur: real): Charge {
    Charge(now.day, c.monthOf(now.day), now.localDay, eur, eur)
  }

  /** The daemon after the bookings of `log`, with the requests `waiting`. */
  function Booked(c: Config, now: Clock, log: seq<Charge>, waiting: seq<real>): State {
    var month := c.monthOf(now.day);
    State(now,
          if log == [] then None
          else Some(Ledger(now.day, Spent(Daily, log, now.day), month, Spent(Monthly, log, month), LastCalls(LocalDays(log)))),
          waiting, log, [])
  }

  lemma LoadBooked(c: Config, now: Clock, log: seq<Charge>, waiting: seq<real>)
    ensures var month := c.monthOf(now.day);
            LoadLedger(c, Booked(c, now, log, waiting).file, now) ==
            Ledger(now.day, Spent(Daily, log, now.day), month, Spent(Monthly, log, month), LastCalls(LocalDays(log)))
  {
    assert LocalDays([]) == [];
  }

  lemma AskBooked(c: Config, now: Clock, log: seq<Charge>, waiting: seq<real>, estimate: real)
    requires c.maxCalls == 0
    requires Spent(Daily, log, now.day) + estimate <= c.daily && Spent(Monthly, log, c.monthOf(now.day)) + estimate <= c.monthly
    ensures Enabled(Booked(c, now, log, waiting), Ask(estimate)) <==> estimate >= 0.0
    ensures estimate >= 0.0 ==>
              Step(c, Booked(c, now, log, waiting), Ask(estimate)) == Booked(c, now, log, waiting + [estimate])
  {
    hide Spent, LoadLedger, LastCalls;
    LoadBooked(c, now, log, waiting);
  }

  lemma BookBooked(c: Config, now: Clock, log: seq<Charge>, eur: real, rest: seq<real>)
    requires eur >= 0.0
    ensures Enabled(Booked(c, now, log, [eur] + rest), Book(0, eur))
    ensures Step(c, Booked(c, now, log, [eur] + rest), Book(0, eur)) == Booked(c, now, log + [Exact(c, now, eur)], rest)
  {
    hide Spent, LoadLedger, LastCalls;
    var x := Exact(c, now, eur);
    LoadBooked(c, now, log, [eur] + rest);
    SpentSnoc(Daily, log, x, now.day);
    SpentSnoc(Monthly, log, x, c.monthOf(now.day));
    KeptSnoc(LocalDays(log), now.localDay);
    assert LocalDays(log + [x]) == LocalDays(log) + [now.localDay];
    assert Without([eur] + rest, 0) == rest;
  }

  function Repeat<T>(n: nat, x: T): (r: seq<T>)
    ensures |r| == n && forall i :: 0 <= i < n ==> r[i] == x
  {
    seq(n, _ => x)
  }

  /** `m` bookings of `u`, then `j` of `e`. */
  function Bookings(c: Config, now: Clock, m: nat, u: real, j: nat, e: real): seq<Charge> {
    Repeat(m, Exact(c, now, u)) + Repeat(j, Exact(c, now, e))
  }

  lemma {:induction false} SpentOnBookings(c: Config, now: Clock, m: nat, u: real, j: nat, e: real, p: Period)
    ensures Spent(p, Bookings(c, now, m, u, j, e), Today(c, p, now.day)) == Times(m, u) + Times(j, e)
    ensures Overshoot(p, Bookings(c, now, m, u, j, e), Today(c, p, now.day)) == 0.0
    decreases m + j
  {
    var log := Bookings(c, now, m, u, j, e);
    if j > 0 {
      SpentOnBookings(c, now, m, u, j - 1, e, p);
      assert log == Bookings(c, now, m, u, j - 1, e) + [Exact(c, now, e)];
      SpentSnoc(p, Bookings(c, now, m, u, j - 1, e), Exact(c, now, e), Today(c, p, now.day));
    } else if m > 0 {
      SpentOnBookings(c, now, m - 1, u, 0, e, p);
      assert log == Bookings(c, now, m - 1, u, 0, e) + [Exact(c, now, u)];
      SpentSnoc(p, Bookings(c, now, m - 1, u, 0, e), Exact(c, now, u), Today(c, p, now.day));
    }
  }

  /** Both caps take `m` bookings of `u` and one estimate `e` on top. */
  ghost predicate Roomy(c: Config, m: nat, u: real, e: real) {
    0.0 <= u <= e && c.maxCalls == 0 && Times(m, u) + e <= c.daily && Times(m, u) + e <= c.monthly
  }

  /** A run up to `m` bookings of `u`, one request at a time. */
  lemma {:induction false} BookOneByOne(c: Config, now: Clock, m: nat, u: real, k: nat, e: real)
    returns (states: seq<State>, events: seq<Event>)
    requires Roomy(c, m, u, e) && k >= 1
    ensures BoundedRun(c, states, events, k, e) && states[|events|] == Booked(c, now, Bookings(c, now, m, u, 0, e), [])
  {
    hide Step, Enabled, IsRun, Spent, Times;
    if m == 0 {
      states, events := [Init(now)], [];
      StartRun(c, now, u, k, e);
    } else {
      TimesStep(m, u);
      states, events := BookOneByOne(c, now, m - 1, u, k, e);
      var log := Bookings(c, now, m - 1, u, 0, e);
      SpentOnBookings(c, now, m - 1, u, 0, e, Daily);
      SpentOnBookings(c, now, m - 1, u, 0, e, Monthly);
      NoTimes(e);
      AskBooked(c, now, log, [], u);
      OneMore(c, states, events, Ask(u), k, e);
      assert [] + [u] == [u] + [] == [u];
      states, events := states + [Booked(c, now, log, [u])], events + [Ask(u)];
      BookBooked(c, now, log, u, []);
      OneMore(c, states, events, Book(0, u), k, e);
      assert Bookings(c, now, m, u, 0, e) == log + [Exact(c, now, u)];
      states, events := states + [Booked(c, now, Bookings(c, now, m, u, 0, e), [])], events + [Book(0, u)];
    }
  }

  lemma TimesStep(m: nat, u: real)
    requires m > 0 && u >= 0.0
    ensures Times(m, u) == u + Times(m - 1, u) >= Times(m - 1, u)
  {
  }

  lemma NoTimes(e: real)
    ensures Times(0, e) == 0.0
  {
  }

  lemma StartRun(c: Config, now: Clock, u: real, k: nat, e: real)
    ensures BoundedRun(c, [Init(now)], [], k, e) && Init(now) == Booked(c, now, Bookings(c, now, 0, u, 0, e), [])
  {
    assert Bookings(c, now, 0, u, 0, e) == [];
    var states := [Init(now)];
    assert states[0] == Init(states[0].now);
  }

  /** `j` more requests pass the gate before any of them is booked. */
  lemma {:induction false} AskTogether(c: Config, now: Clock, m: nat, u: real, j: nat, k: nat, e: real)
    returns (states: seq<State>, events: seq<Event>)
    requires Roomy(c, m, u, e) && k >= 1 && j <= k
    ensures BoundedRun(c, states, events, k, e)
    ensures states[|events|] == Booked(c, now, Bookings(c, now, m, u, 0, e), Repeat(j, e))
  {
    hide Step, Enabled, IsRun, Spent, Times;
    if j == 0 {
      states, events := BookOneByOne(c, now, m, u, k, e);
    } else {
      states, events := AskTogether(c, now, m, u, j - 1, k, e);
      var log := Bookings(c, now, m, u, 0, e);
      SpentOnBookings(c, now, m, u, 0, e, Daily);
      SpentOnBookings(c, now, m, u, 0, e, Monthly);
      NoTimes(e);
      AskBooked(c, now, log, Repeat(j - 1, e), e);
      assert Repeat(j, e) == Repeat(j - 1, e) + [e];
      OneMore(c, states, events, Ask(e), k, e);
      states, events := states + [Booked(c, now, log, Repeat(j, e))], events + [Ask(e)];
    }
  }

  /** `j` of `k` waiting requests are booked. */
  lemma {:induction false} BookTogether(c: Config, now: Clock, m: nat, u: real, j: nat, k: nat, e: real)
    returns (states: seq<State>, events: seq<Event>)
    requires Roomy(c, m, u, e) && k >= 1 && j <= k
    ensures BoundedRun(c, states, events, k, e)
    ensures states[|events|] == Booked(c, now, Bookings(c, now, m, u, j, e), Repeat(k - j, e))
  {
    hide Step, Enabled, IsRun, Spent, Times, Bookings, Exact, Booked, Bounded;
    if j == 0 {
      states, events := AskTogether(c, now, m, u, k, k, e);
    } else {
      states, events := BookTogether(c, now, m, u, j - 1, k, e);
      var log := Bookings(c, now, m, u, j - 1, e);
      RepeatCons(k - j, e);
      BookBooked(c, now, log, e, Repeat(k - j, e));
      BookingsSnoc(c, now, m, u, j, e);
      WaitingBounded(c, now, Bookings(c, now, m, u, j, e), k - j, k, e);
      OneMore(c, states, events, Book(0, e), k, e);
      states, events := states + [Booked(c, now, Bookings(c, now, m, u, j, e), Repeat(k - j, e))], events + [Book(0, e)];
    }
  }

  lemma RepeatCons(n: nat, x: real)
    ensures Repeat(n + 1, x) == [x] + Repeat(n, x)
  {
  }

  lemma BookingsSnoc(c: Config, now: Clock, m: nat, u: real, j: nat, e: real)
    requires j > 0
    ensures Bookings(c, now, m, u, j, e) == Bookings(c, now, m, u, j - 1, e) + [Exact(c, now, e)]
  {
  }

  lemma WaitingBounded(c: Config, now: Clock, log: seq<Charge>, j: nat, k: nat, e: real)
    requires j <= k
    ensures Bounded(Booked(c, now, log, Repeat(j, e)), k, e)
  {
  }

  lemma TimesOrder(x: real, y: real, z: real)
    requires x <= y && z >= 0.0
    ensures x * z <= y * z
  {
  }

  lemma TimesStrict(x: real, y: real, z: real)
    requires x < y && z > 0.0
    ensures x * z < y * z
  {
  }

  lemma SmallEnough(amount: real, e: real, q: real, m: real, u: real)
    requires amount >= 0.0 && e > 0.0 && m > 0.0 && q <= m && q * e == amount && m * u == amount
    ensures 0.0 <= u <= e
  {
    TimesOrder(q, m, e);
    if u > e {
      TimesStrict(e, u, m);
    }
    if u < 0.0 {
      TimesStrict(u, 0.0, m);
    }
  }

  /** Any amount is some number of equal payments of at most `e`. */
  lemma EqualPayments(amount: real, e: real) returns (m: nat, u: real)
    requires amount >= 0.0 && e > 0.0
    ensures 0.0 <= u <= e && Times(m, u) == amount
  {
    var q := amount / e;
    m := q.Floor + 1;
    u := amount / m as real;
    TimesIsProduct(m, u);
    SmallEnough(amount, e, q, m as real, u);
  }

  /** For all caps, every number of waiting requests and every estimate within the caps there is a run in
      which no call exceeds its estimate, and the day and the month are booked to exactly the smaller cap
      plus `k - 1` estimates: the bound cannot be lowered. */
  lemma BoundIsReached(c: Config, now: Clock, k: nat, e: real) returns (states: seq<State>, events: seq<Event>)
    requires k >= 1 && c.maxCalls == 0 && 0.0 < e <= c.daily && e <= c.monthly
    ensures IsRun(c, states, events) && forall i :: 0 <= i < |states| ==> Bounded(states[i], k, e)
    ensures var log, cap := states[|states| - 1].log, if c.daily <= c.monthly then c.daily else c.monthly;
            && Overshoot(Daily, log, now.day) == 0.0 && Overshoot(Monthly, log, c.monthOf(now.day)) == 0.0
            && Spent(Daily, log, now.day) == cap + (k - 1) as real * e
            && Spent(Monthly, log, c.monthOf(now.day)) == cap + (k - 1) as real * e
  {
    hide IsRun, Bounded, Spent, Overshoot, Times, Bookings;
    var cap := if c.daily <= c.monthly then c.daily else c.monthly;
    var m, u := EqualPayments(cap - e, e);
    states, events := BookTogether(c, now, m, u, k, k, e);
    SpentOnBookings(c, now, m, u, k, e, Daily);
    SpentOnBookings(c, now, m, u, k, e, Monthly);
    TimesIsProduct(k, e);
    assert k as real * e == (k - 1) as real * e + e;
  }

  // ---- Calls that are paid and not booked ----

  /** `n` times over: ask, pay the estimate, get no text. */
  function Losses(e: real, n: nat): (events: seq<Event>)
    ensures |events| == 2 * n
  {
    seq(2 * n, i => if i % 2 == 0 then Ask(e) else Fail(0, e))
  }

  /** The state after the first `i` of these events. */
  function LossState(c: Config, now: Clock, e: real, i: nat): State {
    var paid := seq(i / 2, _ => Charge(now.day, c.monthOf(now.day), now.localDay, e, e));
    State(now, None, if i % 2 == 0 then [] else [e], [], paid)
  }

  lemma LossStep(c: Config, now: Clock, e: real, n: nat, i: nat)
    requires !c.budgetOff && 0.0 <= e <= c.daily && e <= c.monthly && i < 2 * n
    ensures Enabled(LossState(c, now, e, i), Losses(e, n)[i])
    ensures LossState(c, now, e, i + 1) == Step(c, LossState(c, now, e, i), Losses(e, n)[i])
  {
    var s, s' := LossState(c, now, e, i), LossState(c, now, e, i + 1);
    if i % 2 == 0 {
      assert (i + 1) / 2 == i / 2;
    } else {
      assert (i + 1) / 2 == i / 2 + 1;
      assert s'.lost == s.lost + [ChargeOf(c, s, 0, e)];
    }
  }

  lemma {:induction false} SpentOfSame(p: Period, log: seq<Charge>, v: nat, e: real)
    requires forall i :: 0 <= i < |log| ==> Key(p, log[i]) == v && log[i].eur == e
    ensures Spent(p, log, v) == Times(|log|, e)
  {
    if log != [] {
      SpentOfSame(p, log[..|log| - 1], v, e);
    }
  }

  /** Without limit: for any caps there is a run with one request at a time, each costing exactly its
      admitted estimate `e`, on whose only day `n` times `e` is paid and nothing booked. */
  lemma UnbookedIsUnlimited(c: Config, now: Clock, e: real, n: nat) returns (states: seq<State>, events: seq<Event>)
    requires !c.budgetOff && 0.0 <= e <= c.daily && e <= c.monthly
    ensures IsRun(c, states, events) && forall i :: 0 <= i < |states| ==> Bounded(states[i], 1, e)
    ensures var s := states[|states| - 1];
            && s.log == [] && (forall i :: 0 <= i < |s.lost| ==> s.lost[i].eur == s.lost[i].estimate == e)
            && Paid(Daily, s, now.day) == n as real * e
            && Paid(Monthly, s, c.monthOf(now.day)) == n as real * e
  {
    hide Step, Spent, Losses, Enabled, LossState, Bounded, Paid;
    events := Losses(e, n);
    states := seq(2 * n + 1, i requires 0 <= i => LossState(c, now, e, i));
    LossStart(c, now, e);
    forall i | 0 <= i < |events|
      ensures Enabled(states[i], events[i]) && states[i + 1] == Step(c, states[i], events[i])
    {
      LossStep(c, now, e, n, i);
    }
    forall i | 0 <= i < |states|
      ensures Bounded(states[i], 1, e)
    {
      LossBounded(c, now, e, i);
    }
    LossEnd(c, now, e, n);
  }

  lemma LossStart(c: Config, now: Clock, e: real)
    ensures LossState(c, now, e, 0) == Init(now)
  {
  }

  lemma LossBounded(c: Config, now: Clock, e: real, i: nat)
    ensures Bounded(LossState(c, now, e, i), 1, e)
  {
  }

  lemma LossEnd(c: Config, now: Clock, e: real, n: nat)
    ensures var s := LossState(c, now, e, 2 * n);
            && s.log == [] && (forall i :: 0 <= i < |s.lost| ==> s.lost[i].eur == s.lost[i].estimate == e)
            && Paid(Daily, s, now.day) == n as real * e
            && Paid(Monthly, s, c.monthOf(now.day)) == n as real * e
  {
    var s := LossState(c, now, e, 2 * n);
    assert 2 * n / 2 == n;
    SpentOfSame(Daily, s.lost, now.day, e);
    SpentOfSame(Monthly, s.lost, c.monthOf(now.day), e);
    TimesIsProduct(n, e);
  }

  // ---- The cap on the number of calls ----

  /** What the gate refuses, read off the bookings: a request that would exceed what is left of the day's or the
      month's cap, or comes when as many calls as are allowed were booked today. A cap above the number of
      calls kept is none. */
  predicate OverBudget(c: Config, log: seq<Charge>, now: Clock, estimate: real) {
    !c.budgetOff &&
    (|| Spent(Daily, log, now.day) + estimate > c.daily
     || Spent(Monthly, log, c.monthOf(now.day)) + estimate > c.monthly
     || (1 <= c.maxCalls <= CALLS_KEPT && Count(LocalDays(log), now.localDay) >= c.maxCalls))
  }

  /** The kept calls show as many of a day as were booked, or their full number. */
  lemma KeptOrFull(s: seq<nat>, today: nat)
    requires Ascending(s, today)
    ensures var k := Count(LastCalls(s), today); k <= CALLS_KEPT && k <= Count(s, today) && (k == Count(s, today) || k == CALLS_KEPT)
  {
    KeptCount(s, today);
    CountUniform(LastCalls(s), today);
    if |s| > CALLS_KEPT {
      var n := |s| - CALLS_KEPT;
      assert s == s[..n] + s[n..];
      CountAppend(s[..n], s[n..], today);
    }
  }

  lemma RefusesExactly(c: Config, s: State, estimate: real)
    requires ValidConfig(c) && Books(c, s) && Calls(s)
    ensures Refuses(c, LoadLedger(c, s.file, s.now), s.now, estimate) <==> OverBudget(c, s.log, s.now, estimate)
  {
    hide ValidConfig, Spent, LoadLedger, LastCalls, LocalDays, Count, Ascending;
    LoadedIsSpent(c, s);
    CallsLoaded(c, s);
    KeptOrFull(LocalDays(s.log), s.now.localDay);
  }

  lemma {:induction false} RunBooks(c: Config, states: seq<State>, events: seq<Event>, n: nat)
    requires ValidConfig(c) && IsRun(c, states, events) && n < |states|
    ensures Books(c, states[n]) && Calls(states[n])
  {
    hide ValidConfig, Books, Calls, Step, Enabled;
    RunCalls(c, states, events, n);
    if n == 0 {
      NothingBooked(c, states[0].now);
    } else {
      RunBooks(c, states, events, n - 1);
      assert states[n - 1 + 1] == Step(c, states[n - 1], events[n - 1]);
      StepKeepsBooks(c, states[n - 1], events[n - 1]);
    }
  }

  lemma NothingBooked(c: Config, now: Clock)
    ensures Books(c, Init(now))
  {
  }

  /** Main result on the gate: in every run a request is turned away if and only if it is over budget, and
      otherwise waits behind the others. */
  lemma AskExactly(c: Config, states: seq<State>, events: seq<Event>, estimate: real)
    requires ValidConfig(c) && IsRun(c, states, events) && estimate >= 0.0
    ensures var s := states[|states| - 1];
            && Enabled(s, Ask(estimate))
            && Step(c, s, Ask(estimate)) ==
               if OverBudget(c, s.log, s.now, estimate) then s else s.(inFlight := s.inFlight + [estimate])
  {
    hide ValidConfig, OverBudget, Refuses, LoadLedger, Books, Calls;
    RunBooks(c, states, events, |states| - 1);
    RefusesExactly(c, states[|states| - 1], estimate);
  }

  function LocalDays(log: seq<Charge>): (r: seq<nat>)
    ensures |r| == |log| && forall i :: 0 <= i < |log| ==> r[i] == log[i].localDay
  {
    seq(|log|, i requires 0 <= i < |log| => log[i].localDay)
  }

  lemma {:induction false} CountAppend(a: seq<nat>, b: seq<nat>, d: nat)
    ensures Count(a + b, d) == Count(a, d) + Count(b, d)
  {
    if a == [] {
      assert a + b == b;
    } else {
      CountAppend(a[1..], b, d);
      assert (a + b)[1..] == a[1..] + b;
    }
  }

  lemma {:induction false} CountUniform(s: seq<nat>, d: nat)
    ensures Count(s, d) <= |s|
    ensures (forall i :: 0 <= i < |s| ==> s[i] == d) ==> Count(s, d) == |s|
    ensures (forall i :: 0 <= i < |s| ==> s[i] != d) ==> Count(s, d) == 0
  {
    if s != [] {
      CountUniform(s[1..], d);
    }
  }

  ghost predicate Ascending(s: seq<nat>, top: nat) {
    && (forall i :: 0 <= i < |s| ==> s[i] <= top)
    && (forall i, j :: 0 <= i < j < |s| ==> s[i] <= s[j])
  }

  /** Of days in order, the kept calls show today's true number unless all of them are today's. */
  lemma KeptCount(s: seq<nat>, today: nat)
    requires Ascending(s, today)
    ensures Count(LastCalls(s), today) < CALLS_KEPT ==> Count(LastCalls(s), today) == Count(s, today)
  {
    if |s| > CALLS_KEPT {
      var n := |s| - CALLS_KEPT;
      assert s == s[..n] + s[n..];
      CountAppend(s[..n], s[n..], today);
      CountUniform(s[n..], today);
      CountUniform(s[..n], today);
      if i :| 0 <= i < n && s[..n][i] == today {
        assert forall j :: 0 <= j < CALLS_KEPT ==> s[n..][j] == s[n + j] && s[i] <= s[n + j];
      }
    }
  }

  ghost predicate Calls(s: State) {
    && Ascending(LocalDays(s.log), s.now.localDay)
    && (if s.file.None? then s.log == [] else s.file.value.calls == LastCalls(LocalDays(s.log)))
  }

  lemma KeptSnoc(s: seq<nat>, d: nat)
    ensures LastCalls(LastCalls(s) + [d]) == LastCalls(s + [d])
  {
  }

  lemma StepKeepsCalls(c: Config, s: State, e: Event)
    requires Calls(s) && Enabled(s, e)
    ensures Calls(Step(c, s, e))
  {
    hide LoadLedger, LastCalls, Ascending;
    var days := LocalDays(s.log);
    if e.Book? {
      var s' := Step(c, s, e);
      assert LocalDays(s'.log) == days + [s.now.localDay];
      CallsLoaded(c, s);
      KeptSnoc(days, s.now.localDay);
      AscendingSnoc(days, s.now.localDay);
    } else if e.Tick? {
      AscendingLater(days, s.now.localDay, e.next.localDay);
    }
  }

  /** A booking keeps the calls in order. */
  lemma BookCounts(c: Config, s: State, x: Charge)
    requires Calls(s) && x.localDay == s.now.localDay
    ensures Ascending(LocalDays(s.log + [x]), s.now.localDay)
    ensures LastCalls(LoadLedger(c, s.file, s.now).calls + [x.localDay]) == LastCalls(LocalDays(s.log + [x]))
  {
    hide LoadLedger, LastCalls, Ascending;
    var days := LocalDays(s.log);
    assert LocalDays(s.log + [x]) == days + [s.now.localDay];
    CallsLoaded(c, s);
    KeptSnoc(days, s.now.localDay);
    AscendingSnoc(days, s.now.localDay);
  }

  lemma AscendingSnoc(s: seq<nat>, top: nat)
    requires Ascending(s, top)
    ensures Ascending(s + [top], top)
  {
  }

  lemma AscendingLater(s: seq<nat>, top: nat, later: nat)
    requires Ascending(s, top) && top <= later
    ensures Ascending(s, later)
  {
  }

  lemma {:induction false} RunCalls(c: Config, states: seq<State>, events: seq<Event>, n: nat)
    requires IsRun(c, states, events) && n < |states|
    ensures Calls(states[n])
  {
    if n > 0 {
      RunCalls(c, states, events, n - 1);
      assert states[n - 1 + 1] == Step(c, states[n - 1], events[n - 1]);
      StepKeepsCalls(c, states[n - 1], events[n - 1]);
    }
  }

  /** A cap above the number of calls kept never refuses anything: with `MAX_CALLS_DAY > 200` the
      gate behaves as if the cap were off. */
  lemma LargeCallCapIsInert(c: Config, states: seq<State>, events: seq<Event>, estimate: real)
    requires IsRun(c, states, events) && c.maxCalls > CALLS_KEPT
    ensures var s := states[|states| - 1];
            var led := LoadLedger(c, s.file, s.now);
            Refuses(c, led, s.now, estimate) <==> Refuses(c.(maxCalls := 0), led, s.now, estimate)
  {
    var s := states[|states| - 1];
    RunCalls(c, states, events, |states| - 1);
    CountUniform(LoadLedger(c, s.file, s.now).calls, s.now.localDay);
  }

  /** Waiting requests and today's calls together stay below the cap and the others waiting. */
  ghost predicate CallsCovered(c: Config, s: State, k: nat) {
    Count(LocalDays(s.log), s.now.localDay) + |s.inFlight| < c.maxCalls + k
  }

  ghost predicate CallsWithin(c: Config, s: State, k: nat) {
    forall d :: Count(LocalDays(s.log), d) < c.maxCalls + k
  }

  lemma StepKeepsCallCap(c: Config, s: State, ev: Event, k: nat)
    requires 1 <= c.maxCalls <= CALLS_KEPT && !c.budgetOff && Calls(s) && Enabled(s, ev)
    requires |s.inFlight| <= k && |Step(c, s, ev).inFlight| <= k
    requires CallsCovered(c, s, k) && CallsWithin(c, s, k)
    ensures CallsCovered(c, Step(c, s, ev), k) && CallsWithin(c, Step(c, s, ev), k)
  {
    hide Count, LastCalls;
    var days, s' := LocalDays(s.log), Step(c, s, ev);
    match ev
    case Tick(next) =>
      if next.localDay != s.now.localDay {
        CountUniform(days, next.localDay);
      }
    case Ask(estimate) =>
      KeptCount(days, s.now.localDay);
      CallsLoaded(c, s);
    case Book(i, eur) =>
      assert LocalDays(s'.log) == days + [s.now.localDay];
      forall d
        ensures Count(LocalDays(s'.log), d) == Count(days, d) + if d == s.now.localDay then 1 else 0
      {
        CountAppend(days, [s.now.localDay], d);
        CountUniform([s.now.localDay], d);
      }
    case Fail(i, eur) =>
  }

  lemma CallsLoaded(c: Config, s: State)
    requires Calls(s)
    ensures LoadLedger(c, s.file, s.now).calls == LastCalls(LocalDays(s.log))
  {
  }

  lemma {:induction false} RunCallCap(c: Config, states: seq<State>, events: seq<Event>, n: nat, k: nat)
    requires 1 <= c.maxCalls <= CALLS_KEPT && !c.budgetOff && IsRun(c, states, events) && n < |states|
    requires forall i :: 0 <= i <= n ==> |states[i].inFlight| <= k
    ensures CallsCovered(c, states[n], k) && CallsWithin(c, states[n], k)
  {
    if n > 0 {
      hide Step, Calls, CallsCovered, CallsWithin, Count;
      RunCallCap(c, states, events, n - 1, k);
      RunCalls(c, states, events, n - 1);
      assert states[n - 1 + 1] == Step(c, states[n - 1], events[n - 1]);
      StepKeepsCallCap(c, states[n - 1], events[n - 1], k);
    }
  }

  /** A cap the kept calls can show holds for every local day, up to the requests waiting beside the
      last admitted one. */
  lemma CallsAreBounded(c: Config, states: seq<State>, events: seq<Event>, k: nat, d: nat)
    requires 1 <= c.maxCalls <= CALLS_KEPT && !c.budgetOff && IsRun(c, states, events)
    requires forall i :: 0 <= i < |states| ==> |states[i].inFlight| <= k
    ensures Count(LocalDays(states[|states| - 1].log), d) <= c.maxCalls + k - 1
  {
    RunCallCap(c, states, events, |states| - 1, k);
  }
}
