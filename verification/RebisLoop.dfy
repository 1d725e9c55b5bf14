/** The drafter/verifier loop and its journal (libvitriol/rebis.py, `rebis_loop`, `resume_state` and
    the resume branch of `main`).

    What the servers and the compiler do in an iteration is given by a script, which may depend on what
    the drafter is handed: the correction orders of the last verdict and the last draft. A resumed run
    gets the orders from the journal and no draft; `HandedExactly` says when that is what an
    uninterrupted run would have had, and `PauseIsTransparent` what follows. */
module RebisLoop {
  import opened Common
  import opened RebisVerdict

  type Files = map<string, string>

  datatype Mode = Full | Patch | Replace

  datatype Mandatum = Mandatum(spec: Spec, compilerOnly: bool, mode: Mode, maxIterations: nat)

  /** What a draft is made from: correction orders and the last draft. In patch mode the files are read
      from disk, and `files` stays empty. */
  datatype Input = Input(delta: Option<seq<Order>>, files: Files)

  /** What happens in one iteration, as far as the control flow depends on it. */
  datatype Outcome =
    | OutOfBudget
    | DrafterDown
    | Failed                                       // patch or replace did not apply, or the draft was empty
    | Unwritten(rejected: bool, files: Files)      // nothing written; fragments may have been rejected
    | Drafted(rejected: bool, files: Files, gate: bool, reply: Option<Reply>)   // no reply: verifier unreachable

  type Script = (nat, Input) -> Outcome

  datatype Event = Turn(iteration: nat, delta: seq<Order>) | Paused(next: nat) | Result(accepted: bool)

  // ---- One iteration ----

  /** Events an iteration writes before its outcome decides how to go on. */
  function Rejections(i: nat, o: Outcome): seq<Event> {
    if (o.Unwritten? || o.Drafted?) && o.rejected then [Turn(i, [])] else []
  }

  /** The gate is green and, unless the compiler decides alone, every invariant is addressed and upheld. */
  predicate Accepts(m: Mandatum, o: Outcome) {
    o.Drafted? && o.gate && (m.compilerOnly || (o.reply.Some? && Satisfied(m.spec, o.reply.value)))
  }

  /** A draft came back with a verdict that does not end the run. */
  predicate Judged(m: Mandatum, o: Outcome) {
    o.Drafted? && !(m.compilerOnly && o.gate) && o.reply.Some? && !(o.gate && VerdictOf(m.spec, o.reply.value).passed)
  }

  /** The iteration is over and the loop goes to the next one. */
  predicate Continues(m: Mandatum, o: Outcome) {
    o.Failed? || o.Unwritten? || Judged(m, o)
  }

  /** Everything one iteration writes. */
  function Writes(m: Mandatum, i: nat, o: Outcome): seq<Event> {
    match o
    case OutOfBudget => [Paused(i)]
    case DrafterDown => [Paused(i)]
    case Failed => [Turn(i, [])]
    case Unwritten(_, _) => Rejections(i, o)
    case Drafted(_, _, gate, reply) =>
      if m.compilerOnly && gate then Rejections(i, o) + [Result(true)]
      else if reply.None? then Rejections(i, o) + [Paused(i)]
      else
        var v := VerdictOf(m.spec, reply.value);
        Rejections(i, o) + [Turn(i, v.delta)] + if gate && v.passed then [Result(true)] else []
  }

  /** The orders of a verdict; the loop has one of its own when there are none. */
  function Poke(delta: seq<Order>): seq<Order> {
    if delta == [] then [StartOver] else delta
  }

  function Shown(m: Mandatum, files: Files): Files {
    if m.mode == Patch then map[] else files
  }

  /** What the next iteration drafts from. */
  function Next(m: Mandatum, input: Input, o: Outcome): Input
    requires Continues(m, o)
  {
    match o
    case Failed => if m.mode == Full then input.(files := map[]) else input
    case Unwritten(_, files) => input.(files := Shown(m, files))
    case Drafted(_, files, _, reply) => Input(Some(Poke(VerdictOf(m.spec, reply.value).delta)), Shown(m, files))
  }

  // ---- Runs ----

  /** What a run that starts at iteration `i` appends to the journal. */
  function Run(m: Mandatum, i: nat, input: Input, script: Script): seq<Event>
    decreases m.maxIterations + 1 - i
  {
    if i > m.maxIterations then [Result(false)]
    else
      var o := script(i, input);
      Writes(m, i, o) + if Continues(m, o) then Run(m, i + 1, Next(m, input, o), script) else []
  }

  /** Every iteration from `i` to before `n` goes on to the next. */
  predicate Reaches(m: Mandatum, i: nat, n: nat, input: Input, script: Script)
    decreases n - i
  {
    i >= n ||
    var o := script(i, input);
    Continues(m, o) && Reaches(m, i + 1, n, Next(m, input, o), script)
  }

  /** What the run holds when it comes to iteration `n`. */
  function Held(m: Mandatum, i: nat, n: nat, input: Input, script: Script): Input
    requires Reaches(m, i, n, input, script)
    decreases n - i
  {
    if i >= n then input else Held(m, i + 1, n, Next(m, input, script(i, input)), script)
  }

  /** What the iterations from `i` to before `n` write. */
  function Between(m: Mandatum, i: nat, n: nat, input: Input, script: Script): seq<Event>
    requires Reaches(m, i, n, input, script)
    decreases n - i
  {
    if i >= n then []
    else
      var o := script(i, input);
      Writes(m, i, o) + Between(m, i + 1, n, Next(m, input, o), script)
  }

  // ---- Resuming ----

  /** The highest iteration of a journalled turn. */
  function IterationsDone(events: seq<Event>): nat {
    if events == [] then 0
    else
      var n, e := IterationsDone(events[..|events| - 1]), events[|events| - 1];
      if e.Turn? && e.iteration > n then e.iteration else n
  }

  function LastDelta(events: seq<Event>): Option<seq<Order>> {
    if events == [] then None
    else
      var e := events[|events| - 1];
      if e.Turn? && e.delta != [] then Some(e.delta) else LastDelta(events[..|events| - 1])
  }

  predicate Terminal(events: seq<Event>) {
    exists i :: 0 <= i < |events| && events[i].Result?
  }

  /** What a run on a journal is handed; on an empty one this is a fresh start. */
  function Handed(journal: seq<Event>): Input {
    Input(LastDelta(journal), map[])
  }

  /** What one invocation with `--resume` appends. */
  function Appends(m: Mandatum, journal: seq<Event>, script: Script): seq<Event> {
    Run(m, IterationsDone(journal) + 1, Handed(journal), script)
  }

  /** One invocation with `--resume`: nothing on a finished journal. */
  function Resume(m: Mandatum, journal: seq<Event>, script: Script): seq<Event> {
    if Terminal(journal) then journal else journal + Appends(m, journal, script)
  }

  /** The journal after a chain of invocations on an empty journal. */
  function Chain(m: Mandatum, scripts: seq<Script>): seq<Event> {
    if scripts == [] then [] else Resume(m, Chain(m, scripts[..|scripts| - 1]), scripts[|scripts| - 1])
  }

  // ---- The shape of a journal ----

  /** All turns lie between `lo` and `hi`. */
  predicate TurnsIn(events: seq<Event>, lo: int, hi: int) {
    forall i :: 0 <= i < |events| && events[i].Turn? ==> lo <= events[i].iteration <= hi
  }

  predicate TurnsAscend(events: seq<Event>) {
    forall i, j :: 0 <= i < j < |events| && events[i].Turn? && events[j].Turn? ==>
      events[i].iteration <= events[j].iteration
  }

  /** A result can only be the last event. */
  predicate ResultLast(events: seq<Event>) {
    forall i :: 0 <= i < |events| && events[i].Result? ==> i == |events| - 1
  }

  predicate WellShaped(events: seq<Event>, lo: int, hi: int) {
    TurnsIn(events, lo, hi) && TurnsAscend(events) && ResultLast(events)
  }

  lemma Join(a: seq<Event>, b: seq<Event>, lo: int, mid: int, hi: int)
    requires WellShaped(a, lo, mid) && WellShaped(b, mid, hi) && !Terminal(a) && lo <= mid <= hi
    ensures WellShaped(a + b, lo, hi)
  {
  }

  lemma WritesShape(m: Mandatum, i: nat, o: Outcome)
    ensures WellShaped(Writes(m, i, o), i, i)
    ensures Continues(m, o) ==> !Terminal(Writes(m, i, o))
  {
    hide VerdictOf;
  }

  lemma {:induction false} RunShape(m: Mandatum, i: nat, input: Input, script: Script)
    ensures WellShaped(Run(m, i, input, script), i, m.maxIterations)
    decreases m.maxIterations + 1 - i
  {
    hide Run, Writes, Continues, WellShaped, Terminal, Next;
    RunUnfolds(m, i, input, script);
    if i > m.maxIterations {
      GiveUpShape(i, m.maxIterations);
    } else {
      var o := script(i, input);
      var w := Writes(m, i, o);
      WritesShape(m, i, o);
      if Continues(m, o) {
        var next := Next(m, input, o);
        RunShape(m, i + 1, next, script);
        Wider(Run(m, i + 1, next, script), i + 1, i, m.maxIterations, m.maxIterations);
        Join(w, Run(m, i + 1, next, script), i, i, m.maxIterations);
      } else {
        Wider(w, i, i, i, m.maxIterations);
        assert w + [] == w;
      }
    }
  }

  lemma RunUnfolds(m: Mandatum, i: nat, input: Input, script: Script)
    ensures Run(m, i, input, script) ==
            if i > m.maxIterations then [Result(false)]
            else
              var o := script(i, input);
              Writes(m, i, o) + if Continues(m, o) then Run(m, i + 1, Next(m, input, o), script) else []
  {
  }

  lemma GiveUpShape(lo: int, hi: int)
    ensures WellShaped([Result(false)], lo, hi)
  {
  }

  lemma Wider(s: seq<Event>, lo: int, lo': int, hi: int, hi': int)
    requires WellShaped(s, lo, hi) && lo' <= lo && hi <= hi'
    ensures WellShaped(s, lo', hi')
  {
  }

  lemma {:induction false} DoneIsMaximum(events: seq<Event>)
    ensures TurnsIn(events, 0, IterationsDone(events))
    ensures forall lo: nat, hi: nat :: TurnsIn(events, lo, hi) ==> IterationsDone(events) <= hi
  {
    if events != [] {
      var before := events[..|events| - 1];
      DoneIsMaximum(before);
      forall lo: nat, hi: nat | TurnsIn(events, lo, hi)
        ensures IterationsDone(events) <= hi
      {
        assert TurnsIn(before, lo, hi);
      }
    }
  }

  /** Main result on the journal: over any chain of invocations the turn numbers never fall, lie
      between 1 and `maxIterations`, and nothing follows a result. */
  lemma {:induction false} ChainShape(m: Mandatum, scripts: seq<Script>)
    ensures WellShaped(Chain(m, scripts), 1, m.maxIterations)
  {
    if scripts != [] {
      hide WellShaped, Terminal, Resume;
      var before, script := Chain(m, scripts[..|scripts| - 1]), scripts[|scripts| - 1];
      ChainShape(m, scripts[..|scripts| - 1]);
      ResumeShape(m, before, script);
    } else {
      assert Chain(m, scripts) == [];
    }
  }

  lemma ResumeShape(m: Mandatum, journal: seq<Event>, script: Script)
    requires WellShaped(journal, 1, m.maxIterations)
    ensures WellShaped(Resume(m, journal, script), 1, m.maxIterations)
  {
    hide Run;
    if !Terminal(journal) {
      var n := IterationsDone(journal);
      DoneIsMaximum(journal);
      RunShape(m, n + 1, Handed(journal), script);
      assert TurnsIn(journal, 1, n);
    }
  }

  /** Each resumed run starts above every journalled turn. */
  lemma ResumedTurnsAreNew(m: Mandatum, journal: seq<Event>, script: Script)
    requires !Terminal(journal)
    ensures var all := Resume(m, journal, script);
            && journal <= all
            && forall i, j :: 0 <= i < |journal| <= j < |all| && all[i].Turn? && all[j].Turn? ==>
                 all[i].iteration < all[j].iteration
  {
    hide Run;
    var n := IterationsDone(journal);
    var added := Appends(m, journal, script);
    DoneIsMaximum(journal);
    RunShape(m, n + 1, Handed(journal), script);
    var all := Resume(m, journal, script);
    assert all == journal + added;
    assert forall j :: |journal| <= j < |all| ==> all[j] == added[j - |journal|];
  }

  // ---- Acceptance ----

  lemma WritesResult(m: Mandatum, i: nat, o: Outcome)
    ensures Result(true) in Writes(m, i, o) <==> Accepts(m, o)
    ensures Accepts(m, o) ==> !Continues(m, o)
    ensures Result(false) !in Writes(m, i, o)
  {
    hide Satisfied, VerdictOf;
    if o.Drafted? && o.reply.Some? {
      PassedMeans(m.spec, o.reply.value);
    }
    if Accepts(m, o) {
      var w := Writes(m, i, o);
      assert w[|w| - 1] == Result(true);
    }
  }

  /** The run comes to an iteration `n` that is accepted. */
  ghost predicate AcceptedAt(m: Mandatum, i: nat, n: nat, input: Input, script: Script) {
    i <= n <= m.maxIterations && Reaches(m, i, n, input, script) && Accepts(m, script(n, Held(m, i, n, input, script)))
  }

  /** A run is accepted exactly when it reaches an iteration whose gate is green and whose invariants
      are all addressed and upheld (or left to the compiler). */
  lemma {:induction false} AcceptedExactly(m: Mandatum, i: nat, input: Input, script: Script)
    ensures Result(true) in Run(m, i, input, script) <==> exists n: nat :: AcceptedAt(m, i, n, input, script)
    decreases m.maxIterations + 1 - i
  {
    hide Run, Writes, Accepts, Continues, Next;
    RunUnfolds(m, i, input, script);
    if i <= m.maxIterations {
      var o := script(i, input);
      WritesResult(m, i, o);
      if Accepts(m, o) {
        assert AcceptedAt(m, i, i, input, script);
      } else if Continues(m, o) {
        var j: nat, next := i + 1, Next(m, input, o);
        AcceptedExactly(m, j, next, script);
        if n: nat :| AcceptedAt(m, j, n, next, script) {
          assert AcceptedAt(m, i, n, input, script);
        }
        if n: nat :| AcceptedAt(m, i, n, input, script) {
          assert AcceptedAt(m, j, n, next, script);
        }
      }
    }
  }

  // ---- Cutting a run in two ----

  lemma {:induction false} RunSplits(m: Mandatum, i: nat, n: nat, input: Input, script: Script)
    requires i <= n <= m.maxIterations + 1 && Reaches(m, i, n, input, script)
    ensures Run(m, i, input, script) ==
            Between(m, i, n, input, script) + Run(m, n, Held(m, i, n, input, script), script)
    decreases n - i
  {
    hide Run, Writes, Continues, Next;
    RunUnfolds(m, i, input, script);
    if i < n {
      var o := script(i, input);
      var next := Next(m, input, o);
      RunSplits(m, i + 1, n, next, script);
      Reassociate(Writes(m, i, o), Between(m, i + 1, n, next, script), Run(m, n, Held(m, i, n, input, script), script));
    } else {
      assert [] + Run(m, n, input, script) == Run(m, n, input, script);
    }
  }

  lemma Reassociate(a: seq<Event>, b: seq<Event>, c: seq<Event>)
    ensures a + (b + c) == (a + b) + c
  {
  }

  /** The same script up to before `n`, where time has run out. */
  function PausedAt(script: Script, n: nat): Script {
    (i: nat, input: Input) => if i == n then OutOfBudget else script(i, input)
  }

  lemma {:induction false} SameBefore(m: Mandatum, i: nat, n: nat, input: Input, script: Script)
    requires Reaches(m, i, n, input, script)
    ensures Reaches(m, i, n, input, PausedAt(script, n))
    ensures Between(m, i, n, input, PausedAt(script, n)) == Between(m, i, n, input, script)
    ensures Held(m, i, n, input, PausedAt(script, n)) == Held(m, i, n, input, script)
    decreases n - i
  {
    hide Writes, Continues, Next;
    if i < n {
      SameBefore(m, i + 1, n, Next(m, input, script(i, input)), script);
    }
  }

  // ---- How far a journal has got ----

  lemma NothingDone()
    ensures IterationsDone([]) == 0 && LastDelta([]) == None
  {
  }

  lemma {:induction false} DoneAppend(a: seq<Event>, b: seq<Event>)
    ensures var x, y := IterationsDone(a), IterationsDone(b);
            IterationsDone(a + b) == if y > x then y else x
    decreases |b|
  {
    if b == [] {
      assert a + b == a;
    } else {
      DoneAppend(a, b[..|b| - 1]);
      assert (a + b)[..|a + b| - 1] == a + b[..|b| - 1];
    }
  }

  lemma {:induction false} DoneOfTurns(s: seq<Event>, i: nat)
    requires s != [] && forall k :: 0 <= k < |s| ==> s[k].Turn? && s[k].iteration == i
    ensures IterationsDone(s) == i
  {
    if |s| > 1 {
      DoneOfTurns(s[..|s| - 1], i);
    }
  }

  lemma DoneOfPause(n: nat)
    ensures IterationsDone([Paused(n)]) == 0 && LastDelta([Paused(n)]) == None
  {
    assert [Paused(n)][..0] == [];
  }

  lemma DoneOfWrites(m: Mandatum, i: nat, o: Outcome)
    requires Continues(m, o)
    ensures IterationsDone(Writes(m, i, o)) == if Writes(m, i, o) == [] then 0 else i
  {
    hide VerdictOf;
    if Writes(m, i, o) != [] {
      DoneOfTurns(Writes(m, i, o), i);
    }
  }

  /** Iterations after the last journalled one wrote nothing. */
  lemma {:induction false} SilentTail(m: Mandatum, i: nat, n: nat, input: Input, script: Script)
    requires i <= n && Reaches(m, i, n, input, script)
    ensures var w := Between(m, i, n, input, script);
            var k := IterationsDone(w);
            if w == [] then k == 0
            else
              && i <= k < n && Reaches(m, i, k + 1, input, script)
              && w == Between(m, i, k + 1, input, script)
    decreases n - i
  {
    hide Writes, Continues, Next, IterationsDone;
    NothingDone();
    if i < n {
      var o := script(i, input);
      var next := Next(m, input, o);
      SilentTail(m, i + 1, n, next, script);
      var w, rest := Writes(m, i, o), Between(m, i + 1, n, next, script);
      DoneOfWrites(m, i, o);
      DoneAppend(w, rest);
      if rest == [] {
        assert w + rest == w;
        assert Between(m, i, i + 1, input, script) == w + [];
      }
    }
  }

  /** The run on `journal` comes to iteration `n`. */
  predicate ComesTo(m: Mandatum, journal: seq<Event>, n: nat, script: Script) {
    IterationsDone(journal) < n && Reaches(m, IterationsDone(journal) + 1, n, Handed(journal), script)
  }

  /** What it has appended then. */
  function SoFar(m: Mandatum, journal: seq<Event>, n: nat, script: Script): seq<Event>
    requires ComesTo(m, journal, n, script)
  {
    Between(m, IterationsDone(journal) + 1, n, Handed(journal), script)
  }

  function HeldAt(m: Mandatum, journal: seq<Event>, n: nat, script: Script): Input
    requires ComesTo(m, journal, n, script)
  {
    Held(m, IterationsDone(journal) + 1, n, Handed(journal), script)
  }

  /** Where a run resumed after a pause before `n` starts. */
  function StartsAt(m: Mandatum, journal: seq<Event>, n: nat, script: Script): nat
    requires ComesTo(m, journal, n, script)
  {
    IterationsDone(journal + SoFar(m, journal, n, script)) + 1
  }

  /** The iterations it does over had written nothing. */
  lemma Restart(m: Mandatum, journal: seq<Event>, n: nat, script: Script)
    requires ComesTo(m, journal, n, script)
    ensures var q := StartsAt(m, journal, n, script);
            && q <= n && ComesTo(m, journal, q, script)
            && SoFar(m, journal, n, script) == SoFar(m, journal, q, script)
            && IterationsDone(journal + SoFar(m, journal, n, script) + [Paused(n)]) + 1 == q
  {
    hide Between, Reaches, IterationsDone, Handed;
    var s, input := IterationsDone(journal) + 1, Handed(journal);
    var before := Between(m, s, n, input, script);
    SilentTail(m, s, n, input, script);
    DoneAppend(journal, before);
    DoneOfPause(n);
    DoneAppend(journal + before, [Paused(n)]);
    NoIterations(m, s, input, script);
  }

  lemma NoIterations(m: Mandatum, i: nat, input: Input, script: Script)
    ensures Reaches(m, i, i, input, script) && Between(m, i, i, input, script) == []
    ensures Held(m, i, i, input, script) == input
  {
  }

  // ---- The orders a resumed run is handed ----

  /** The orders of the verdicts from iteration `i` to before `n`. */
  function Verdicts(m: Mandatum, i: nat, n: nat, input: Input, script: Script): seq<seq<Order>>
    requires Reaches(m, i, n, input, script)
    decreases n - i
  {
    if i >= n then []
    else
      var o := script(i, input);
      (if o.Drafted? then [VerdictOf(m.spec, o.reply.value).delta] else []) +
      Verdicts(m, i + 1, n, Next(m, input, o), script)
  }

  /** The last non-empty one. */
  function LastOrders(vs: seq<seq<Order>>): Option<seq<Order>> {
    if vs == [] then None
    else if vs[|vs| - 1] != [] then Some(vs[|vs| - 1]) else LastOrders(vs[..|vs| - 1])
  }

  function Or(a: Option<seq<Order>>, b: Option<seq<Order>>): Option<seq<Order>> {
    if a.Some? then a else b
  }

  lemma {:induction false} DeltaAppend(a: seq<Event>, b: seq<Event>)
    ensures LastDelta(a + b) == Or(LastDelta(b), LastDelta(a))
    decreases |b|
  {
    if b == [] {
      assert a + b == a;
    } else {
      DeltaAppend(a, b[..|b| - 1]);
      assert (a + b)[..|a + b| - 1] == a + b[..|b| - 1];
    }
  }

  lemma {:induction false} OrdersAppend(a: seq<seq<Order>>, b: seq<seq<Order>>)
    ensures LastOrders(a + b) == Or(LastOrders(b), LastOrders(a))
    decreases |b|
  {
    if b == [] {
      assert a + b == a;
    } else {
      OrdersAppend(a, b[..|b| - 1]);
      assert (a + b)[..|a + b| - 1] == a + b[..|b| - 1];
    }
  }

  lemma OrdersOfOne(v: seq<Order>)
    ensures LastOrders([v]) == (if v == [] then None else Some(v)) && LastOrders([]) == None
  {
    assert [v][..0] == [];
  }

  lemma DeltaOfOne(i: nat, v: seq<Order>)
    ensures LastDelta([Turn(i, v)]) == if v == [] then None else Some(v)
  {
    assert [Turn(i, v)][..0] == [];
  }

  lemma DeltaOfWrites(m: Mandatum, i: nat, o: Outcome)
    requires Continues(m, o)
    ensures LastDelta(Writes(m, i, o)) ==
            LastOrders(if o.Drafted? then [VerdictOf(m.spec, o.reply.value).delta] else [])
  {
    hide VerdictOf, LastDelta, LastOrders;
    NothingDone();
    DeltaOfOne(i, []);
    OrdersOfOne([]);
    if o.Drafted? {
      var d := VerdictOf(m.spec, o.reply.value).delta;
      DeltaOfOne(i, d);
      OrdersOfOne(d);
      DeltaAppend(Rejections(i, o), [Turn(i, d)]);
      assert Writes(m, i, o) == Rejections(i, o) + [Turn(i, d)] + [] == Rejections(i, o) + [Turn(i, d)];
    }
  }

  /** The journal keeps the last non-empty orders. */
  lemma {:induction false} DeltaOfBetween(m: Mandatum, i: nat, n: nat, input: Input, script: Script)
    requires Reaches(m, i, n, input, script)
    ensures LastDelta(Between(m, i, n, input, script)) == LastOrders(Verdicts(m, i, n, input, script))
    decreases n - i
  {
    hide Writes, Continues, Next, LastDelta, LastOrders, VerdictOf;
    NothingDone();
    OrdersOfOne([]);
    if i < n {
      var o := script(i, input);
      var next := Next(m, input, o);
      DeltaOfBetween(m, i + 1, n, next, script);
      DeltaOfWrites(m, i, o);
      DeltaAppend(Writes(m, i, o), Between(m, i + 1, n, next, script));
      JudgedHasReply(m, o);
      OrdersAppend(if o.Drafted? then [VerdictOf(m.spec, o.reply.value).delta] else [], Verdicts(m, i + 1, n, next, script));
    }
  }

  lemma JudgedHasReply(m: Mandatum, o: Outcome)
    requires Continues(m, o)
    ensures o.Drafted? ==> o.reply.Some?
  {
  }

  /** The running loop holds the orders of the last verdict, or its own. */
  lemma {:induction false} DeltaHeld(m: Mandatum, i: nat, n: nat, input: Input, script: Script)
    requires Reaches(m, i, n, input, script)
    ensures var vs := Verdicts(m, i, n, input, script);
            Held(m, i, n, input, script).delta == if vs == [] then input.delta else Some(Poke(vs[|vs| - 1]))
    decreases n - i
  {
    hide Writes, VerdictOf, Poke;
    if i < n {
      DeltaHeld(m, i + 1, n, Next(m, input, script(i, input)), script);
    }
  }

  /** No turn of the journal orders to start over, which only the running loop does. */
  predicate Genuine(events: seq<Event>) {
    forall i :: 0 <= i < |events| && events[i].Turn? ==> StartOver !in events[i].delta
  }

  lemma WritesGenuine(m: Mandatum, i: nat, o: Outcome)
    ensures Genuine(Writes(m, i, o))
  {
    hide VerdictOf;
    if o.Drafted? && o.reply.Some? {
      VerdictsAreSpecific(m.spec, o.reply.value);
    }
  }

  lemma {:induction false} RunGenuine(m: Mandatum, i: nat, input: Input, script: Script)
    ensures Genuine(Run(m, i, input, script))
    decreases m.maxIterations + 1 - i
  {
    hide Run, Writes, Continues, Next;
    RunUnfolds(m, i, input, script);
    if i <= m.maxIterations {
      WritesGenuine(m, i, script(i, input));
      if Continues(m, script(i, input)) {
        RunGenuine(m, i + 1, Next(m, input, script(i, input)), script);
      }
    }
  }

  /** Journals that chains of invocations write are genuine. */
  lemma {:induction false} ChainGenuine(m: Mandatum, scripts: seq<Script>)
    ensures Genuine(Chain(m, scripts))
  {
    if scripts != [] {
      hide Genuine, Resume;
      var before := Chain(m, scripts[..|scripts| - 1]);
      ChainGenuine(m, scripts[..|scripts| - 1]);
      ResumeGenuine(m, before, scripts[|scripts| - 1]);
    }
  }

  lemma ResumeGenuine(m: Mandatum, journal: seq<Event>, script: Script)
    requires Genuine(journal)
    ensures Genuine(Resume(m, journal, script))
  {
    hide Run, Terminal, IterationsDone, Handed;
    RunGenuine(m, IterationsDone(journal) + 1, Handed(journal), script);
  }

  lemma {:induction false} GenuineDelta(events: seq<Event>)
    requires Genuine(events)
    ensures LastDelta(events) != Some([StartOver])
  {
    if events != [] {
      GenuineDelta(events[..|events| - 1]);
      assert StartOver in [StartOver];
    }
  }

  lemma {:induction false} BetweenGenuine(m: Mandatum, i: nat, n: nat, input: Input, script: Script)
    requires Reaches(m, i, n, input, script)
    ensures Genuine(Between(m, i, n, input, script))
    decreases n - i
  {
    hide Writes, Continues, Next;
    if i < n {
      WritesGenuine(m, i, script(i, input));
      BetweenGenuine(m, i + 1, n, Next(m, input, script(i, input)), script);
    }
  }

  /** The last verdict of the run, if there was one, carried orders. */
  predicate OrdersKept(vs: seq<seq<Order>>) {
    vs == [] || vs[|vs| - 1] != []
  }

  /** The orders of the verdicts of the run on `journal` before iteration `n`. */
  function VerdictsSoFar(m: Mandatum, journal: seq<Event>, n: nat, script: Script): seq<seq<Order>>
    requires ComesTo(m, journal, n, script)
  {
    Verdicts(m, IterationsDone(journal) + 1, n, Handed(journal), script)
  }

  /** The journal hands on the orders an uninterrupted run would hold exactly when the run had no
      verdict yet or its last verdict carried orders. */
  lemma DeltaHandedExactly(m: Mandatum, journal: seq<Event>, q: nat, n: nat, script: Script)
    requires ComesTo(m, journal, q, script) && Genuine(journal)
    ensures LastDelta(journal + SoFar(m, journal, q, script) + [Paused(n)]) == HeldAt(m, journal, q, script).delta
            <==> OrdersKept(VerdictsSoFar(m, journal, q, script))
  {
    hide Between, Held, Verdicts, Reaches, IterationsDone, LastDelta, Genuine, LastOrders;
    var s, input := IterationsDone(journal) + 1, Handed(journal);
    var before, vs := Between(m, s, q, input, script), Verdicts(m, s, q, input, script);
    DeltaHeld(m, s, q, input, script);
    DeltaOfBetween(m, s, q, input, script);
    DeltaAppend(journal, before);
    DeltaOfPause(journal + before, n);
    LastOrdersMeans(vs);
    BetweenGenuine(m, s, q, input, script);
    GenuineDelta(journal);
    GenuineDelta(before);
  }

  lemma DeltaOfPause(events: seq<Event>, n: nat)
    ensures LastDelta(events + [Paused(n)]) == LastDelta(events)
  {
    assert (events + [Paused(n)])[..|events|] == events;
  }

  lemma LastOrdersMeans(vs: seq<seq<Order>>)
    ensures vs == [] ==> LastOrders(vs) == None
    ensures vs != [] && vs[|vs| - 1] != [] ==> LastOrders(vs) == Some(vs[|vs| - 1])
  {
  }

  // ---- Pausing before a draft ----

  /** Nothing is lost by a pause before `n`: the last verdict carried orders, or there was none, and no
      draft was to be shown to the drafter. */
  predicate NothingLost(m: Mandatum, journal: seq<Event>, n: nat, script: Script)
    requires ComesTo(m, journal, n, script)
  {
    var q := StartsAt(m, journal, n, script);
    && ComesTo(m, journal, q, script)
    && OrdersKept(VerdictsSoFar(m, journal, q, script)) && HeldAt(m, journal, q, script).files == map[]
  }

  /** Stopping before iteration `n` and resuming starts again after the last journalled turn. The
      resumed run is handed what an uninterrupted run holds there if and only if nothing is lost. */
  lemma HandedExactly(m: Mandatum, journal: seq<Event>, n: nat, script: Script)
    requires ComesTo(m, journal, n, script) && n <= m.maxIterations && Genuine(journal) && !Terminal(journal)
    ensures var q, paused := StartsAt(m, journal, n, script), Resume(m, journal, PausedAt(script, n));
            && q <= n && ComesTo(m, journal, q, script)
            && paused == journal + SoFar(m, journal, q, script) + [Paused(n)] && IterationsDone(paused) + 1 == q
            && (Handed(paused) == HeldAt(m, journal, q, script) <==> NothingLost(m, journal, n, script))
  {
    hide Run, SoFar, HeldAt, VerdictsSoFar, ComesTo, IterationsDone, LastDelta, Terminal, Genuine, OrdersKept, PausedAt, StartsAt;
    Restart(m, journal, n, script);
    PausedJournal(m, journal, n, script);
    DeltaHandedExactly(m, journal, StartsAt(m, journal, n, script), n, script);
  }

  lemma PausedJournal(m: Mandatum, journal: seq<Event>, n: nat, script: Script)
    requires ComesTo(m, journal, n, script) && n <= m.maxIterations && !Terminal(journal)
    ensures Resume(m, journal, PausedAt(script, n)) == journal + SoFar(m, journal, n, script) + [Paused(n)]
  {
    hide Run, Between, Held, Reaches, IterationsDone, Terminal, Handed, PausedAt;
    var s, input := IterationsDone(journal) + 1, Handed(journal);
    SameBefore(m, s, n, input, script);
    RunSplits(m, s, n, input, PausedAt(script, n));
    StopsAt(m, n, Held(m, s, n, input, script), script);
    Reassociate(journal, Between(m, s, n, input, script), [Paused(n)]);
  }

  lemma StopsAt(m: Mandatum, n: nat, input: Input, script: Script)
    requires n <= m.maxIterations
    ensures Run(m, n, input, PausedAt(script, n)) == [Paused(n)]
  {
    assert [Paused(n)] + [] == [Paused(n)];
  }

  lemma {:induction false} NoResultBetween(m: Mandatum, i: nat, n: nat, input: Input, script: Script)
    requires Reaches(m, i, n, input, script)
    ensures !Terminal(Between(m, i, n, input, script))
    decreases n - i
  {
    hide Writes, Continues, Next;
    if i < n {
      WritesShape(m, i, script(i, input));
      NoResultBetween(m, i + 1, n, Next(m, input, script(i, input)), script);
    }
  }

  lemma StillOpen(a: seq<Event>, b: seq<Event>, n: nat)
    requires !Terminal(a) && !Terminal(b)
    ensures !Terminal(a + b + [Paused(n)])
  {
  }

  /** Main result on pausing: where nothing is lost, in any resumed run, what is appended before the
      pause and after it is what one uninterrupted run appends. */
  lemma PauseIsTransparent(m: Mandatum, journal: seq<Event>, n: nat, script: Script)
    requires ComesTo(m, journal, n, script) && n <= m.maxIterations && Genuine(journal) && !Terminal(journal)
    requires NothingLost(m, journal, n, script)
    ensures var paused, before := Resume(m, journal, PausedAt(script, n)), SoFar(m, journal, n, script);
            var more := Appends(m, paused, script);
            && paused == journal + before + [Paused(n)]
            && Resume(m, paused, script) == paused + more
            && Resume(m, journal, script) == journal + (before + more)
  {
    hide Run, Between, Held, VerdictsSoFar, Reaches, IterationsDone, LastDelta, Terminal, Genuine, OrdersKept, PausedAt, StartsAt;
    var q := StartsAt(m, journal, n, script);
    Restart(m, journal, n, script);
    HandedExactly(m, journal, n, script);
    NoResultBetween(m, IterationsDone(journal) + 1, q, Handed(journal), script);
    StillOpen(journal, SoFar(m, journal, q, script), n);
    RunSplits(m, IterationsDone(journal) + 1, q, Handed(journal), script);
  }

  /** In patch mode no draft is ever shown: only the orders can be lost. */
  lemma {:induction false} PatchShowsNothing(m: Mandatum, i: nat, n: nat, input: Input, script: Script)
    requires m.mode == Patch && input.files == map[] && Reaches(m, i, n, input, script)
    ensures Held(m, i, n, input, script).files == map[]
    decreases n - i
  {
    hide VerdictOf, Continues;
    if i < n {
      PatchShowsNothing(m, i + 1, n, Next(m, input, script(i, input)), script);
    }
  }

  // ---- What a pause can cost ----

  /** A drafter that repairs its draft when it is ordered to, and otherwise repeats it. */
  function Obedient(): Script {
    (i: nat, input: Input) => Drafted(false, map[], input.delta.Some?, Some(Parsed(true, [], [])))
  }

  /** The failing input: a draft with a red gate and a passing reply without orders. The running loop
      orders to start over; the journal has nothing to hand on. Uninterrupted, the second draft is
      accepted; paused before it and resumed, the second draft is made without orders and rejected. */
  lemma OrdersLost(m: Mandatum)
    requires m.mode == Patch && !m.compilerOnly && m.spec.count == 0 && m.maxIterations == 2
    ensures var paused := Resume(m, [], PausedAt(Obedient(), 2));
            && ComesTo(m, [], 2, Obedient()) && HeldAt(m, [], 2, Obedient()).delta == Some([StartOver])
            && paused == [Turn(1, []), Paused(2)] && Handed(paused).delta == None
            && Resume(m, [], Obedient()) == [Turn(1, []), Turn(2, []), Result(true)]
            && Resume(m, paused, Obedient()) == [Turn(1, []), Paused(2), Turn(2, []), Result(false)]
  {
    hide Run, Writes, Continues, Next, LastDelta, IterationsDone, Terminal;
    var none, poked := Input(None, map[]), Input(Some([StartOver]), map[]);
    NothingDone();
    Unordered(m, 1);
    Unordered(m, 2);
    Ordered(m, 2);
    var script := Obedient();
    RunUnfolds(m, 1, none, script);
    RunUnfolds(m, 2, none, script);
    RunUnfolds(m, 3, poked, script);
    RunUnfolds(m, 2, poked, script);
    RunUnfolds(m, 1, none, PausedAt(script, 2));
    StopsAt(m, 2, poked, script);
    assert ComesTo(m, [], 2, script);
    ShortJournals();
  }

  lemma PlainVerdict(sp: Spec)
    requires sp.count == 0
    ensures VerdictOf(sp, Parsed(true, [], [])) == Verdict(true, [], true)
  {
  }

  /** An iteration of `Obedient` without orders. */
  lemma Unordered(m: Mandatum, i: nat)
    requires m.mode == Patch && !m.compilerOnly && m.spec.count == 0
    ensures var o := Obedient()(i, Input(None, map[]));
            && Writes(m, i, o) == [Turn(i, [])] && Continues(m, o)
            && Next(m, Input(None, map[]), o) == Input(Some([StartOver]), map[])
  {
    hide VerdictOf;
    PlainVerdict(m.spec);
  }

  /** And one with orders. */
  lemma Ordered(m: Mandatum, i: nat)
    requires m.mode == Patch && !m.compilerOnly && m.spec.count == 0
    ensures var o := Obedient()(i, Input(Some([StartOver]), map[]));
            Writes(m, i, o) == [Turn(i, []), Result(true)] && !Continues(m, o)
  {
    hide VerdictOf;
    PlainVerdict(m.spec);
  }

  lemma ShortJournals()
    ensures !Terminal([]) && !Terminal([Turn(1, []), Paused(2)])
    ensures LastDelta([Turn(1, []), Paused(2)]) == None && IterationsDone([Turn(1, []), Paused(2)]) == 1
  {
    DeltaAppend([Turn(1, [])], [Paused(2)]);
    DoneAppend([Turn(1, [])], [Paused(2)]);
    DeltaOfOne(1, []);
    DoneOfTurns([Turn(1, [])], 1);
    DoneOfPause(2);
    assert [Turn(1, [])] + [Paused(2)] == [Turn(1, []), Paused(2)];
  }

  // ---- Pausing after a draft ----

  /** The outcome ends the run without a result. */
  predicate Pauses(m: Mandatum, o: Outcome) {
    !Continues(m, o) && !Accepts(m, o)
  }

  /** The journal names the paused iteration as the next one, but a resumed run starts after the last
      journalled turn: it skips the paused iteration exactly when fragments had been rejected in it. */
  lemma SkippedOnResume(m: Mandatum, journal: seq<Event>, n: nat, script: Script)
    requires ComesTo(m, journal, n, script) && n <= m.maxIterations && !Terminal(journal)
    requires Pauses(m, script(n, HeldAt(m, journal, n, script)))
    ensures var o, all := script(n, HeldAt(m, journal, n, script)), Resume(m, journal, script);
            && all != [] && all[|all| - 1] == Paused(n) && IterationsDone(all) <= n
            && (IterationsDone(all) + 1 > n <==> o.Drafted? && o.rejected)
  {
    hide Run, Between, Held, Reaches, Writes, Continues, Accepts, IterationsDone, Handed, Terminal;
    var s, input := IterationsDone(journal) + 1, Handed(journal);
    var before, held := Between(m, s, n, input, script), Held(m, s, n, input, script);
    var o := script(n, held);
    RunSplits(m, s, n, input, script);
    RunUnfolds(m, n, held, script);
    PausedWrites(m, n, o);
    SilentTail(m, s, n, input, script);
    var w := Writes(m, n, o);
    assert Appends(m, journal, script) == before + w;
    DoneAppend(before, w);
    DoneAppend(journal, before + w);
  }

  lemma PausedWrites(m: Mandatum, n: nat, o: Outcome)
    requires Pauses(m, o)
    ensures !Continues(m, o)
    ensures var w := Writes(m, n, o);
            && w != [] && w[|w| - 1] == Paused(n) && w + [] == w
            && IterationsDone(w) == if o.Drafted? && o.rejected then n else 0
  {
    hide VerdictOf, IterationsDone, Satisfied;
    DoneOfPause(n);
    DoneAppend([Turn(n, [])], [Paused(n)]);
    DoneOfTurns([Turn(n, [])], n);
    assert [] + [Paused(n)] == [Paused(n)];
    if o.Drafted? && o.reply.Some? {
      PassedMeans(m.spec, o.reply.value);
    }
  }

  lemma PassedMeans(sp: Spec, r: Reply)
    ensures VerdictOf(sp, r).passed <==> Satisfied(sp, r)
  {
  }

  // ---- The code ----

  method ResumeState(events: seq<Event>) returns (done: nat, delta: Option<seq<Order>>, terminal: bool)
    ensures done == IterationsDone(events) && delta == LastDelta(events) && terminal == Terminal(events)
  {
    done, delta, terminal := 0, None, false;
    for k := 0 to |events|
      invariant done == IterationsDone(events[..k]) && delta == LastDelta(events[..k])
      invariant terminal <==> exists i :: 0 <= i < k && events[i].Result?
    {
      var ev := events[k];
      assert events[..k + 1][..k] == events[..k];
      match ev
      case Turn(iteration, d) =>
        if iteration > done {
          done := iteration;
        }
        if d != [] {
          delta := Some(d);
        }
      case Result(_) =>
        terminal := true;
      case Paused(_) =>
    }
    assert events[..|events|] == events;
  }

  /** The bounded loop; `journal` is the file it appends to. */
  method RebisLoop(m: Mandatum, start: nat, delta: Option<seq<Order>>, script: Script, journal: seq<Event>)
    returns (after: seq<Event>, accepted: bool)
    ensures after == journal + Run(m, start, Input(delta, map[]), script)
    ensures accepted <==> Result(true) in Run(m, start, Input(delta, map[]), script)
    ensures accepted <==> exists n: nat :: AcceptedAt(m, start, n, Input(delta, map[]), script)
  {
    hide Run, Writes, Accepts, Continues, Next, AcceptedAt;
    ghost var first := Input(delta, map[]);
    AcceptedExactly(m, start, first, script);
    after := journal;
    var iteration, input := start, Input(delta, map[]);
    while iteration <= m.maxIterations
      invariant start <= iteration
      invariant Remains(m, journal, start, first, after, iteration, input, script)
      decreases m.maxIterations + 1 - iteration
    {
      OneMore(m, journal, start, first, after, iteration, input, script);
      var stop: bool;
      after, accepted, stop, input := Iterate(m, iteration, script(iteration, input), input, after);
      if stop {
        return;
      }
      iteration := iteration + 1;
    }
    RunUnfolds(m, iteration, input, script);
    after := after + [Result(false)];
    accepted := false;
  }

  /** What the run from `start` still has to append is what a run from `i` would. */
  ghost predicate Remains(m: Mandatum, journal: seq<Event>, start: nat, first: Input,
                          after: seq<Event>, i: nat, input: Input, script: Script)
  {
    && journal + Run(m, start, first, script) == after + Run(m, i, input, script)
    && (Result(true) in Run(m, start, first, script) <==> Result(true) in Run(m, i, input, script))
  }

  lemma OneMore(m: Mandatum, journal: seq<Event>, start: nat, first: Input,
                after: seq<Event>, i: nat, input: Input, script: Script)
    requires i <= m.maxIterations && Remains(m, journal, start, first, after, i, input, script)
    ensures var o := script(i, input);
            var written := after + Writes(m, i, o);
            if Continues(m, o) then Remains(m, journal, start, first, written, i + 1, Next(m, input, o), script)
            else
              && journal + Run(m, start, first, script) == written
              && (Result(true) in Run(m, start, first, script) <==> Accepts(m, o))
  {
    hide Run, Writes, Accepts, Continues, Next;
    var o := script(i, input);
    RunUnfolds(m, i, input, script);
    WritesResult(m, i, o);
    var w := Writes(m, i, o);
    if Continues(m, o) {
      var rest := Run(m, i + 1, Next(m, input, o), script);
      assert after + (w + rest) == (after + w) + rest;
      assert Result(true) in w + rest <==> Result(true) in w || Result(true) in rest;
    } else {
      assert w + [] == w;
    }
  }

  /** One iteration: draft, gate, verdict. */
  method Iterate(m: Mandatum, iteration: nat, o: Outcome, input: Input, journal: seq<Event>)
    returns (after: seq<Event>, accepted: bool, stop: bool, next: Input)
    ensures after == journal + Writes(m, iteration, o)
    ensures stop <==> !Continues(m, o)
    ensures accepted <==> Accepts(m, o)
    ensures !stop ==> next == Next(m, input, o)
  {
    hide VerdictOf, Satisfied;
    after, accepted, stop, next := journal, false, false, input;
    match o
    case OutOfBudget =>
      after, stop := after + [Paused(iteration)], true;
    case DrafterDown =>
      after, stop := after + [Paused(iteration)], true;
    case Failed =>
      if m.mode == Full {
        next := input.(files := map[]);
      }
      after := after + [Turn(iteration, [])];
    case Unwritten(rejected, files) =>
      next := input.(files := if m.mode == Patch then map[] else files);
      if rejected {
        after := after + [Turn(iteration, [])];
      }
    case Drafted(rejected, files, gate, reply) =>
      if rejected {
        after := after + [Turn(iteration, [])];
      }
      assert after == journal + Rejections(iteration, o);
      if m.compilerOnly && gate {
        after, accepted, stop := after + [Result(true)], true, true;
        return;
      }
      if reply.None? {
        after, stop := after + [Paused(iteration)], true;
        return;
      }
      var v := ParseVerdict(m.spec, reply.value);
      PassedMeans(m.spec, reply.value);
      after := after + [Turn(iteration, v.delta)];
      if gate && v.passed {
        after, accepted, stop := after + [Result(true)], true, true;
        return;
      }
      next := Input(Some(if v.delta != [] then v.delta else [StartOver]), if m.mode == Patch then map[] else files);
  }

  /** `main` with `--resume`. */
  method ResumeRun(m: Mandatum, journal: seq<Event>, script: Script) returns (after: seq<Event>)
    ensures after == Resume(m, journal, script)
  {
    hide Run, Terminal, IterationsDone, LastDelta;
    var done, delta, terminal := ResumeState(journal);
    if terminal {
      return journal;
    }
    var accepted;
    after, accepted := RebisLoop(m, done + 1, delta, script, journal);
  }
}
