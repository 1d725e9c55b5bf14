/** What a run of the drafter/verifier loop hands from iteration to iteration and what it writes down
    (libvitriol/rebis.py, `rebis_loop`), read off the outcomes of its iterations. */
module RebisLaws {
  import opened Common
  import opened RebisVerdict
  import opened RebisLoop

  lemma {:induction false} ReachesBefore(m: Mandatum, i: nat, k: nat, n: nat, input: Input, script: Script)
    requires k <= n && Reaches(m, i, n, input, script)
    ensures Reaches(m, i, k, input, script)
    decreases n - i
  {
    hide Continues, Next;
    if i < k {
      ReachesBefore(m, i + 1, k, n, Next(m, input, script(i, input)), script);
    }
  }

  /** What happens in iteration `k` of the run. */
  function OutcomeAt(m: Mandatum, i: nat, k: nat, input: Input, script: Script): Outcome
    requires Reaches(m, i, k, input, script)
  {
    script(k, Held(m, i, k, input, script))
  }

  /** Iteration `k` passes on to the next. */
  lemma {:induction false} OneIteration(m: Mandatum, i: nat, k: nat, input: Input, script: Script)
    requires i <= k && Reaches(m, i, k + 1, input, script)
    ensures Reaches(m, i, k, input, script) && Continues(m, OutcomeAt(m, i, k, input, script))
    ensures Held(m, i, k + 1, input, script) == Next(m, Held(m, i, k, input, script), OutcomeAt(m, i, k, input, script))
    ensures Between(m, i, k + 1, input, script) ==
            Between(m, i, k, input, script) + Writes(m, k, OutcomeAt(m, i, k, input, script))
    decreases k - i
  {
    hide Continues, Next, Writes;
    if i < k {
      var o := script(i, input);
      OneIteration(m, i + 1, k, Next(m, input, o), script);
      Reassociate(Writes(m, i, o), Between(m, i + 1, k, Next(m, input, o), script),
                  Writes(m, k, OutcomeAt(m, i, k, input, script)));
    } else {
      var w := Writes(m, i, script(i, input));
      NoIterations(m, i, input, script);
      NoIterations(m, i + 1, Next(m, input, script(i, input)), script);
      assert w + [] == w && [] + w == w;
    }
  }

  // ---- The last draft ----

  /** The drafter came back with files. */
  predicate Drafts(o: Outcome) {
    o.Drafted? || o.Unwritten?
  }

  /** No later iteration before `n` changes the draft: it drafts nothing, and a failure in between does not
      empty it, which it does only when whole files are asked for. */
  ghost predicate Stands(m: Mandatum, i: nat, k: int, n: nat, input: Input, script: Script)
    requires Reaches(m, i, n, input, script)
  {
    forall j: nat :: k < j < n && i <= j ==>
      Reaches(m, i, j, input, script) && OutcomeAt(m, i, j, input, script).Failed? && m.mode == Replace
  }

  /** Main result on correction turns: outside patch mode an iteration is handed the files of the last draft
      before it. */
  lemma {:induction false} LastDraftHeld(m: Mandatum, i: nat, k: nat, n: nat, input: Input, script: Script)
    requires m.mode != Patch && i <= k < n && Reaches(m, i, n, input, script)
    requires Reaches(m, i, k, input, script) && Drafts(OutcomeAt(m, i, k, input, script)) && Stands(m, i, k, n, input, script)
    ensures Held(m, i, n, input, script).files == OutcomeAt(m, i, k, input, script).files
    decreases n
  {
    hide Held, Reaches, Continues, VerdictOf, OutcomeAt;
    OneIteration(m, i, n - 1, input, script);
    HeldInputs(m, i, n - 1, input, script);
    if k < n - 1 {
      assert OutcomeAt(m, i, n - 1, input, script).Failed?;
      LastDraftHeld(m, i, k, n - 1, input, script);
    }
  }

  lemma HeldInputs(m: Mandatum, i: nat, k: nat, input: Input, script: Script)
    requires Reaches(m, i, k, input, script)
    ensures OutcomeAt(m, i, k, input, script) == script(k, Held(m, i, k, input, script))
  {
  }

  /** A failure where whole files are asked for leaves no draft. */
  lemma DraftDropped(m: Mandatum, i: nat, n: nat, input: Input, script: Script)
    requires m.mode == Full && i < n && Reaches(m, i, n, input, script)
    requires Reaches(m, i, n - 1, input, script) && OutcomeAt(m, i, n - 1, input, script).Failed?
    ensures Held(m, i, n, input, script).files == map[]
  {
    hide Held, Reaches, Continues, VerdictOf, OutcomeAt;
    OneIteration(m, i, n - 1, input, script);
  }

  /** Before any draft the files are those of the start. */
  lemma {:induction false} NoDraftYet(m: Mandatum, i: nat, n: nat, input: Input, script: Script)
    requires i <= n && Reaches(m, i, n, input, script) && Stands(m, i, i - 1, n, input, script)
    ensures Held(m, i, n, input, script).files == input.files
    decreases n
  {
    if i < n {
      hide Held, Reaches, Continues, VerdictOf, OutcomeAt;
      OneIteration(m, i, n - 1, input, script);
      assert OutcomeAt(m, i, n - 1, input, script).Failed?;
      NoDraftYet(m, i, n - 1, input, script);
    }
  }

  // ---- The journal ----

  /** An iteration the journal names: it failed, had fragments rejected, or came to a verdict. */
  predicate Named(o: Outcome) {
    o.Failed? || o.Drafted? || (o.Unwritten? && o.rejected)
  }

  /** Main result on the journal of a run: before iteration `n` it holds turns only, of exactly the iterations
      that failed, had fragments rejected, or came to a verdict. */
  lemma {:induction false} NamedExactly(m: Mandatum, i: nat, k: nat, n: nat, input: Input, script: Script)
    requires i <= k < n && Reaches(m, i, n, input, script)
    ensures Reaches(m, i, k, input, script)
    ensures var w := Between(m, i, n, input, script);
            && (forall e :: e in w ==> e.Turn? && i <= e.iteration < n)
            && ((exists e :: e in w && e.Turn? && e.iteration == k) <==> Named(OutcomeAt(m, i, k, input, script)))
    ensures var o := OutcomeAt(m, i, k, input, script);
            o.Drafted? ==> o.reply.Some? && Turn(k, VerdictOf(m.spec, o.reply.value).delta) in Between(m, i, n, input, script)
    decreases n
  {
    hide Held, Reaches, Continues, VerdictOf, OutcomeAt, Between, Named, Writes;
    OneIteration(m, i, n - 1, input, script);
    var o, last := OutcomeAt(m, i, n - 1, input, script), Writes(m, n - 1, OutcomeAt(m, i, n - 1, input, script));
    WritesTurns(m, n - 1, o);
    if k < n - 1 {
      NamedExactly(m, i, k, n - 1, input, script);
    } else {
      TurnsBefore(m, i, n - 1, input, script);
    }
    var before := Between(m, i, n - 1, input, script);
    assert forall e :: e in before + last <==> e in before || e in last;
  }

  lemma {:induction false} TurnsBefore(m: Mandatum, i: nat, n: nat, input: Input, script: Script)
    requires i <= n && Reaches(m, i, n, input, script)
    ensures forall e :: e in Between(m, i, n, input, script) ==> e.Turn? && i <= e.iteration < n
    decreases n
  {
    if i < n {
      hide Held, Reaches, Continues, VerdictOf, OutcomeAt, Between, Writes;
      OneIteration(m, i, n - 1, input, script);
      WritesTurns(m, n - 1, OutcomeAt(m, i, n - 1, input, script));
      TurnsBefore(m, i, n - 1, input, script);
    }
  }

  lemma WritesTurns(m: Mandatum, k: nat, o: Outcome)
    requires Continues(m, o)
    ensures forall e :: e in Writes(m, k, o) ==> e.Turn? && e.iteration == k
    ensures Named(o) ==> exists e :: e in Writes(m, k, o)
    ensures !Named(o) ==> Writes(m, k, o) == []
    ensures o.Drafted? ==> o.reply.Some? && Turn(k, VerdictOf(m.spec, o.reply.value).delta) in Writes(m, k, o)
  {
    hide VerdictOf;
    if Named(o) {
      var w := Writes(m, k, o);
      assert w[|w| - 1] in w;
    }
  }

  /** A run gives up exactly if every iteration allowed goes on to the next. */
  lemma {:induction false} GivesUpExactly(m: Mandatum, i: nat, input: Input, script: Script)
    requires i <= m.maxIterations + 1
    ensures Result(false) in Run(m, i, input, script) <==> Reaches(m, i, m.maxIterations + 1, input, script)
    decreases m.maxIterations + 1 - i
  {
    hide Run, Writes, Continues, Next;
    RunUnfolds(m, i, input, script);
    if i <= m.maxIterations {
      var o := script(i, input);
      WritesResult(m, i, o);
      if Continues(m, o) {
        GivesUpExactly(m, i + 1, Next(m, input, o), script);
      }
    }
  }

  /** Budget or drafter ran out before a draft, or the verifier after one that needed it. */
  predicate Stalls(m: Mandatum, o: Outcome) {
    o.OutOfBudget? || o.DrafterDown? || (o.Drafted? && o.reply.None? && !(m.compilerOnly && o.gate))
  }

  /** An iteration goes on exactly if it neither stalls nor is accepted. */
  lemma ThreeWays(m: Mandatum, k: nat, o: Outcome)
    ensures Continues(m, o) <==> !Stalls(m, o) && !Accepts(m, o)
    ensures !(Stalls(m, o) && Accepts(m, o))
    ensures !Continues(m, o) ==> Writes(m, k, o) != []
    ensures Stalls(m, o) ==> var w := Writes(m, k, o); w[|w| - 1] == Paused(k)
    ensures Accepts(m, o) ==> var w := Writes(m, k, o); w[|w| - 1] == Result(true)
  {
    hide VerdictOf, Satisfied;
    if o.Drafted? && o.reply.Some? {
      PassedMeans(m.spec, o.reply.value);
    }
  }

  lemma LastOf(a: seq<Event>, b: seq<Event>)
    requires b != []
    ensures a + b != [] && (a + b)[|a + b| - 1] == b[|b| - 1]
  {
  }

  /** Main result on how a run ends: at the first iteration that stalls, with a pause; at the first that is accepted,
      with that result; and else, all iterations used up, with the other. */
  lemma RunEnds(m: Mandatum, i: nat, n: nat, input: Input, script: Script)
    requires i <= n <= m.maxIterations + 1 && Reaches(m, i, n, input, script)
    ensures var all := Run(m, i, input, script);
            && (n == m.maxIterations + 1 ==> all != [] && all[|all| - 1] == Result(false))
            && (n <= m.maxIterations && Stalls(m, OutcomeAt(m, i, n, input, script)) ==> all != [] && all[|all| - 1] == Paused(n))
            && (n <= m.maxIterations && Accepts(m, OutcomeAt(m, i, n, input, script)) ==> all != [] && all[|all| - 1] == Result(true))
            && (n <= m.maxIterations && !Stalls(m, OutcomeAt(m, i, n, input, script)) && !Accepts(m, OutcomeAt(m, i, n, input, script)) ==>
                Reaches(m, i, n + 1, input, script))
  {
    hide Run, Between, Continues, Accepts, Stalls, Writes, Next;
    var held := Held(m, i, n, input, script);
    RunSplits(m, i, n, input, script);
    RunUnfolds(m, n, held, script);
    if n <= m.maxIterations {
      var o := script(n, held);
      ThreeWays(m, n, o);
      if Continues(m, o) {
        ReachesOn(m, i, n, input, script);
      } else {
        assert Writes(m, n, o) + [] == Writes(m, n, o);
        LastOf(Between(m, i, n, input, script), Writes(m, n, o));
      }
    } else {
      LastOf(Between(m, i, n, input, script), [Result(false)]);
    }
  }

  lemma {:induction false} ReachesOn(m: Mandatum, i: nat, n: nat, input: Input, script: Script)
    requires i <= n && Reaches(m, i, n, input, script) && Continues(m, OutcomeAt(m, i, n, input, script))
    ensures Reaches(m, i, n + 1, input, script)
    decreases n - i
  {
    hide Continues, Next;
    if i < n {
      ReachesOn(m, i + 1, n, Next(m, input, script(i, input)), script);
    }
  }
}
