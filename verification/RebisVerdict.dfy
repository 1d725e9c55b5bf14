/** Folding a verifier's reply into a verdict (libvitriol/rebis.py, `parse_verdict`). Finding and
    decoding the JSON object, and matching a paraphrased invariant, are given. */
module RebisVerdict {
  import opened Common

  datatype Check = Check(id: Option<int>, text: string, holds: bool, evidence: string)

  /** A decoded reply with a boolean `pass`, or anything else. */
  datatype Reply = Unparseable | Parsed(pass: bool, checks: seq<Check>, delta: seq<string>)

  /** A correction order: the verifier's own, a gap the parser found, or the loop's when there is none. */
  datatype Order = Given(text: string) | Unaddressed(which: nat) | Failed(which: nat) | StrictJsonOnly | StartOver

  datatype Verdict = Verdict(passed: bool, delta: seq<Order>, wellformed: bool)

  /** How many invariants there are, and which one a paraphrase means. */
  datatype Spec = Spec(count: nat, fuzzy: string -> Option<nat>)

  /** The characters Python's `strip` removes. */
  predicate IsSpace(c: char) {
    var n := c as int;
    || 9 <= n <= 13 || 28 <= n <= 32 || n == 0x85 || n == 0xA0 || n == 0x1680 || 0x2000 <= n <= 0x200A
    || n == 0x2028 || n == 0x2029 || n == 0x202F || n == 0x205F || n == 0x3000
  }

  predicate Blank(s: string) {
    forall i :: 0 <= i < |s| ==> IsSpace(s[i])
  }

  /** The invariant a check speaks about. */
  function Target(sp: Spec, c: Check): Option<nat> {
    if c.id.Some? && 1 <= c.id.value <= sp.count then Some(c.id.value - 1) else sp.fuzzy(c.text)
  }

  predicate Supports(c: Check) {
    c.holds && !Blank(c.evidence)
  }

  // ---- What a verdict means ----

  predicate Addressed(sp: Spec, checks: seq<Check>, n: nat) {
    exists c :: c in checks && Target(sp, c) == Some(n)
  }

  predicate Upheld(sp: Spec, checks: seq<Check>, n: nat) {
    forall c :: c in checks && Target(sp, c) == Some(n) ==> Supports(c)
  }

  /** The reply passes, and every invariant is addressed and upheld by all that addresses it. */
  predicate Satisfied(sp: Spec, r: Reply) {
    r.Parsed? && r.pass && forall n: nat :: n < sp.count ==> Addressed(sp, r.checks, n) && Upheld(sp, r.checks, n)
  }

  function Gap(sp: Spec, checks: seq<Check>, n: nat): seq<Order> {
    if !Addressed(sp, checks, n) then [Unaddressed(n)]
    else if !Upheld(sp, checks, n) then [Failed(n)] else []
  }

  function Gaps(sp: Spec, checks: seq<Check>, n: nat): seq<Order> {
    if n == 0 then [] else Gaps(sp, checks, n - 1) + Gap(sp, checks, n - 1)
  }

  function Orders(delta: seq<string>): (r: seq<Order>)
    ensures |r| == |delta| && forall i :: 0 <= i < |r| ==> r[i] == Given(delta[i])
  {
    seq(|delta|, i requires 0 <= i < |delta| => Given(delta[i]))
  }

  function VerdictOf(sp: Spec, r: Reply): Verdict {
    if r.Unparseable? then Verdict(false, [StrictJsonOnly], false)
    else Verdict(Satisfied(sp, r), Orders(r.delta) + Gaps(sp, r.checks, sp.count), true)
  }

  lemma {:induction false} GapsDependOnMembers(sp: Spec, a: seq<Check>, b: seq<Check>, n: nat)
    requires forall c :: c in a <==> c in b
    ensures Gaps(sp, a, n) == Gaps(sp, b, n)
  {
    if n > 0 {
      GapsDependOnMembers(sp, a, b, n - 1);
    }
  }

  /** The verdict does not depend on the order (or repetition) of the checks. */
  lemma OrderIrrelevant(sp: Spec, pass: bool, a: seq<Check>, b: seq<Check>, delta: seq<string>)
    requires multiset(a) == multiset(b)
    ensures VerdictOf(sp, Parsed(pass, a, delta)) == VerdictOf(sp, Parsed(pass, b, delta))
  {
    forall c
      ensures c in a <==> c in b
    {
      assert c in a <==> c in multiset(a);
      assert c in b <==> c in multiset(b);
    }
    GapsDependOnMembers(sp, a, b, sp.count);
    assert forall n: nat :: n < sp.count ==> Addressed(sp, a, n) == Addressed(sp, b, n) && Upheld(sp, a, n) == Upheld(sp, b, n);
  }

  /** A well-formed failure of a passing reply always names a gap. */
  lemma {:induction false} FailureNamesGap(sp: Spec, checks: seq<Check>, n: nat)
    ensures Gaps(sp, checks, n) == [] <==>
            forall k: nat :: k < n ==> Addressed(sp, checks, k) && Upheld(sp, checks, k)
  {
    hide Addressed, Upheld;
    if n > 0 {
      FailureNamesGap(sp, checks, n - 1);
    }
  }

  /** Only the loop orders to start over. */
  lemma {:induction false} GapsAreSpecific(sp: Spec, checks: seq<Check>, n: nat)
    ensures StartOver !in Gaps(sp, checks, n)
  {
    if n > 0 {
      GapsAreSpecific(sp, checks, n - 1);
    }
  }

  lemma VerdictsAreSpecific(sp: Spec, r: Reply)
    ensures StartOver !in VerdictOf(sp, r).delta
  {
    hide Gaps;
    if r.Parsed? {
      GapsAreSpecific(sp, r.checks, sp.count);
    }
  }

  /** The check speaks about invariant `n`, counted from 0: by its number, counted from 1, or without a number that
      names one, by its text. */
  predicate SpeaksOf(sp: Spec, c: Check, n: nat) {
    if c.id.Some? && 0 < c.id.value <= sp.count then c.id.value == n + 1 else sp.fuzzy(c.text) == Some(n)
  }

  predicate SpokenOf(sp: Spec, checks: seq<Check>, n: nat) {
    exists c :: c in checks && SpeaksOf(sp, c, n)
  }

  predicate Evidenced(sp: Spec, checks: seq<Check>, n: nat) {
    forall c :: c in checks && SpeaksOf(sp, c, n) ==> c.holds && !Blank(c.evidence)
  }

  /** Main result on a verdict: it passes exactly if the reply does and every invariant is spoken of, by nothing
      but checks that hold on evidence that is not blank. */
  lemma PassesExactly(sp: Spec, r: Reply)
    ensures VerdictOf(sp, r).passed <==>
            r.Parsed? && r.pass && forall n: nat :: n < sp.count ==> SpokenOf(sp, r.checks, n) && Evidenced(sp, r.checks, n)
    ensures r.Parsed? ==> VerdictOf(sp, r).wellformed && VerdictOf(sp, r).delta == Orders(r.delta) + Gaps(sp, r.checks, sp.count)
    ensures r.Unparseable? ==> !VerdictOf(sp, r).wellformed && VerdictOf(sp, r).delta == [StrictJsonOnly]
  {
    hide Addressed, Upheld, SpokenOf, Evidenced, Gaps;
    if r.Parsed? {
      forall n: nat
        ensures Addressed(sp, r.checks, n) <==> SpokenOf(sp, r.checks, n)
        ensures Upheld(sp, r.checks, n) <==> Evidenced(sp, r.checks, n)
      {
        StandsFor(sp, r.checks, n);
      }
    }
  }

  lemma TargetMeans(sp: Spec, c: Check, n: nat)
    ensures SpeaksOf(sp, c, n) <==> Target(sp, c) == Some(n)
  {
  }

  lemma StandsFor(sp: Spec, checks: seq<Check>, n: nat)
    ensures Addressed(sp, checks, n) <==> SpokenOf(sp, checks, n)
    ensures Upheld(sp, checks, n) <==> Evidenced(sp, checks, n)
  {
    hide Target, SpeaksOf, Blank;
    forall c
      ensures SpeaksOf(sp, c, n) <==> Target(sp, c) == Some(n)
    {
      TargetMeans(sp, c, n);
    }
  }

  /** The orders of a decoded reply: the verifier's own, then one for each invariant that is not spoken of or not
      upheld, in the order of the invariants. */
  lemma {:induction false} GapsExactly(sp: Spec, checks: seq<Check>, m: nat, n: nat)
    requires n < m
    ensures Unaddressed(n) in Gaps(sp, checks, m) <==> !Addressed(sp, checks, n)
    ensures Failed(n) in Gaps(sp, checks, m) <==> Addressed(sp, checks, n) && !Upheld(sp, checks, n)
    ensures forall o :: o in Gaps(sp, checks, m) ==> (o.Unaddressed? || o.Failed?) && o.which < m
  {
    hide Addressed, Upheld;
    if n < m - 1 {
      GapsExactly(sp, checks, m - 1, n);
    } else {
      GapsBelow(sp, checks, m - 1);
    }
  }

  lemma {:induction false} GapsBelow(sp: Spec, checks: seq<Check>, m: nat)
    ensures forall o :: o in Gaps(sp, checks, m) ==> (o.Unaddressed? || o.Failed?) && o.which < m
  {
    hide Addressed, Upheld;
    if m > 0 {
      GapsBelow(sp, checks, m - 1);
    }
  }

  function Which(o: Order): int {
    if o.Unaddressed? || o.Failed? then o.which else -1
  }

  /** From `low` on, below `high`, and rising. */
  ghost predicate Rising(g: seq<Order>, low: int, high: int) {
    && (forall i :: 0 <= i < |g| ==> low <= Which(g[i]) < high)
    && forall i, j :: 0 <= i < j < |g| ==> Which(g[i]) < Which(g[j])
  }

  lemma RisingAppend(a: seq<Order>, b: seq<Order>, low: int, mid: int, high: int)
    requires Rising(a, low, mid) && Rising(b, mid, high) && low <= mid <= high
    ensures Rising(a + b, low, high)
  {
  }

  lemma GapRises(sp: Spec, checks: seq<Check>, n: nat)
    ensures Rising(Gap(sp, checks, n), n, n + 1)
  {
  }

  lemma {:induction false} GapsAscend(sp: Spec, checks: seq<Check>, m: nat)
    ensures Rising(Gaps(sp, checks, m), 0, m)
  {
    if m > 0 {
      hide Rising, Gap;
      GapsAscend(sp, checks, m - 1);
      GapRises(sp, checks, m - 1);
      RisingAppend(Gaps(sp, checks, m - 1), Gap(sp, checks, m - 1), 0, m - 1, m);
    }
  }

  // ---- The loops ----

  /** The table after some checks: an invariant is in it once addressed, with whether it held so far. */
  ghost predicate Tally(sp: Spec, checks: seq<Check>, held: map<nat, bool>) {
    forall n: nat ::
      && (n in held <==> Addressed(sp, checks, n))
      && (n in held ==> held[n] == Upheld(sp, checks, n))
  }

  lemma OneMoreCheck(sp: Spec, checks: seq<Check>, c: Check, n: nat)
    ensures Addressed(sp, checks + [c], n) <==> Addressed(sp, checks, n) || Target(sp, c) == Some(n)
    ensures Upheld(sp, checks + [c], n) <==> Upheld(sp, checks, n) && (Target(sp, c) == Some(n) ==> Supports(c))
    ensures !Addressed(sp, checks, n) ==> Upheld(sp, checks, n)
  {
    hide Target, Supports;
    var all := checks + [c];
    assert c in all && forall x :: x in all <==> x in checks || x == c;
    if Addressed(sp, checks, n) {
      var x :| x in checks && Target(sp, x) == Some(n);
      assert x in all;
    }
  }

  lemma TallySnoc(sp: Spec, checks: seq<Check>, c: Check, held: map<nat, bool>)
    requires Tally(sp, checks, held)
    ensures var t := Target(sp, c);
            if t.None? then Tally(sp, checks + [c], held)
            else Tally(sp, checks + [c], held[t.value := (if t.value in held then held[t.value] else true) && Supports(c)])
  {
    hide Target, Supports, Addressed, Upheld;
    forall n: nat
      ensures Addressed(sp, checks + [c], n) <==> Addressed(sp, checks, n) || Target(sp, c) == Some(n)
      ensures Upheld(sp, checks + [c], n) <==> Upheld(sp, checks, n) && (Target(sp, c) == Some(n) ==> Supports(c))
      ensures !Addressed(sp, checks, n) ==> Upheld(sp, checks, n)
    {
      OneMoreCheck(sp, checks, c, n);
    }
  }

  method ParseVerdict(sp: Spec, reply: Reply) returns (v: Verdict)
    ensures v == VerdictOf(sp, reply)
  {
    hide Addressed, Upheld, Supports, Target;
    match reply
    case Unparseable =>
      return Verdict(false, [StrictJsonOnly], false);
    case Parsed(pass, checks, delta) =>
      var held: map<nat, bool> := map[];
      NothingTallied(sp);
      assert checks[..0] == [];
      for i := 0 to |checks|
        invariant Tally(sp, checks[..i], held)
      {
        var c := checks[i];
        TallySnoc(sp, checks[..i], c, held);
        assert checks[..i + 1] == checks[..i] + [c];
        SupportsMeans(c);
        var holds := c.holds;
        if Blank(c.evidence) {
          holds := false;
        }
        var idx := Target(sp, c);
        if idx.Some? {
          held := held[idx.value := (if idx.value in held then held[idx.value] else true) && holds];
        }
      }
      assert checks[..|checks|] == checks;
      var passed, problems := pass, [];
      for n := 0 to sp.count
        invariant problems == Gaps(sp, checks, n)
        invariant passed <==> pass && forall k: nat :: k < n ==> Addressed(sp, checks, k) && Upheld(sp, checks, k)
      {
        if n !in held {
          passed := false;
          problems := problems + [Unaddressed(n)];
        } else if !held[n] {
          passed := false;
          problems := problems + [Failed(n)];
        }
      }
      v := Verdict(passed, Orders(delta) + problems, true);
  }

  lemma NothingTallied(sp: Spec)
    ensures Tally(sp, [], map[])
  {
  }

  lemma SupportsMeans(c: Check)
    ensures Supports(c) <==> c.holds && !Blank(c.evidence)
  {
  }
}
