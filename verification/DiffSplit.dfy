/** The differ that compares two renderings of one chat template
    (engine/common/chat-auto-parser-helpers.cpp, `calculate_diff_split`).

    Two segment lists are walked from both ends at once. The walk can finish one side in the
    very iteration that meets its middle; the code after the loop then looks at that side's
    last segment once more. `SplitReconstructs` says exactly for which inputs the four parts
    still spell the two inputs. */
module DiffSplitter {
  import opened Segmenter

  datatype DiffSplit = DiffSplit(prefix: string, suffix: string, left: string, right: string)

  /** The four iterators as indices of the two lists, the two `fully_consumed` flags and the text
      collected so far. */
  datatype Walk = Walk(ls: nat, le: nat, rs: nat, re: nat,
                       leftDone: bool, rightDone: bool, prefix: string, suffix: string)

  predicate Bounded(L: seq<Segment>, R: seq<Segment>, w: Walk) {
    w.ls <= w.le < |L| && w.rs <= w.re < |R|
  }

  predicate Going(w: Walk) {
    w.ls != w.le && w.rs != w.re
  }

  function Start(L: seq<Segment>, R: seq<Segment>): (w: Walk)
    requires L != [] && R != []
    ensures Bounded(L, R, w)
  {
    Walk(0, |L| - 1, 0, |R| - 1, false, false, "", "")
  }

  function TakePrefix(L: seq<Segment>, R: seq<Segment>, w: Walk): (x: Walk)
    requires Bounded(L, R, w) && Going(w)
    ensures Bounded(L, R, x)
  {
    if L[w.ls] == R[w.rs] then w.(prefix := w.prefix + L[w.ls].value, ls := w.ls + 1, rs := w.rs + 1) else w
  }

  function TakeSuffix(L: seq<Segment>, R: seq<Segment>, w: Walk): (x: Walk)
    requires Bounded(L, R, w)
    ensures Bounded(L, R, x)
  {
    if L[w.le] != R[w.re] then w
    else
      var leftLast, rightLast := w.ls == w.le, w.rs == w.re;
      w.(suffix := L[w.le].value + w.suffix,
      le := if leftLast then w.le else w.le - 1, leftDone := w.leftDone || leftLast,
      re := if rightLast then w.re else w.re - 1, rightDone := w.rightDone || rightLast)
  }

  predicate Advances(L: seq<Segment>, R: seq<Segment>, w: Walk)
    requires Bounded(L, R, w)
  {
    Going(w) && (L[w.ls] == R[w.rs] || L[w.le] == R[w.re])
  }

  /** One iteration of the segment loop that does not break. */
  function Advance(L: seq<Segment>, R: seq<Segment>, w: Walk): (x: Walk)
    requires Bounded(L, R, w) && Advances(L, R, w)
    ensures Bounded(L, R, x)
    ensures (x.le - x.ls) + (x.re - x.rs) < (w.le - w.ls) + (w.re - w.rs)
  {
    TakeSuffix(L, R, TakePrefix(L, R, w))
  }

  /** The segment loop. */
  function Run(L: seq<Segment>, R: seq<Segment>, w: Walk): (x: Walk)
    requires Bounded(L, R, w)
    ensures Bounded(L, R, x) && !Advances(L, R, x)
    decreases (w.le - w.ls) + (w.re - w.rs)
  {
    if Advances(L, R, w) then Run(L, R, Advance(L, R, w)) else w
  }

  /** The three branches after the loop. */
  function Settle(L: seq<Segment>, R: seq<Segment>, w: Walk): (x: Walk)
    requires Bounded(L, R, w)
    ensures Bounded(L, R, x)
  {
    if w.ls == w.le && w.rs != w.re then
      if L[w.ls] == R[w.re] then w.(suffix := R[w.re].value + w.suffix, re := w.re - 1, leftDone := true)
      else if L[w.ls] == R[w.rs] then w.(prefix := w.prefix + R[w.rs].value, rs := w.rs + 1, leftDone := true)
      else w
    else if w.rs == w.re && w.ls != w.le then
      if L[w.le] == R[w.rs] then w.(suffix := L[w.le].value + w.suffix, le := w.le - 1, rightDone := true)
      else if L[w.ls] == R[w.rs] then w.(prefix := w.prefix + L[w.ls].value, ls := w.ls + 1, rightDone := true)
      else w
    else if w.ls == w.le && w.rs == w.re && L[w.ls] == R[w.rs] && L[w.ls].kind == Marker then
      w.(prefix := w.prefix + R[w.rs].value, leftDone := true, rightDone := true)
    else w
  }

  function LeftRest(L: seq<Segment>, w: Walk): string
    requires w.ls <= w.le < |L|
  {
    Concat(L[w.ls..if w.leftDone then w.le else w.le + 1])
  }

  function RightRest(R: seq<Segment>, w: Walk): string
    requires w.rs <= w.re < |R|
  {
    Concat(R[w.rs..if w.rightDone then w.re else w.re + 1])
  }

  // ---- Text trimming ----

  /** How far the two strings agree from index `n` on, counted from the front. */
  function CommonPrefixFrom(a: string, b: string, n: nat): (m: nat)
    requires n <= |a| && n <= |b|
    ensures n <= m <= |a| && m <= |b|
    ensures forall j :: n <= j < m ==> a[j] == b[j]
    ensures m < |a| && m < |b| ==> a[m] != b[m]
    decreases |a| - n
  {
    if n < |a| && n < |b| && a[n] == b[n] then CommonPrefixFrom(a, b, n + 1) else n
  }

  function CommonPrefixLen(a: string, b: string): (n: nat)
    ensures n <= |a| && n <= |b| && a[..n] == b[..n]
    ensures n < |a| && n < |b| ==> a[n] != b[n]
  {
    CommonPrefixFrom(a, b, 0)
  }

  /** The character `j` places before the last. */
  function FromBack(s: string, j: int): char
    requires 0 <= j < |s|
  {
    s[|s| - 1 - j]
  }

  /** The same from the back. */
  function CommonSuffixFrom(a: string, b: string, n: nat): (m: nat)
    requires n <= |a| && n <= |b|
    ensures n <= m <= |a| && m <= |b|
    ensures forall j :: n <= j < m ==> FromBack(a, j) == FromBack(b, j)
    ensures m < |a| && m < |b| ==> FromBack(a, m) != FromBack(b, m)
    decreases |a| - n
  {
    if n < |a| && n < |b| && FromBack(a, n) == FromBack(b, n) then CommonSuffixFrom(a, b, n + 1) else n
  }

  function CommonSuffixLen(a: string, b: string): (n: nat)
    ensures n <= |a| && n <= |b| && a[|a| - n..] == b[|b| - n..]
    ensures n < |a| && n < |b| ==> FromBack(a, n) != FromBack(b, n)
  {
    var n := CommonSuffixFrom(a, b, 0);
    SuffixesEqual(a, b, n);
    n
  }

  lemma {:induction false} SuffixesEqual(a: string, b: string, n: nat)
    requires n <= |a| && n <= |b| && forall j :: 0 <= j < n ==> FromBack(a, j) == FromBack(b, j)
    ensures a[|a| - n..] == b[|b| - n..]
  {
    if n > 0 {
      SuffixesEqual(a, b, n - 1);
      assert FromBack(a, n - 1) == FromBack(b, n - 1);
      assert a[|a| - n..] == [FromBack(a, n - 1)] + a[|a| - (n - 1)..];
      assert b[|b| - n..] == [FromBack(b, n - 1)] + b[|b| - (n - 1)..];
    }
  }

  /** The text shared at both ends of the remainders moves out, the suffix first. */
  function Trim(prefix: string, suffix: string, l: string, r: string, textPrefix: bool, textSuffix: bool): DiffSplit {
    var s := if textSuffix then CommonSuffixLen(l, r) else 0;
    var p := if textPrefix then CommonPrefixLen(l[..|l| - s], r[..|r| - s]) else 0;
    DiffSplit(prefix + l[..p], l[|l| - s..] + suffix, l[p..|l| - s], r[p..|r| - s])
  }

  /** The two corrections at the end: no difference at all, and left a prefix of right. */
  function Correct(left: string, right: string, d: DiffSplit): DiffSplit {
    var d' := if d.left == "" && d.right == "" then d.(prefix := left, suffix := "") else d;
    if d'.left == "" && d'.right != "" && left <= right
    then d'.(prefix := left, suffix := "", right := right[|left|..]) else d'
  }

  function Finish(left: string, right: string, L: seq<Segment>, R: seq<Segment>, w: Walk): DiffSplit
    requires Bounded(L, R, w)
  {
    Correct(left, right, Trim(w.prefix, w.suffix, LeftRest(L, w), RightRest(R, w),
                              R[w.rs].kind == Text && L[w.ls].kind == Text,
                              L[w.le].kind == Text && R[w.re].kind == Text))
  }

  function Split(left: string, right: string): DiffSplit {
    var L, R := Segments(left), Segments(right);
    if L == [] then DiffSplit("", "", "", right)
    else if R == [] then DiffSplit("", "", left, "")
    else Finish(left, right, L, R, Settle(L, R, Run(L, R, Start(L, R))))
  }

  // ---- The property and the inputs on which it holds ----

  predicate Reconstructs(left: string, right: string, d: DiffSplit) {
    d.prefix + d.left + d.suffix == left && d.prefix + d.right + d.suffix == right
  }

  /** `S` is two halves of equal length, one opening `T` and one closing it, around a middle. */
  predicate Wraps(S: seq<Segment>, T: seq<Segment>) {
    var k := |S| / 2;
    |S| == 2 * k && k > 0 && |T| > |S| && S[..k] == T[..k] && S[k..] == T[|T| - k..]
  }

  /** The first segment of the second half is met again at an end of the middle. */
  predicate MetAgain(S: seq<Segment>, T: seq<Segment>)
    requires Wraps(S, T)
  {
    var k := |S| / 2;
    if |T| == |S| + 1 then T[k] == S[k] && S[k].kind == Marker
    else S[k] == T[|T| - 1 - k] || S[k] == T[k]
  }

  predicate CountsTwice(S: seq<Segment>, T: seq<Segment>) {
    Wraps(S, T) && MetAgain(S, T)
  }

  /** The inputs on which a segment is counted twice and no later correction repairs it. */
  predicate Garbled(left: string, right: string) {
    var L, R := Segments(left), Segments(right);
    || (CountsTwice(L, R) && (|R| == |L| + 1 || !(left <= right)))
    || CountsTwice(R, L)
  }

  // ---- The invariant of the walk ----

  /** Segments taken from the back of the left list. */
  function Taken(L: seq<Segment>, w: Walk): int {
    |L| - 1 - w.le
  }

  /** No flag set: as many segments are gone on both sides, they are equal, and an end that lags
      behind the other is stuck on a mismatch. */
  ghost predicate Open(L: seq<Segment>, R: seq<Segment>, w: Walk)
    requires Bounded(L, R, w)
  {
    && !w.leftDone && !w.rightDone
    && w.ls == w.rs && Taken(L, w) == Taken(R, w.(le := w.re))
    && L[..w.ls] == R[..w.rs] && L[w.le + 1..] == R[w.re + 1..]
    && w.prefix == Concat(L[..w.ls]) && w.suffix == Concat(L[w.le + 1..])
    && (w.ls > Taken(L, w) ==> L[w.le] != R[w.re])
    && (w.ls < Taken(L, w) ==> L[w.ls] != R[w.rs])
  }

  /** A flag set: the flagged side was even, and its two halves are the collected texts. */
  ghost predicate Closed(L: seq<Segment>, R: seq<Segment>, w: Walk)
    requires Bounded(L, R, w)
  {
    var k := w.ls;
    && k > 0 && w.rs == k && k <= |L| - k && k <= |R| - k
    && L[..k] == R[..k] && L[|L| - k..] == R[|R| - k..]
    && w.prefix == Concat(L[..k]) && w.suffix == Concat(L[|L| - k..])
    && (w.leftDone || w.rightDone)
    && (w.leftDone <==> |L| == 2 * k) && (w.rightDone <==> |R| == 2 * k)
    && w.le == (if w.leftDone then k else |L| - 1 - k)
    && w.re == (if w.rightDone then k else |R| - 1 - k)
  }

  ghost predicate Inv(L: seq<Segment>, R: seq<Segment>, w: Walk) {
    Bounded(L, R, w) && (Open(L, R, w) || Closed(L, R, w))
  }

  lemma ConcatSnoc(a: seq<Segment>, n: nat)
    requires n < |a|
    ensures Concat(a[..n + 1]) == Concat(a[..n]) + a[n].value
  {
    ConcatAppend(a[..n], [a[n]]);
    assert a[..n + 1] == a[..n] + [a[n]];
    assert Concat([a[n]]) == a[n].value + Concat([]);
  }

  lemma ConcatCons(a: seq<Segment>, n: nat)
    requires n < |a|
    ensures Concat(a[n..]) == a[n].value + Concat(a[n + 1..])
  {
    assert a[n..][1..] == a[n + 1..];
  }

  lemma PrefixKeeps(L: seq<Segment>, R: seq<Segment>, w: Walk)
    requires Bounded(L, R, w) && Open(L, R, w) && Going(w)
    ensures var x := TakePrefix(L, R, w);
            && x.ls == x.rs && L[..x.ls] == R[..x.rs] && x.prefix == Concat(L[..x.ls])
            && x == w.(ls := x.ls, rs := x.rs, prefix := x.prefix)
  {
    if L[w.ls] == R[w.rs] {
      ConcatSnoc(L, w.ls);
      assert L[..w.ls + 1] == L[..w.ls] + [L[w.ls]] && R[..w.rs + 1] == R[..w.rs] + [R[w.rs]];
    }
  }

  lemma SuffixKeeps(L: seq<Segment>, R: seq<Segment>, w: Walk)
    requires Bounded(L, R, w) && L[w.le + 1..] == R[w.re + 1..] && w.suffix == Concat(L[w.le + 1..])
    requires L[w.le] == R[w.re]
    ensures L[w.le..] == R[w.re..] && TakeSuffix(L, R, w).suffix == Concat(L[w.le..])
  {
    ConcatCons(L, w.le);
    assert L[w.le..] == [L[w.le]] + L[w.le + 1..] && R[w.re..] == [R[w.re]] + R[w.re + 1..];
  }

  lemma AdvanceKeeps(L: seq<Segment>, R: seq<Segment>, w: Walk)
    requires Bounded(L, R, w) && Open(L, R, w) && Advances(L, R, w)
    ensures Inv(L, R, Advance(L, R, w))
  {
    hide Concat;
    PrefixKeeps(L, R, w);
    var x := TakePrefix(L, R, w);
    if L[w.le] == R[w.re] {
      SuffixKeeps(L, R, x);
      var y := TakeSuffix(L, R, x);
      if y.leftDone || y.rightDone {
        assert L[w.ls] == R[w.rs];
        assert w.ls == Taken(L, w);
        assert Closed(L, R, y);
      } else {
        assert Open(L, R, y);
      }
    } else {
      assert Open(L, R, x);
    }
  }

  lemma {:induction false} RunKeeps(L: seq<Segment>, R: seq<Segment>, w: Walk)
    requires Inv(L, R, w)
    ensures Inv(L, R, Run(L, R, w))
    decreases (w.le - w.ls) + (w.re - w.rs)
  {
    if Advances(L, R, w) {
      if Open(L, R, w) {
        AdvanceKeeps(L, R, w);
        RunKeeps(L, R, Advance(L, R, w));
      }
    }
  }

  lemma WalkInvariant(L: seq<Segment>, R: seq<Segment>)
    requires L != [] && R != []
    ensures Inv(L, R, Run(L, R, Start(L, R)))
  {
    var w := Start(L, R);
    assert L[|L|..] == [] && R[|R|..] == [] && L[..0] == [] && R[..0] == [];
    assert Open(L, R, w);
    RunKeeps(L, R, w);
  }

  /** The walk ends with only the left flag set exactly when left wraps right. */
  lemma FlagMeaning(L: seq<Segment>, R: seq<Segment>)
    requires L != [] && R != []
    ensures var w := Run(L, R, Start(L, R));
            && (if w.leftDone || w.rightDone then Closed(L, R, w) else Open(L, R, w))
            && (w.leftDone && !w.rightDone <==> Wraps(L, R))
            && (w.rightDone && !w.leftDone <==> Wraps(R, L))
  {
    WalkInvariant(L, R);
    var w := Run(L, R, Start(L, R));
    if Open(L, R, w) {
      OpenNeverWraps(L, R, w);
    } else {
      ClosedWraps(L, R, w);
    }
  }

  lemma ClosedWraps(L: seq<Segment>, R: seq<Segment>, w: Walk)
    requires Bounded(L, R, w) && Closed(L, R, w)
    ensures w.leftDone && !w.rightDone <==> Wraps(L, R)
    ensures w.rightDone && !w.leftDone <==> Wraps(R, L)
  {
    if w.leftDone {
      assert |L| / 2 == w.ls && |L| - w.ls == w.ls;
    }
    if w.rightDone {
      assert |R| / 2 == w.ls && |R| - w.ls == w.ls;
    }
  }

  lemma WrapPoints(S: seq<Segment>, T: seq<Segment>)
    requires Wraps(S, T)
    ensures forall i :: 0 <= i < |S| / 2 ==> S[i] == T[i]
    ensures forall i :: |S| / 2 <= i < |S| ==> S[i] == T[i + |T| - |S|]
  {
    var k := |S| / 2;
    assert forall i :: 0 <= i < k ==> S[i] == S[..k][i] == T[..k][i];
    assert forall i :: k <= i < |S| ==> S[i] == S[k..][i - k] == T[|T| - k..][i - k];
  }

  lemma OpenNeverWraps(L: seq<Segment>, R: seq<Segment>, w: Walk)
    requires Bounded(L, R, w) && Open(L, R, w) && !Advances(L, R, w)
    ensures !Wraps(L, R) && !Wraps(R, L)
  {
    hide Concat;
    if Wraps(L, R) {
      WrapPoints(L, R);
      assert false;
    }
    if Wraps(R, L) {
      WrapPoints(R, L);
      assert false;
    }
  }

  // ---- From the walk to the four parts ----

  /** What is collected and what is left over spell the two inputs. */
  ghost predicate Spells(left: string, right: string, L: seq<Segment>, R: seq<Segment>, w: Walk)
    requires Bounded(L, R, w)
  {
    && w.prefix + LeftRest(L, w) + w.suffix == left
    && w.prefix + RightRest(R, w) + w.suffix == right
  }

  lemma ConcatParts(S: seq<Segment>, i: nat, j: nat)
    requires i <= j <= |S|
    ensures Concat(S) == Concat(S[..i]) + Concat(S[i..j]) + Concat(S[j..])
  {
    hide Concat;
    calc {
      Concat(S);
      { assert S == S[..j] + S[j..]; ConcatAppend(S[..j], S[j..]); }
      Concat(S[..j]) + Concat(S[j..]);
      { assert S[..j] == S[..i] + S[i..j]; ConcatAppend(S[..i], S[i..j]); }
      Concat(S[..i]) + Concat(S[i..j]) + Concat(S[j..]);
    }
  }

  lemma OpenSpells(L: seq<Segment>, R: seq<Segment>, w: Walk)
    requires Bounded(L, R, w) && Open(L, R, w)
    ensures Spells(Concat(L), Concat(R), L, R, w)
  {
    hide Concat;
    ConcatParts(L, w.ls, w.le + 1);
    ConcatParts(R, w.rs, w.re + 1);
  }

  lemma ClosedSpells(L: seq<Segment>, R: seq<Segment>, w: Walk)
    requires Bounded(L, R, w) && Closed(L, R, w)
    ensures Spells(Concat(L), Concat(R), L, R, w)
  {
    hide Concat;
    ConcatParts(L, w.ls, |L| - w.ls);
    ConcatParts(R, w.ls, |R| - w.ls);
    assert (if w.leftDone then w.le else w.le + 1) == |L| - w.ls;
    assert (if w.rightDone then w.re else w.re + 1) == |R| - w.ls;
  }

  lemma Regroup(P: string, x: string, m: string, y: string, S: string)
    ensures (P + x) + m + (y + S) == P + (x + m + y) + S
  {
    assert (P + x) + m == P + (x + m);
    assert (P + (x + m)) + (y + S) == P + ((x + m) + y) + S;
  }

  /** Moving an equal first or last segment out of the two remainders keeps the spelling. */
  lemma MoveFront(P: string, v: string, m: string, S: string)
    ensures (P + v) + m + S == P + (v + m) + S
  {
    assert (P + v) + m == P + (v + m);
  }

  lemma MoveBack(P: string, m: string, v: string, S: string)
    ensures P + m + (v + S) == P + (m + v) + S
  {
    assert (P + m) + (v + S) == (P + m + v) + S;
    assert P + m + v == P + (m + v);
  }

  /** A branch after the loop moves one segment out of both remainders. */
  lemma SettleSpells(left: string, right: string, L: seq<Segment>, R: seq<Segment>, w: Walk)
    requires Bounded(L, R, w) && Spells(left, right, L, R, w) && !w.leftDone && !w.rightDone
    ensures Spells(left, right, L, R, Settle(L, R, w))
  {
    var x := Settle(L, R, w);
    if x == w {
    } else if (w.ls != w.le || w.rs != w.re) && L[w.le] == R[w.re] {
      assert LeftRest(L, x) == Concat(L[w.ls..w.le]) && RightRest(R, x) == Concat(R[w.rs..w.re]);
      BackSpells(left, right, L, R, w, x);
    } else {
      assert w.ls == w.le ==> L[w.ls..w.le] == L[w.ls + 1..w.le + 1];
      assert w.rs == w.re ==> R[w.rs..w.re] == R[w.rs + 1..w.re + 1];
      FrontSpells(left, right, L, R, w, x);
    }
  }

  lemma BackSpells(left: string, right: string, L: seq<Segment>, R: seq<Segment>, w: Walk, x: Walk)
    requires Bounded(L, R, w) && Spells(left, right, L, R, w) && !w.leftDone && !w.rightDone
    requires Bounded(L, R, x) && L[w.le] == R[w.re]
    requires x.prefix == w.prefix && x.suffix == L[w.le].value + w.suffix
    requires LeftRest(L, x) == Concat(L[w.ls..w.le]) && RightRest(R, x) == Concat(R[w.rs..w.re])
    ensures Spells(left, right, L, R, x)
  {
    SplitLast(L, w.ls, w.le);
    SplitLast(R, w.rs, w.re);
    MoveBack(w.prefix, LeftRest(L, x), L[w.le].value, w.suffix);
    MoveBack(w.prefix, RightRest(R, x), L[w.le].value, w.suffix);
  }

  lemma FrontSpells(left: string, right: string, L: seq<Segment>, R: seq<Segment>, w: Walk, x: Walk)
    requires Bounded(L, R, w) && Spells(left, right, L, R, w) && !w.leftDone && !w.rightDone
    requires Bounded(L, R, x) && L[w.ls] == R[w.rs]
    requires x.prefix == w.prefix + L[w.ls].value && x.suffix == w.suffix
    requires LeftRest(L, x) == Concat(L[w.ls + 1..w.le + 1]) && RightRest(R, x) == Concat(R[w.rs + 1..w.re + 1])
    ensures Spells(left, right, L, R, x)
  {
    SplitFirst(L, w.ls, w.le);
    SplitFirst(R, w.rs, w.re);
    MoveFront(w.prefix, L[w.ls].value, LeftRest(L, x), w.suffix);
    MoveFront(w.prefix, L[w.ls].value, RightRest(R, x), w.suffix);
  }

  lemma SplitFirst(S: seq<Segment>, i: nat, j: nat)
    requires i <= j < |S|
    ensures Concat(S[i..j + 1]) == S[i].value + Concat(S[i + 1..j + 1])
    ensures i == j ==> S[i + 1..j + 1] == []
  {
    assert S[i..j + 1][1..] == S[i + 1..j + 1];
  }

  lemma SplitLast(S: seq<Segment>, i: nat, j: nat)
    requires i <= j < |S|
    ensures Concat(S[i..j + 1]) == Concat(S[i..j]) + S[j].value
    ensures i == j ==> S[i..j] == []
  {
    ConcatSnoc(S[i..], j - i);
    assert S[i..][..j - i] == S[i..j] && S[i..][..j - i + 1] == S[i..j + 1];
  }

  lemma TrimReconstructs(left: string, right: string, P: string, S: string, l: string, r: string, tp: bool, ts: bool)
    requires P + l + S == left && P + r + S == right
    ensures Reconstructs(left, right, Trim(P, S, l, r, tp, ts))
  {
    var s := if ts then CommonSuffixLen(l, r) else 0;
    var p := if tp then CommonPrefixLen(l[..|l| - s], r[..|r| - s]) else 0;
    ThreeParts(l, p, s);
    ThreeParts(r, p, s);
    assert l[..p] == l[..|l| - s][..p] && r[..p] == r[..|r| - s][..p];
    Regroup(P, l[..p], l[p..|l| - s], l[|l| - s..], S);
    Regroup(P, r[..p], r[p..|r| - s], r[|r| - s..], S);
  }

  lemma ThreeParts(l: string, p: nat, s: nat)
    requires p + s <= |l|
    ensures l[..p] + l[p..|l| - s] + l[|l| - s..] == l
  {
    assert l[..p] + l[p..|l| - s] == l[..|l| - s];
  }

  lemma CorrectReconstructs(left: string, right: string, d: DiffSplit)
    requires Reconstructs(left, right, d)
    ensures Reconstructs(left, right, Correct(left, right, d))
  {
    if d.left == "" && d.right == "" {
      assert left == right;
    } else if d.left == "" && left <= right {
      assert right == left + right[|left|..];
    }
  }

  lemma SpellsFinish(left: string, right: string, L: seq<Segment>, R: seq<Segment>, w: Walk)
    requires Bounded(L, R, w) && Spells(left, right, L, R, w)
    ensures Reconstructs(left, right, Finish(left, right, L, R, w))
  {
    var tp := R[w.rs].kind == Text && L[w.ls].kind == Text;
    var ts := L[w.le].kind == Text && R[w.re].kind == Text;
    TrimReconstructs(left, right, w.prefix, w.suffix, LeftRest(L, w), RightRest(R, w), tp, ts);
    CorrectReconstructs(left, right, Trim(w.prefix, w.suffix, LeftRest(L, w), RightRest(R, w), tp, ts));
  }

  // ---- Exactly when the parts spell the inputs ----

  ghost predicate NonEmptyValues(S: seq<Segment>) {
    forall i :: 0 <= i < |S| ==> S[i].value != []
  }

  lemma SegmentsNonEmpty(text: string)
    ensures NonEmptyValues(Segments(text)) && Concat(Segments(text)) == text
  {
    SegmentsAreSegmentation(text);
    forall i | 0 <= i < |Segments(text)|
      ensures Segments(text)[i].value != []
    {
      assert GoodAt(Segments(text), i);
    }
  }

  lemma RestNonEmpty(S: seq<Segment>, i: nat, j: nat)
    requires i < j <= |S| && NonEmptyValues(S)
    ensures Concat(S[i..j]) != []
  {
    SplitFirst(S, i, j - 1);
  }

  /** With both remainders gone, the answer is `left` alone. */
  lemma FinishEmpty(left: string, right: string, L: seq<Segment>, R: seq<Segment>, w: Walk)
    requires Bounded(L, R, w) && LeftRest(L, w) == "" && RightRest(R, w) == ""
    ensures Reconstructs(left, right, Finish(left, right, L, R, w)) <==> left == right
  {
    assert left + "" + "" == left;
  }

  /** With one remainder gone nothing is trimmed. */
  lemma TrimOneSided(P: string, S: string, l: string, r: string, tp: bool, ts: bool)
    requires l == "" || r == ""
    ensures Trim(P, S, l, r, tp, ts) == DiffSplit(P, S, l, r)
  {
    assert l[..0] == "" && l[|l|..] == "" && l[0..|l|] == l && r[0..|r|] == r;
    assert P + "" == P && "" + S == S;
  }

  lemma CorrectRightOnly(left: string, right: string, P: string, S: string, r: string)
    requires r != "" && |P| + |S| != |left|
    ensures Reconstructs(left, right, Correct(left, right, DiffSplit(P, S, "", r))) <==> left <= right
  {
    if left <= right {
      assert left + "" + "" == left;
      assert left + right[|left|..] + "" == right;
    } else {
      assert |P + "" + S| == |P| + |S|;
    }
  }

  lemma FinishRightOnly(left: string, right: string, L: seq<Segment>, R: seq<Segment>, w: Walk)
    requires Bounded(L, R, w) && LeftRest(L, w) == "" && RightRest(R, w) != ""
    requires |w.prefix| + |w.suffix| != |left|
    ensures Reconstructs(left, right, Finish(left, right, L, R, w)) <==> left <= right
  {
    TrimOneSided(w.prefix, w.suffix, "", RightRest(R, w),
                 R[w.rs].kind == Text && L[w.ls].kind == Text, L[w.le].kind == Text && R[w.re].kind == Text);
    CorrectRightOnly(left, right, w.prefix, w.suffix, RightRest(R, w));
  }

  lemma FinishLeftOnly(left: string, right: string, L: seq<Segment>, R: seq<Segment>, w: Walk)
    requires Bounded(L, R, w) && LeftRest(L, w) != "" && RightRest(R, w) == ""
    requires |w.prefix| + |w.suffix| != |right|
    ensures !Reconstructs(left, right, Finish(left, right, L, R, w))
  {
    TrimOneSided(w.prefix, w.suffix, LeftRest(L, w), "",
                 R[w.rs].kind == Text && L[w.ls].kind == Text, L[w.le].kind == Text && R[w.re].kind == Text);
    assert |w.prefix + "" + w.suffix| == |w.prefix| + |w.suffix|;
  }

  lemma OpenCase(left: string, right: string, w: Walk)
    requires var L, R := Segments(left), Segments(right); Bounded(L, R, w) && Open(L, R, w)
    ensures var L, R := Segments(left), Segments(right);
            Reconstructs(left, right, Finish(left, right, L, R, Settle(L, R, w)))
  {
    var L, R := Segments(left), Segments(right);
    SegmentsAreSegmentation(left);
    SegmentsAreSegmentation(right);
    OpenSpells(L, R, w);
    SettleSpells(left, right, L, R, w);
    SpellsFinish(left, right, L, R, Settle(L, R, w));
  }

  lemma BothDoneCase(left: string, right: string, w: Walk)
    requires var L, R := Segments(left), Segments(right);
             Bounded(L, R, w) && Closed(L, R, w) && w.leftDone && w.rightDone
    ensures var L, R := Segments(left), Segments(right);
            Reconstructs(left, right, Finish(left, right, L, R, Settle(L, R, w)))
  {
    var L, R := Segments(left), Segments(right);
    SegmentsAreSegmentation(left);
    SegmentsAreSegmentation(right);
    ClosedSpells(L, R, w);
    assert L[w.ls..w.le] == [] && R[w.rs..w.re] == [];
    assert left == right;
    FinishEmpty(left, right, L, R, Settle(L, R, w));
  }

  /** The same walk seen from the other side. */
  function Swap(w: Walk): Walk {
    Walk(w.rs, w.re, w.ls, w.le, w.rightDone, w.leftDone, w.prefix, w.suffix)
  }

  lemma SettleSwap(L: seq<Segment>, R: seq<Segment>, w: Walk)
    requires Bounded(L, R, w)
    ensures Settle(R, L, Swap(w)) == Swap(Settle(L, R, w))
  {
  }

  /** The indices at which the walk stops when only the left side is finished. */
  lemma StopIndices(L: seq<Segment>, R: seq<Segment>, w: Walk)
    requires Bounded(L, R, w) && Closed(L, R, w) && w.leftDone && !w.rightDone && Wraps(L, R)
    ensures w.ls == w.le && (w.rs == w.re <==> |R| == |L| + 1)
    ensures MetAgain(L, R) <==>
            if w.rs == w.re then R[w.rs] == L[w.ls] && L[w.ls].kind == Marker
            else L[w.ls] == R[w.re] || L[w.ls] == R[w.rs]
  {
  }

  lemma StopLength(L: seq<Segment>, R: seq<Segment>, w: Walk)
    requires Bounded(L, R, w) && Closed(L, R, w) && w.leftDone && !w.rightDone
    ensures |Concat(L)| == |w.prefix| + |w.suffix|
    ensures |Concat(R)| == |w.prefix| + |w.suffix| + |RightRest(R, w)|
  {
    ClosedSpells(L, R, w);
    assert L[w.ls..w.le] == [];
  }

  /** The other side's middle is that one marker: it is dropped from both remainders. */
  lemma OneMarkerMore(L: seq<Segment>, R: seq<Segment>, w: Walk)
    requires Bounded(L, R, w) && w.ls == w.le && w.rs == w.re && L[w.ls] == R[w.rs] && L[w.ls].kind == Marker
    requires w.leftDone && !w.rightDone && NonEmptyValues(R)
    ensures var x := Settle(L, R, w); LeftRest(L, x) == "" && RightRest(R, x) == ""
    ensures RightRest(R, w) != ""
  {
    var x := Settle(L, R, w);
    RestNonEmpty(R, w.rs, w.re + 1);
    assert L[x.ls..x.le] == [] && R[x.rs..x.re] == [];
  }

  /** The middle is longer: the finished side's segment is collected a second time. */
  lemma CollectedTwice(L: seq<Segment>, R: seq<Segment>, w: Walk)
    requires Bounded(L, R, w) && w.ls == w.le && w.rs != w.re && w.leftDone && !w.rightDone
    requires L[w.ls] == R[w.re] || L[w.ls] == R[w.rs]
    requires NonEmptyValues(L) && NonEmptyValues(R)
    ensures var x := Settle(L, R, w);
            && |x.prefix| + |x.suffix| > |w.prefix| + |w.suffix|
            && LeftRest(L, x) == "" && RightRest(R, x) != ""
  {
    var x := Settle(L, R, w);
    RestNonEmpty(R, x.rs, x.re + 1);
    assert L[x.ls..x.le] == [];
  }

  lemma LeftDoneCase(left: string, right: string, L: seq<Segment>, R: seq<Segment>, w: Walk)
    requires left == Concat(L) && right == Concat(R) && NonEmptyValues(L) && NonEmptyValues(R)
    requires Bounded(L, R, w) && Closed(L, R, w) && w.leftDone && !w.rightDone && Wraps(L, R)
    ensures Reconstructs(left, right, Finish(left, right, L, R, Settle(L, R, w))) <==>
            !(CountsTwice(L, R) && (|R| == |L| + 1 || !(left <= right)))
  {
    StopIndices(L, R, w);
    StopLength(L, R, w);
    if !MetAgain(L, R) {
      assert Settle(L, R, w) == w;
      ClosedSpells(L, R, w);
      SpellsFinish(left, right, L, R, w);
    } else if |R| == |L| + 1 {
      OneMarkerMore(L, R, w);
      FinishEmpty(left, right, L, R, Settle(L, R, w));
    } else {
      CollectedTwice(L, R, w);
      FinishRightOnly(left, right, L, R, Settle(L, R, w));
    }
  }

  lemma RightDoneCase(left: string, right: string, L: seq<Segment>, R: seq<Segment>, w: Walk)
    requires left == Concat(L) && right == Concat(R) && NonEmptyValues(L) && NonEmptyValues(R)
    requires Bounded(L, R, w) && Closed(L, R, w) && w.rightDone && !w.leftDone && Wraps(R, L)
    ensures Reconstructs(left, right, Finish(left, right, L, R, Settle(L, R, w))) <==> !CountsTwice(R, L)
  {
    var v := Swap(w);
    SettleSwap(L, R, w);
    StopIndices(R, L, v);
    StopLength(R, L, v);
    if !MetAgain(R, L) {
      assert Settle(L, R, w) == w;
      ClosedSpells(L, R, w);
      SpellsFinish(left, right, L, R, w);
    } else if |L| == |R| + 1 {
      OneMarkerMore(R, L, v);
      FinishEmpty(left, right, L, R, Settle(L, R, w));
    } else {
      CollectedTwice(R, L, v);
      FinishLeftOnly(left, right, L, R, Settle(L, R, w));
    }
  }

  lemma EmptyCase(left: string, right: string)
    requires Segments(left) == [] || Segments(right) == []
    ensures Reconstructs(left, right, Split(left, right)) && !Garbled(left, right)
  {
    hide Segments;
    SegmentsNonEmpty(left);
    SegmentsNonEmpty(right);
    assert left == "" ==> "" + left + "" == left;
    assert "" + right + "" == right && "" + left + "" == left;
  }

  /** Main result: prefix, part and suffix spell both inputs unless a segment is counted twice. */
  lemma SplitReconstructs(left: string, right: string)
    ensures Reconstructs(left, right, Split(left, right)) <==> !Garbled(left, right)
  {
    hide Concat, Segments, Finish, Settle, Run, Closed, Open, Reconstructs, Wraps, MetAgain, NonEmptyValues;
    var L, R := Segments(left), Segments(right);
    if L == [] || R == [] {
      EmptyCase(left, right);
    } else {
      SegmentsNonEmpty(left);
      SegmentsNonEmpty(right);
      FlagMeaning(L, R);
      var w := Run(L, R, Start(L, R));
      if !w.leftDone && !w.rightDone {
        OpenCase(left, right, w);
      } else if w.leftDone && w.rightDone {
        BothDoneCase(left, right, w);
      } else if w.leftDone {
        LeftDoneCase(left, right, L, R, w);
      } else {
        RightDoneCase(left, right, L, R, w);
      }
    }
  }

  /** A run that ends with equal flags is never garbled. */
  lemma EqualFlagsReconstruct(left: string, right: string)
    requires Segments(left) != [] && Segments(right) != []
    requires var w := Run(Segments(left), Segments(right), Start(Segments(left), Segments(right)));
             w.leftDone == w.rightDone
    ensures Reconstructs(left, right, Split(left, right))
  {
    FlagMeaning(Segments(left), Segments(right));
    SplitReconstructs(left, right);
  }

  predicate AllMarkers(segs: seq<Segment>) {
    forall i :: 0 <= i < |segs| ==> segs[i].kind == Marker && IsMarker(segs[i].value)
  }

  lemma MarkersSegment(segs: seq<Segment>)
    requires AllMarkers(segs)
    ensures Segments(Concat(segs)) == segs
  {
    assert forall i :: 0 <= i < |segs| ==> GoodAt(segs, i);
    SegmentationIsUnique(Concat(segs), segs);
  }

  lemma MarkerPrefix(b: string, x: string, rest: string)
    requires IsMarker(b) && IsMarker(x) && b <= x + rest
    ensures b == x
  {
    var n := if |b| <= |x| then |b| else |x|;
    assert forall i :: 0 <= i < n ==> b[i] == x[i];
    assert |b| == |x|;
  }

  lemma SharedHead(a: string, b: string, y: string)
    requires a + b <= a + y
    ensures b <= y
  {
    assert forall i :: 0 <= i < |b| ==> b[i] == (a + b)[|a| + i] == (a + y)[|a| + i] == y[i];
  }

  lemma FamilyCountsTwice(a: Segment, b: Segment, x: Segment)
    ensures CountsTwice([a, b], [a, x, b, b])
  {
    var S, T := [a, b], [a, x, b, b];
    assert S[..1] == T[..1] && S[1..] == T[3..];
    assert Wraps(S, T);
  }

  lemma FamilyNoPrefix(a: Segment, b: Segment, x: Segment)
    requires AllMarkers([a, b, x]) && b != x
    ensures !(Concat([a, b]) <= Concat([a, x, b, b]))
  {
    var L, R := [a, b], [a, x, b, b];
    assert [a, b, x][0] == a && [a, b, x][1] == b && [a, b, x][2] == x;
    assert L[1..] == [b] && R[1..] == [x, b, b] && R[1..][1..] == [b, b];
    assert Concat([b]) == b.value;
    assert Concat(R[1..]) == x.value + Concat([b, b]);
    if Concat(L) <= Concat(R) {
      SharedHead(a.value, b.value, x.value + Concat([b, b]));
      MarkerPrefix(b.value, x.value, Concat([b, b]));
    }
  }

  /** A whole family fails: `ab` against `axbb` for any markers with `b` other than `x`, such as
      `<a><b>` against `<a><x><b><b>`. */
  lemma GarbledFamily(a: Segment, b: Segment, x: Segment)
    requires AllMarkers([a, b, x]) && b != x
    ensures var left, right := Concat([a, b]), Concat([a, x, b, b]);
            Garbled(left, right) && !Reconstructs(left, right, Split(left, right))
  {
    assert [a, b, x][0] == a && [a, b, x][1] == b && [a, b, x][2] == x;
    MarkersSegment([a, b]);
    MarkersSegment([a, x, b, b]);
    FamilyCountsTwice(a, b, x);
    FamilyNoPrefix(a, b, x);
    SplitReconstructs(Concat([a, b]), Concat([a, x, b, b]));
  }

  // ---- The parts share no more text than they have to ----

  /** Where the middle parts meet plain text on both sides, nothing common is left in them. */
  lemma TrimIsTight(P: string, S: string, l: string, r: string, tp: bool, ts: bool)
    ensures var d := Trim(P, S, l, r, tp, ts);
            d.left != "" && d.right != "" ==>
            && (tp ==> d.left[0] != d.right[0])
            && (ts ==> d.left[|d.left| - 1] != d.right[|d.right| - 1])
  {
  }

  lemma FinishIsTight(left: string, right: string, L: seq<Segment>, R: seq<Segment>, w: Walk)
    requires Bounded(L, R, w)
    ensures var d := Finish(left, right, L, R, w);
            d.left != "" && d.right != "" ==>
            && (L[w.ls].kind == Text && R[w.rs].kind == Text ==> d.left[0] != d.right[0])
            && (L[w.le].kind == Text && R[w.re].kind == Text ==> d.left[|d.left| - 1] != d.right[|d.right| - 1])
  {
    hide Trim, LeftRest, RightRest;
    TrimIsTight(w.prefix, w.suffix, LeftRest(L, w), RightRest(R, w),
                R[w.rs].kind == Text && L[w.ls].kind == Text, L[w.le].kind == Text && R[w.re].kind == Text);
  }

  /** No difference is reported exactly for equal inputs, as the whole input in `prefix`. */
  lemma SplitOfEqual(left: string, right: string)
    requires !Garbled(left, right)
    ensures left == right <==> Split(left, right).left == "" && Split(left, right).right == ""
    ensures left == right && left != "" ==> Split(left, right) == DiffSplit(left, "", "", "")
  {
    SplitReconstructs(left, right);
    var d := Split(left, right);
    if d.left == "" && d.right == "" {
      assert left == right;
    }
    if left == right && left != "" {
      EqualHasNoMiddle(left);
    }
  }

  lemma EqualHasNoMiddle(text: string)
    requires text != ""
    ensures Split(text, text) == DiffSplit(text, "", "", "")
  {
    hide Concat, Finish, Settle, Run, Closed, Open, Wraps;
    var L := Segments(text);
    FlagMeaning(L, L);
    var w := Run(L, L, Start(L, L));
    EqualRests(L, w);
    FinishOfEqual(text, L, Settle(L, L, w));
  }

  /** The walk over two equal lists meets in the middle. */
  lemma EqualRests(L: seq<Segment>, w: Walk)
    requires Bounded(L, L, w) && (Open(L, L, w) || (Closed(L, L, w) && (w.leftDone <==> w.rightDone)))
    requires !Advances(L, L, w)
    ensures var x := Settle(L, L, w);
            && LeftRest(L, x) == RightRest(L, x)
            && (LeftRest(L, x) == "" || (x.ls == x.le && x.rs == x.re && L[x.ls].kind == L[x.rs].kind == Text))
  {
    assert L[w.ls..w.ls] == [];
  }

  lemma FinishOfEqual(text: string, L: seq<Segment>, w: Walk)
    requires Bounded(L, L, w) && LeftRest(L, w) == RightRest(L, w)
    requires LeftRest(L, w) == "" || (w.ls == w.le && w.rs == w.re && L[w.ls].kind == L[w.rs].kind == Text)
    ensures Finish(text, text, L, L, w) == DiffSplit(text, "", "", "")
  {
    hide LeftRest, RightRest;
    var l := LeftRest(L, w);
    assert CommonSuffixLen(l, l) == |l|;
  }

  // ---- The code ----

  method CommonPrefixLength(left: string, right: string) returns (n: nat)
    ensures n == CommonPrefixLen(left, right)
  {
    n := 0;
    var minLen := if |left| < |right| then |left| else |right|;
    while n < minLen && left[n] == right[n]
      invariant n <= minLen && CommonPrefixFrom(left, right, n) == CommonPrefixLen(left, right)
    {
      n := n + 1;
    }
  }

  method CommonSuffixLength(left: string, right: string) returns (n: nat)
    ensures n == CommonSuffixLen(left, right)
  {
    n := 0;
    var minLen := if |left| < |right| then |left| else |right|;
    while n < minLen && FromBack(left, n) == FromBack(right, n)
      invariant n <= minLen && CommonSuffixFrom(left, right, n) == CommonSuffixLen(left, right)
    {
      n := n + 1;
    }
  }

  lemma RunUnfolds(L: seq<Segment>, R: seq<Segment>, w: Walk)
    requires Bounded(L, R, w)
    ensures Run(L, R, w) == if Advances(L, R, w) then Run(L, R, Advance(L, R, w)) else w
  {
  }

  /** The segment loop with its two `if`s and its break. */
  method WalkSegments(L: seq<Segment>, R: seq<Segment>) returns (w: Walk)
    requires L != [] && R != []
    ensures Bounded(L, R, w) && w == Run(L, R, Start(L, R))
  {
    hide Run;
    w := Start(L, R);
    while w.ls != w.le && w.rs != w.re
      invariant Bounded(L, R, w) && Run(L, R, w) == Run(L, R, Start(L, R))
      decreases (w.le - w.ls) + (w.re - w.rs)
    {
      ghost var before := w;
      var advanced := false;
      if L[w.ls] == R[w.rs] {
        w := w.(prefix := w.prefix + L[w.ls].value);
        w := w.(ls := w.ls + 1, rs := w.rs + 1);
        advanced := true;
      }
      ghost var middle := w;
      assert middle == TakePrefix(L, R, before);
      if L[w.le] == R[w.re] {
        w := w.(suffix := L[w.le].value + w.suffix);
        if w.ls != w.le {
          w := w.(le := w.le - 1);
        } else {
          w := w.(leftDone := true);
        }
        if w.rs != w.re {
          w := w.(re := w.re - 1);
        } else {
          w := w.(rightDone := true);
        }
        advanced := true;
      }
      assert w == TakeSuffix(L, R, middle);
      RunUnfolds(L, R, before);
      if !advanced {
        break;
      }
    }
    RunUnfolds(L, R, w);
  }

  method ConcatSegments(segs: seq<Segment>) returns (text: string)
    ensures text == Concat(segs)
  {
    text := "";
    for i := 0 to |segs|
      invariant text == Concat(segs[..i])
    {
      ConcatSnoc(segs, i);
      text := text + segs[i].value;
    }
    assert segs[..|segs|] == segs;
  }

  method TrimTexts(prefix: string, suffix: string, l: string, r: string, textPrefix: bool, textSuffix: bool)
    returns (d: DiffSplit)
    ensures d == Trim(prefix, suffix, l, r, textPrefix, textSuffix)
  {
    var s, p := 0, 0;
    if textSuffix {
      s := CommonSuffixLength(l, r);
    }
    if textPrefix {
      p := CommonPrefixLength(l[..|l| - s], r[..|r| - s]);
    }
    d := DiffSplit(prefix + l[..p], l[|l| - s..] + suffix, l[p..|l| - s], r[p..|r| - s]);
  }

  method FinishSplit(left: string, right: string, L: seq<Segment>, R: seq<Segment>, w: Walk) returns (d: DiffSplit)
    requires Bounded(L, R, w)
    ensures d == Finish(left, right, L, R, w)
  {
    hide Concat, Trim;
    var restLeft := ConcatSegments(L[w.ls..if w.leftDone then w.le else w.le + 1]);
    var restRight := ConcatSegments(R[w.rs..if w.rightDone then w.re else w.re + 1]);
    d := TrimTexts(w.prefix, w.suffix, restLeft, restRight,
                   R[w.rs].kind == Text && L[w.ls].kind == Text, L[w.le].kind == Text && R[w.re].kind == Text);
    if d.left == "" && d.right == "" {
      d := d.(prefix := left, suffix := "");
    }
    if d.left == "" && d.right != "" && |left| <= |right| && right[..|left|] == left {
      d := d.(prefix := left, suffix := "", right := right[|left|..]);
    }
  }

  method CalculateDiffSplit(left: string, right: string) returns (d: DiffSplit)
    ensures d == Split(left, right)
    ensures Reconstructs(left, right, d) <==> !Garbled(left, right)
  {
    var L := SegmentizeMarkers(left);
    var R := SegmentizeMarkers(right);
    if L == [] {
      d := DiffSplit("", "", "", right);
    } else if R == [] {
      d := DiffSplit("", "", left, "");
    } else {
      var w := WalkSegments(L, R);
      d := FinishSplit(left, right, L, R, Settle(L, R, w));
    }
    SplitReconstructs(left, right);
  }
}
