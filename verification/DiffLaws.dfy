/** What a difference looks like (engine/common/chat-auto-parser-helpers.cpp, `calculate_diff_split`): what is
    trimmed, what is left, and which markers stay whole. */
module DiffLaws {
  import opened Segmenter
  import opened DiffSplitter

  // ---- Trimming ----

  predicate CommonStart(a: string, b: string, t: string) {
    t <= a && t <= b
  }

  predicate Ends(s: string, t: string) {
    |t| <= |s| && s[|s| - |t|..] == t
  }

  predicate CommonEnd(a: string, b: string, t: string) {
    Ends(a, t) && Ends(b, t)
  }

  ghost predicate LongestStart(a: string, b: string, t: string) {
    CommonStart(a, b, t) && forall u :: CommonStart(a, b, u) ==> |u| <= |t|
  }

  ghost predicate LongestEnd(a: string, b: string, t: string) {
    CommonEnd(a, b, t) && forall u :: CommonEnd(a, b, u) ==> |u| <= |t|
  }

  lemma StartAgrees(a: string, b: string, u: string, i: nat)
    requires CommonStart(a, b, u) && i < |u|
    ensures i < |a| && i < |b| && a[i] == b[i]
  {
    assert a[i] == u[i] && b[i] == u[i];
  }

  lemma EndAgrees(a: string, b: string, u: string, i: nat)
    requires CommonEnd(a, b, u) && i < |u|
    ensures i < |a| && i < |b| && FromBack(a, i) == FromBack(b, i)
  {
    assert FromBack(a, i) == a[|a| - |u|..][|u| - 1 - i] && FromBack(b, i) == b[|b| - |u|..][|u| - 1 - i];
  }

  lemma PrefixIsLongest(a: string, b: string)
    ensures LongestStart(a, b, a[..CommonPrefixLen(a, b)])
  {
    var n := CommonPrefixLen(a, b);
    forall u | CommonStart(a, b, u)
      ensures |u| <= n
    {
      if |u| > n {
        StartAgrees(a, b, u, n);
      }
    }
  }

  lemma SuffixIsLongest(a: string, b: string)
    ensures LongestEnd(a, b, a[|a| - CommonSuffixLen(a, b)..])
  {
    var n := CommonSuffixLen(a, b);
    assert Ends(a, a[|a| - n..]) && Ends(b, a[|a| - n..]);
    forall u | CommonEnd(a, b, u)
      ensures |u| <= n
    {
      if |u| > n {
        EndAgrees(a, b, u, n);
      }
    }
  }

  /** Both remainders begin, or end, in plain text. */
  predicate TextAtStart(L: seq<Segment>, R: seq<Segment>, w: Walk)
    requires Bounded(L, R, w)
  {
    L[w.ls].kind == Text && R[w.rs].kind == Text
  }

  predicate TextAtEnd(L: seq<Segment>, R: seq<Segment>, w: Walk)
    requires Bounded(L, R, w)
  {
    L[w.le].kind == Text && R[w.re].kind == Text
  }

  /** Main result on trimming: where both remainders end in text the longest common end moves to the suffix, and
      then, where both begin in text, the longest common start of what is left to the prefix; nothing moves
      anywhere else. No difference at all, or left a prefix of right, is put all in front. */
  lemma FinishMeans(left: string, right: string, L: seq<Segment>, R: seq<Segment>, w: Walk) returns (p: string, s: string)
    requires Bounded(L, R, w)
    ensures var l, r := LeftRest(L, w), RightRest(R, w);
            && |p| + |s| <= |l| && |p| + |s| <= |r|
            && (if TextAtEnd(L, R, w) then LongestEnd(l, r, s) else s == "")
            && (if TextAtStart(L, R, w) then LongestStart(l[..|l| - |s|], r[..|r| - |s|], p) else p == "")
    ensures var l, r := LeftRest(L, w), RightRest(R, w);
            var a, b := l[|p|..|l| - |s|], r[|p|..|r| - |s|];
            Finish(left, right, L, R, w) ==
            if a == "" && b == "" then DiffSplit(left, "", "", "")
            else if a == "" && left <= right then DiffSplit(left, "", "", right[|left|..])
            else DiffSplit(w.prefix + p, s + w.suffix, a, b)
  {
    hide Trim, Correct, LeftRest, RightRest, TextAtStart, TextAtEnd, LongestStart, LongestEnd, Finish;
    FinishTrims(left, right, L, R, w);
    p, s := TrimMeans(w.prefix, w.suffix, LeftRest(L, w), RightRest(R, w), TextAtStart(L, R, w), TextAtEnd(L, R, w));
    CorrectMeans(left, right, Trim(w.prefix, w.suffix, LeftRest(L, w), RightRest(R, w), TextAtStart(L, R, w), TextAtEnd(L, R, w)));
  }

  lemma FinishTrims(left: string, right: string, L: seq<Segment>, R: seq<Segment>, w: Walk)
    requires Bounded(L, R, w)
    ensures Finish(left, right, L, R, w) ==
            Correct(left, right, Trim(w.prefix, w.suffix, LeftRest(L, w), RightRest(R, w), TextAtStart(L, R, w), TextAtEnd(L, R, w)))
  {
    hide LeftRest, RightRest, Trim, Correct;
  }

  lemma TrimMeans(P: string, S: string, l: string, r: string, tp: bool, ts: bool) returns (p: string, s: string)
    ensures |p| + |s| <= |l| && |p| + |s| <= |r|
    ensures if ts then LongestEnd(l, r, s) else s == ""
    ensures if tp then LongestStart(l[..|l| - |s|], r[..|r| - |s|], p) else p == ""
    ensures Trim(P, S, l, r, tp, ts) == DiffSplit(P + p, s + S, l[|p|..|l| - |s|], r[|p|..|r| - |s|])
  {
    hide *;
    var m := if ts then CommonSuffixLen(l, r) else 0;
    s := l[|l| - m..];
    var x, y := l[..|l| - m], r[..|r| - m];
    var n := if tp then CommonPrefixLen(x, y) else 0;
    p := l[..n];
    TrimUnfolds(P, S, l, r, tp, ts, m, n);
    SuffixIsLongest(l, r);
    PrefixIsLongest(x, y);
    assert x[..n] == p;
  }

  lemma TrimUnfolds(P: string, S: string, l: string, r: string, tp: bool, ts: bool, m: nat, n: nat)
    requires m == (if ts then CommonSuffixLen(l, r) else 0) && m <= |l| && m <= |r|
    requires n == if tp then CommonPrefixLen(l[..|l| - m], r[..|r| - m]) else 0
    ensures m + n <= |l| && m + n <= |r|
    ensures Trim(P, S, l, r, tp, ts) == DiffSplit(P + l[..n], l[|l| - m..] + S, l[n..|l| - m], r[n..|r| - m])
  {
    hide CommonPrefixLen, CommonSuffixLen, FromBack;
    var x, y := l[..|l| - m], r[..|r| - m];
    assert n <= |x| && n <= |y|;
  }

  lemma CorrectMeans(left: string, right: string, d: DiffSplit)
    ensures Correct(left, right, d) ==
            if d.left == "" && d.right == "" then DiffSplit(left, "", "", "")
            else if d.left == "" && left <= right then DiffSplit(left, "", "", right[|left|..])
            else d
  {
  }

  /** No trimming without text on both sides. */
  lemma MarkersStay(left: string, right: string, L: seq<Segment>, R: seq<Segment>, w: Walk)
    requires Bounded(L, R, w) && Finish(left, right, L, R, w).left != ""
    ensures !TextAtStart(L, R, w) ==> Finish(left, right, L, R, w).prefix == w.prefix
    ensures !TextAtEnd(L, R, w) ==> Finish(left, right, L, R, w).suffix == w.suffix
  {
    hide Finish, LeftRest, RightRest, LongestStart, LongestEnd;
    var p, s := FinishMeans(left, right, L, R, w);
    assert w.prefix + "" == w.prefix && "" + w.suffix == w.suffix;
  }

  // ---- Nothing common is left over ----

  /** The walk of two inputs, settled. */
  function WalkOf(L: seq<Segment>, R: seq<Segment>): (w: Walk)
    requires L != [] && R != []
    ensures Bounded(L, R, w)
  {
    Settle(L, R, Run(L, R, Start(L, R)))
  }

  /** The remainders differ in their first and in their last segments, or are one and the same text. */
  lemma SegmentsDiffer(L: seq<Segment>, R: seq<Segment>)
    requires L != [] && R != [] && LeftRest(L, WalkOf(L, R)) != "" && RightRest(R, WalkOf(L, R)) != ""
    ensures var w := WalkOf(L, R);
            || (L[w.ls] != R[w.rs] && L[w.le] != R[w.re])
            || (w.ls == w.le && w.rs == w.re && L[w.ls] == R[w.rs] && L[w.ls].kind == Text && !w.leftDone && !w.rightDone)
  {
    hide Run, Concat, Open, Closed;
    FlagMeaning(L, R);
    SettledDiffer(L, R, Run(L, R, Start(L, R)));
  }

  lemma SettledDiffer(L: seq<Segment>, R: seq<Segment>, w: Walk)
    requires Bounded(L, R, w) && !Advances(L, R, w) && if w.leftDone || w.rightDone then Closed(L, R, w) else Open(L, R, w)
    requires LeftRest(L, Settle(L, R, w)) != "" && RightRest(R, Settle(L, R, w)) != ""
    ensures var x := Settle(L, R, w);
            || (L[x.ls] != R[x.rs] && L[x.le] != R[x.re])
            || (x.ls == x.le && x.rs == x.re && L[x.ls] == R[x.rs] && L[x.ls].kind == Text && !x.leftDone && !x.rightDone)
  {
    hide Concat;
    if w.leftDone || w.rightDone {
      NothingLeft(L, R, w);
    } else {
      NothingOfNothing();
      assert L[w.ls..w.ls] == [] && R[w.rs..w.rs] == [];
    }
  }

  lemma NothingOfNothing()
    ensures Concat([]) == ""
  {
  }

  /** Main result on what is left: two parts that are not empty come from segments that differ at both ends, and
      where these are text, from characters that differ. */
  lemma DifferenceIsTight(left: string, right: string)
    requires Segments(left) != [] && Segments(right) != []
    requires Split(left, right).left != "" && Split(left, right).right != ""
    ensures var L, R := Segments(left), Segments(right);
            var d, w := Split(left, right), WalkOf(L, R);
            && L[w.ls] != R[w.rs] && L[w.le] != R[w.re]
            && (TextAtStart(L, R, w) ==> d.left[0] != d.right[0])
            && (TextAtEnd(L, R, w) ==> d.left[|d.left| - 1] != d.right[|d.right| - 1])
  {
    hide Finish, LeftRest, RightRest, Settle, Run, Segments, LongestStart, LongestEnd;
    var L, R := Segments(left), Segments(right);
    var w := WalkOf(L, R);
    FinishIsTight(left, right, L, R, w);
    var p, s := FinishMeans(left, right, L, R, w);
    if LeftRest(L, w) == RightRest(R, w) && TextAtEnd(L, R, w) {
      SameEnds(LeftRest(L, w), s);
    }
    SegmentsDiffer(L, R);
    SingleRest(L, R, w);
  }

  lemma SameEnds(l: string, s: string)
    requires LongestEnd(l, l, s)
    ensures |s| == |l|
  {
    assert CommonEnd(l, l, l);
  }

  lemma SingleRest(L: seq<Segment>, R: seq<Segment>, w: Walk)
    requires Bounded(L, R, w)
    ensures w.ls == w.le && w.rs == w.re && L[w.ls] == R[w.rs] && !w.leftDone && !w.rightDone ==> LeftRest(L, w) == RightRest(R, w)
  {
    assert L[w.ls..w.ls + 1] == [L[w.ls]] && R[w.rs..w.rs + 1] == [R[w.rs]];
  }

  /** A right input that only goes on where left ends is reported so, whenever nothing of left is left over. */
  lemma PureExtension(left: string, right: string)
    requires left != "" && left <= right && left != right && Split(left, right).left == "" && !Garbled(left, right)
    ensures Split(left, right) == DiffSplit(left, "", "", right[|left|..])
  {
    hide Garbled, Run, Settle, LeftRest, RightRest, LongestStart, LongestEnd, Segments, Finish;
    var L, R := Segments(left), Segments(right);
    SegmentsNonEmpty(left);
    SegmentsNonEmpty(right);
    NothingOfNothing();
    SplitReconstructs(left, right);
    var d := Split(left, right);
    if d.right == "" {
      NoDifference(left, right, d);
    }
    var p, s := FinishMeans(left, right, L, R, WalkOf(L, R));
  }

  lemma NoDifference(left: string, right: string, d: DiffSplit)
    requires Reconstructs(left, right, d) && d.left == "" && d.right == ""
    ensures left == right
  {
  }

  // ---- Which markers stay whole ----

  /** Both remainders are left over and tight: the situation of every difference with two parts. */
  ghost predicate Tight(L: seq<Segment>, R: seq<Segment>, w: Walk) {
    && Bounded(L, R, w) && !w.leftDone && !w.rightDone
    && (forall i :: 0 <= i < |L| ==> GoodAt(L, i)) && (forall i :: 0 <= i < |R| ==> GoodAt(R, i))
    && L[w.ls] != R[w.rs] && L[w.le] != R[w.re]
  }

  /** A text with something behind it holds no opener, and an opener follows. */
  lemma TextThenOpener(S: seq<Segment>, i: nat, j: nat)
    requires i <= j < |S| && (forall k :: 0 <= k < |S| ==> GoodAt(S, k)) && S[i].kind == Text
    ensures var t, rest := S[i].value, Concat(S[i..j + 1]);
            && t != "" && t <= rest
            && (|rest| > |t| ==> i < j && NoOpener(t) && IsOpener(rest[|t|]))
  {
    hide Concat;
    assert GoodAt(S, i);
    SplitFirst(S, i, j);
    if i < j {
      SplitFirst(S, i + 1, j);
    } else {
      NothingOfNothing();
    }
  }

  /** A common start of two remainders that begin in different texts stays inside both texts. */
  lemma StartStaysInside(L: seq<Segment>, R: seq<Segment>, w: Walk, p: string)
    requires Tight(L, R, w) && TextAtStart(L, R, w) && CommonStart(LeftRest(L, w), RightRest(R, w), p)
    ensures p <= L[w.ls].value && p <= R[w.rs].value
  {
    hide Concat, Tight;
    TightParts(L, R, w);
    TextThenOpener(L, w.ls, w.le);
    TextThenOpener(R, w.rs, w.re);
    var l, r, t, u := LeftRest(L, w), RightRest(R, w), L[w.ls].value, R[w.rs].value;
    if |p| > |t| || |p| > |u| {
      NoSharedOpener(l, r, t, u, p, L, R, w);
    }
  }

  lemma TightParts(L: seq<Segment>, R: seq<Segment>, w: Walk)
    requires Tight(L, R, w)
    ensures w.ls < |L| && w.rs < |R| && Bounded(L, R, w) && !w.leftDone && !w.rightDone && L[w.ls] != R[w.rs] && L[w.le] != R[w.re]
    ensures (forall i :: 0 <= i < |L| ==> GoodAt(L, i)) && (forall i :: 0 <= i < |R| ==> GoodAt(R, i))
  {
  }

  lemma NoSharedOpener(l: string, r: string, t: string, u: string, p: string, L: seq<Segment>, R: seq<Segment>, w: Walk)
    requires Tight(L, R, w) && TextAtStart(L, R, w) && t == L[w.ls].value && u == R[w.rs].value
    requires p <= l && p <= r && t <= l && u <= r && t != "" && u != ""
    requires |l| > |t| ==> NoOpener(t) && IsOpener(l[|t|])
    requires |r| > |u| ==> NoOpener(u) && IsOpener(r[|u|])
    ensures |p| <= |t| && |p| <= |u|
  {
    hide Concat;
    assert GoodAt(L, w.ls) && GoodAt(R, w.rs);
    assert forall i :: 0 <= i < |p| ==> l[i] == r[i];
    assert forall i :: 0 <= i < |t| ==> l[i] == t[i];
    assert forall i :: 0 <= i < |u| ==> r[i] == u[i];
    if |t| == |u| && |p| > |t| {
      EqualTexts(l, r, t, u, p);
    }
  }

  lemma EqualTexts(l: string, r: string, t: string, u: string, p: string)
    requires p <= l && p <= r && t <= l && u <= r && |t| == |u| <= |p|
    ensures t == u
  {
    assert t == p[..|t|] && u == p[..|t|];
  }

  /** With something left on both sides, the branches after the loop did nothing. */
  lemma StillOpen(L: seq<Segment>, R: seq<Segment>)
    requires L != [] && R != [] && LeftRest(L, WalkOf(L, R)) != "" && RightRest(R, WalkOf(L, R)) != ""
    ensures Open(L, R, WalkOf(L, R))
  {
    hide Concat;
    FlagMeaning(L, R);
    NothingOfNothing();
    var w := Run(L, R, Start(L, R));
    if w.leftDone || w.rightDone {
      NothingLeft(L, R, w);
    }
    assert L[w.ls..w.ls] == [] && R[w.rs..w.rs] == [];
  }

  lemma NothingLeft(L: seq<Segment>, R: seq<Segment>, w: Walk)
    requires Bounded(L, R, w) && Closed(L, R, w)
    ensures LeftRest(L, Settle(L, R, w)) == "" || RightRest(R, Settle(L, R, w)) == ""
  {
    hide Concat;
    NothingOfNothing();
    assert L[w.ls..w.ls] == [] && R[w.rs..w.rs] == [];
  }

  /** Two parts that are not empty come from a tight walk. */
  lemma PartsAreTight(left: string, right: string)
    requires Segments(left) != [] && Segments(right) != []
    requires Split(left, right).left != "" && Split(left, right).right != ""
    ensures var L, R := Segments(left), Segments(right);
            Tight(L, R, WalkOf(L, R)) && Open(L, R, WalkOf(L, R))
  {
    hide Finish, LeftRest, RightRest, Settle, Run, Segments, LongestStart, LongestEnd, Open, GoodAt;
    var L, R := Segments(left), Segments(right);
    var w := WalkOf(L, R);
    var p, s := FinishMeans(left, right, L, R, w);
    DifferenceIsTight(left, right);
    StillOpen(L, R);
    OpenFlags(L, R, w);
    SegmentsAreSegmentation(left);
    SegmentsAreSegmentation(right);
  }

  lemma OpenFlags(L: seq<Segment>, R: seq<Segment>, w: Walk)
    requires Bounded(L, R, w) && Open(L, R, w)
    ensures !w.leftDone && !w.rightDone && w.ls == w.rs && L[..w.ls] == R[..w.rs] && w.prefix == Concat(L[..w.ls])
    ensures L[w.le + 1..] == R[w.re + 1..] && w.suffix == Concat(L[w.le + 1..])
  {
  }

  /** Main result on markers in front: of a difference with two parts, the prefix is made of whole segments that
      both inputs begin with, and part of the next one only where that is text on both sides. */
  lemma PrefixKeepsMarkers(left: string, right: string) returns (k: nat, p: string)
    requires Segments(left) != [] && Segments(right) != []
    requires Split(left, right).left != "" && Split(left, right).right != ""
    ensures var L, R := Segments(left), Segments(right);
            && k < |L| && k < |R| && L[..k] == R[..k] && Split(left, right).prefix == Concat(L[..k]) + p
            && (p != "" ==> L[k].kind == Text && R[k].kind == Text && p <= L[k].value && p <= R[k].value)
  {
    hide *;
    var L, R := Segments(left), Segments(right);
    var w, s := WalkOf(L, R), "";
    PartsAreTight(left, right);
    TightParts(L, R, w);
    OpenFlags(L, R, w);
    k := w.ls;
    p, s := FinishMeans(left, right, L, R, w);
    SplitFinishes(left, right);
    if TextAtStart(L, R, w) {
      ShorterStart(LeftRest(L, w), RightRest(R, w), s, p);
      StartStaysInside(L, R, w, p);
      StartIsText(L, R, w);
    }
  }

  lemma SplitFinishes(left: string, right: string)
    requires Segments(left) != [] && Segments(right) != []
    ensures var L, R := Segments(left), Segments(right); Split(left, right) == Finish(left, right, L, R, WalkOf(L, R))
  {
    hide Finish, Settle, Run, Segments;
  }

  lemma StartIsText(L: seq<Segment>, R: seq<Segment>, w: Walk)
    requires Bounded(L, R, w) && TextAtStart(L, R, w)
    ensures w.ls < |L| && w.rs < |R| && L[w.ls].kind == Text && R[w.rs].kind == Text
  {
  }

  lemma ShorterStart(l: string, r: string, s: string, p: string)
    requires |s| <= |l| && |s| <= |r| && LongestStart(l[..|l| - |s|], r[..|r| - |s|], p)
    ensures CommonStart(l, r, p)
  {
    var x, y := l[..|l| - |s|], r[..|r| - |s|];
    assert p == x[..|p|] == l[..|p|] && p == y[..|p|] == r[..|p|];
  }

  /** The text `u` ends in the character in front of the last segment of `S[i..j]` and that segment. */
  predicate Swallows(S: seq<Segment>, i: nat, j: nat, u: string)
    requires i <= j < |S|
  {
    i < j && S[j - 1].value != "" && Ends(u, [S[j - 1].value[|S[j - 1].value| - 1]] + S[j].value)
  }

  lemma EndsMore(s: string, t: string, u: string)
    requires Ends(s, t) && Ends(s, u) && |u| <= |t|
    ensures Ends(t, u)
  {
    assert s[|s| - |u|..] == t[|t| - |u|..];
  }

  lemma EndsThrough(s: string, t: string, u: string)
    requires Ends(s, t) && Ends(t, u)
    ensures Ends(s, u)
  {
    assert s[|s| - |u|..] == s[|s| - |t|..][|t| - |u|..];
  }

  /** A remainder ends in its last segment, and in one more character if there is another segment. */
  lemma RestEnds(S: seq<Segment>, i: nat, j: nat)
    requires i <= j < |S| && NonEmptyValues(S)
    ensures var rest, t := Concat(S[i..j + 1]), S[j].value;
            && Ends(rest, t) && (i == j ==> rest == t)
            && (i < j ==> S[j - 1].value != "" && Ends(rest, [S[j - 1].value[|S[j - 1].value| - 1]] + t))
  {
    hide Concat;
    SplitLast(S, i, j);
    NothingOfNothing();
    if i < j {
      SplitLast(S, i, j - 1);
      var v := S[j - 1].value;
      assert v == v[..|v| - 1] + [v[|v| - 1]];
    }
  }

  /** If a common end is longer than the last text of one side, the last text of the other swallows that one. */
  lemma LongEndSwallows(L: seq<Segment>, i: nat, j: nat, l: string, r: string, u: string, s: string)
    requires i <= j < |L| && NonEmptyValues(L) && l == Concat(L[i..j + 1]) && Ends(r, u) && CommonEnd(l, r, s)
    requires |s| > |L[j].value| && |u| > |L[j].value|
    ensures Swallows(L, i, j, u)
  {
    hide Concat;
    RestEnds(L, i, j);
    var v := [L[j - 1].value[|L[j - 1].value| - 1]] + L[j].value;
    EndsMore(l, s, v);
    EndsThrough(r, s, v);
    EndsMore(r, u, v);
  }

  lemma SwallowedEnd(L: seq<Segment>, i: nat, j: nat, l: string, r: string, u: string, s: string)
    requires i <= j < |L| && NonEmptyValues(L) && l == Concat(L[i..j + 1]) && Ends(r, u) && LongestEnd(l, r, s) && Swallows(L, i, j, u)
    ensures |s| > |L[j].value|
  {
    hide Concat;
    RestEnds(L, i, j);
    var v := [L[j - 1].value[|L[j - 1].value| - 1]] + L[j].value;
    EndsThrough(r, u, v);
    assert CommonEnd(l, r, v);
  }

  lemma TightEnds(L: seq<Segment>, R: seq<Segment>, w: Walk)
    requires Tight(L, R, w) && TextAtEnd(L, R, w)
    ensures Bounded(L, R, w) && w.ls <= w.le < |L| && w.rs <= w.re < |R| && L[w.le].value != R[w.re].value
    ensures LeftRest(L, w) == Concat(L[w.ls..w.le + 1]) && RightRest(R, w) == Concat(R[w.rs..w.re + 1])
  {
    hide Concat, GoodAt;
  }

  lemma SameLengthEnds(l: string, r: string, t: string, u: string, s: string)
    requires Ends(l, t) && Ends(r, u) && CommonEnd(l, r, s) && |t| == |u| <= |s|
    ensures t == u
  {
    EndsMore(l, s, t);
    EndsMore(r, s, u);
  }

  /** The longest common end of two tight remainders stays inside the last texts unless one swallows the other. */
  lemma EndStaysExactly(L: seq<Segment>, R: seq<Segment>, w: Walk, s: string)
    requires Tight(L, R, w) && NonEmptyValues(L) && NonEmptyValues(R) && TextAtEnd(L, R, w) && LongestEnd(LeftRest(L, w), RightRest(R, w), s)
    ensures |s| <= |L[w.le].value| && |s| <= |R[w.re].value| <==>
            !Swallows(L, w.ls, w.le, R[w.re].value) && !Swallows(R, w.rs, w.re, L[w.le].value)
  {
    hide *;
    TightParts(L, R, w);
    TightEnds(L, R, w);
    EndStays(L, w.ls, w.le, R, w.rs, w.re, s);
  }

  lemma EndStays(L: seq<Segment>, i: nat, j: nat, R: seq<Segment>, i': nat, j': nat, s: string)
    requires i <= j < |L| && i' <= j' < |R| && NonEmptyValues(L) && NonEmptyValues(R) && L[j].value != R[j'].value
    requires LongestEnd(Concat(L[i..j + 1]), Concat(R[i'..j' + 1]), s)
    ensures |s| <= |L[j].value| && |s| <= |R[j'].value| <==> !Swallows(L, i, j, R[j'].value) && !Swallows(R, i', j', L[j].value)
  {
    hide *;
    var l, r, t, u := Concat(L[i..j + 1]), Concat(R[i'..j' + 1]), L[j].value, R[j'].value;
    RestEnds(L, i, j);
    RestEnds(R, i', j');
    EndsBoth(l, r, s);
    if Swallows(L, i, j, u) {
      SwallowedEnd(L, i, j, l, r, u, s);
    }
    if Swallows(R, i', j', t) {
      SwallowedEnd(R, i', j', r, l, t, s);
    }
    if |s| > |t| || |s| > |u| {
      if |t| == |u| {
        SameLengthEnds(l, r, t, u, s);
      } else if |t| < |u| {
        LongEndSwallows(L, i, j, l, r, u, s);
      } else {
        LongEndSwallows(R, i', j', r, l, t, s);
      }
    }
  }

  lemma EndsBoth(l: string, r: string, s: string)
    requires LongestEnd(l, r, s)
    ensures LongestEnd(r, l, s) && CommonEnd(l, r, s) && CommonEnd(r, l, s)
  {
    forall u | CommonEnd(r, l, u)
      ensures |u| <= |s|
    {
      assert CommonEnd(l, r, u);
    }
  }

  /** Main result on markers behind: of a difference with two parts, the suffix is made of whole segments that
      both inputs end with and the longest common end `s` in front of them; this cuts no marker apart exactly
      if no last text ends in what the other remainder has in front of its last text, and that text. */
  lemma SuffixKeepsMarkersExactly(left: string, right: string) returns (s: string)
    requires Segments(left) != [] && Segments(right) != []
    requires Split(left, right).left != "" && Split(left, right).right != ""
    ensures var L, R := Segments(left), Segments(right); var w := WalkOf(L, R);
            && L[w.le + 1..] == R[w.re + 1..] && Split(left, right).suffix == s + Concat(L[w.le + 1..])
            && (!TextAtEnd(L, R, w) ==> s == "")
            && (TextAtEnd(L, R, w) ==>
                (|s| <= |L[w.le].value| && |s| <= |R[w.re].value| <==>
                 !Swallows(L, w.ls, w.le, R[w.re].value) && !Swallows(R, w.rs, w.re, L[w.le].value)))
  {
    hide *;
    var L, R := Segments(left), Segments(right);
    var w, p := WalkOf(L, R), "";
    PartsAreTight(left, right);
    TightParts(L, R, w);
    OpenFlags(L, R, w);
    p, s := FinishMeans(left, right, L, R, w);
    SplitFinishes(left, right);
    SegmentsNonEmpty(left);
    SegmentsNonEmpty(right);
    if TextAtEnd(L, R, w) {
      EndStaysExactly(L, R, w, s);
    }
  }

  /** It happens: of `x<a>c` against `ya>c` the marker is cut, its last character going to the suffix. */
  lemma MarkerCut()
    ensures Split("x<a>c", "ya>c") == DiffSplit("", "a>c", "x<", "y")
  {
    var x, a, c, y := Segment(Text, "x"), Segment(Marker, "<a>"), Segment(Text, "c"), Segment(Text, "ya>c");
    ExampleSegments(x, a, c, y);
    var L, R := [x, a, c], [y];
    var w := Start(L, R);
    assert Settle(L, R, Run(L, R, w)) == w;
    assert L[0..3] == L && R[0..1] == R;
    TrimExample();
  }

  lemma ExampleSegments(x: Segment, a: Segment, c: Segment, y: Segment)
    requires x == Segment(Text, "x") && a == Segment(Marker, "<a>") && c == Segment(Text, "c") && y == Segment(Text, "ya>c")
    ensures Concat([x, a, c]) == "x<a>c" && Segments("x<a>c") == [x, a, c]
    ensures Concat([y]) == "ya>c" && Segments("ya>c") == [y]
  {
    assert [x, a, c][1..] == [a, c] && [a, c][1..] == [c];
    OneSegment(c);
    OneSegment(y);
    assert Concat([a, c]) == "<a>" + "c" == "<a>c" && Concat([x, a, c]) == "x" + "<a>c" == "x<a>c";
    assert forall i :: 0 <= i < 3 ==> GoodAt([x, a, c], i);
    assert forall i :: 0 <= i < 1 ==> GoodAt([y], i);
    SegmentationIsUnique("x<a>c", [x, a, c]);
    SegmentationIsUnique("ya>c", [y]);
  }

  lemma DiffersFromBack(a: string, b: string, u: string, i: nat)
    requires i < |a| && i < |b| && FromBack(a, i) != FromBack(b, i) && CommonEnd(a, b, u)
    ensures |u| <= i
  {
    if |u| > i {
      EndAgrees(a, b, u, i);
    }
  }

  lemma DiffersFromFront(a: string, b: string, u: string, i: nat)
    requires i < |a| && i < |b| && a[i] != b[i] && CommonStart(a, b, u)
    ensures |u| <= i
  {
    if |u| > i {
      StartAgrees(a, b, u, i);
    }
  }

  /** Remainders of a text with a character in front and a common end `e` behind characters that differ. */
  lemma TrimPair(l: string, r: string, a: string, b: string, e: string)
    requires l == a + e && r == b + e && a != "" && b != "" && a[|a| - 1] != b[|b| - 1] && a[0] != b[0]
    ensures Trim("", "", l, r, true, true) == DiffSplit("", e, a, b)
  {
    hide CommonPrefixLen, CommonSuffixLen, Trim;
    var p, s := TrimMeans("", "", l, r, true, true);
    assert Ends(l, e) && Ends(r, e);
    assert CommonEnd(l, r, e);
    DiffersFromBack(l, r, s, |e|);
    assert s == l[|l| - |s|..] == e;
    assert l[..|a|] == a && r[..|b|] == b;
    DiffersFromFront(a, b, p, 0);
    assert "" + p == p == "" && s + "" == s;
  }

  lemma TrimExample()
    ensures Trim("", "", "x<a>c", "ya>c", true, true) == DiffSplit("", "a>c", "x<", "y")
  {
    hide Trim;
    assert "x<" + "a>c" == "x<a>c" && "y" + "a>c" == "ya>c";
    TrimPair("x<a>c", "ya>c", "x<", "y", "a>c");
  }

  // ---- The walk in closed form ----

  /** `p` is the number of segments two lists share in front. */
  predicate SharedFront(L: seq<Segment>, R: seq<Segment>, p: nat) {
    && p <= |L| && p <= |R| && L[..p] == R[..p]
    && (p < |L| && p < |R| ==> L[p] != R[p])
  }

  /** `s` is the number of segments they share behind. */
  predicate SharedBack(L: seq<Segment>, R: seq<Segment>, s: nat) {
    && s <= |L| && s <= |R| && L[|L| - s..] == R[|R| - s..]
    && (s < |L| && s < |R| ==> L[|L| - 1 - s] != R[|R| - 1 - s])
  }

  /** How many segments go to the suffix: all shared ones, if these do not overlap with those in front in the shorter
      list, of `n` segments; else as many as make the two ends meet in its middle, or as near to it as the shared
      ones reach. */
  function TakenBack(p: nat, s: nat, n: nat): int {
    var half := (n + 1) / 2;
    if p + s <= n then s
    else if s < half then s
    else if n - p > half then n - p
    else half
  }

  function TakenFront(p: nat, s: nat, n: nat): int {
    if p + s <= n then p else n - TakenBack(p, s, n)
  }

  lemma EqualAt(L: seq<Segment>, R: seq<Segment>, a: nat, i: nat)
    requires i < a <= |L| && a <= |R| && L[..a] == R[..a]
    ensures L[i] == R[i]
  {
    assert L[i] == L[..a][i] && R[i] == R[..a][i];
  }

  lemma EqualFromBack(L: seq<Segment>, R: seq<Segment>, b: nat, i: nat)
    requires i < b <= |L| && b <= |R| && L[|L| - b..] == R[|R| - b..]
    ensures L[|L| - 1 - i] == R[|R| - 1 - i]
  {
    assert L[|L| - b..][b - 1 - i] == L[|L| - 1 - i] && R[|R| - b..][b - 1 - i] == R[|R| - 1 - i];
  }

  /** Ends that are shared reach no further than the shared ones. */
  lemma NotFurther(L: seq<Segment>, R: seq<Segment>, p: nat, s: nat, a: nat, b: nat)
    requires SharedFront(L, R, p) && SharedBack(L, R, s) && a <= |L| && a <= |R| && b <= |L| && b <= |R|
    requires L[..a] == R[..a] && L[|L| - b..] == R[|R| - b..]
    ensures a <= p && b <= s
  {
    if a > p {
      EqualAt(L, R, a, p);
    }
    if b > s {
      EqualFromBack(L, R, b, s);
    }
  }

  lemma DiffersBack(L: seq<Segment>, R: seq<Segment>, b: nat, k: nat)
    requires b <= |L| && b <= |R| && L[|L| - b..] == R[|R| - b..]
    requires k < |L| && k < |R| && L[|L| - 1 - k] != R[|R| - 1 - k]
    ensures b <= k
  {
    if k < b {
      EqualFromBack(L, R, b, k);
    }
  }

  /** Lists of one length that are not equal: what they share does not overlap. */
  lemma SharedApart(L: seq<Segment>, R: seq<Segment>, p: nat, s: nat)
    requires SharedFront(L, R, p) && SharedBack(L, R, s) && |L| == |R| && p < |L|
    ensures p + s < |L|
  {
    DiffersBack(L, R, s, |L| - 1 - p);
  }

  lemma SharedAll(L: seq<Segment>, R: seq<Segment>, p: nat)
    requires SharedFront(L, R, p) && |L| == |R| == p
    ensures L == R
  {
    assert L[..p] == L && R[..p] == R;
  }

  /** `a` segments in front and `b` behind have been taken from both lists. */
  ghost predicate Took(L: seq<Segment>, R: seq<Segment>, w: Walk, a: int, b: int) {
    && Bounded(L, R, w) && 0 <= a && 0 <= b && a + b <= |L| && a + b <= |R|
    && w.prefix == Concat(L[..a]) && w.suffix == Concat(L[|L| - b..])
    && LeftRest(L, w) == Concat(L[a..|L| - b]) && RightRest(R, w) == Concat(R[a..|R| - b])
  }

  /** How far an open walk has come when it stops. */
  lemma OpenStops(L: seq<Segment>, R: seq<Segment>, w: Walk, p: nat, s: nat)
    requires Bounded(L, R, w) && Open(L, R, w) && !Advances(L, R, w) && SharedFront(L, R, p) && SharedBack(L, R, s)
    ensures var a, b, n := w.ls, |L| - 1 - w.le, if |L| < |R| then |L| else |R|;
            && w.rs == a && b == |R| - 1 - w.re && 0 <= b && a <= p && b <= s && a + b < n
            && (a > b ==> b == s) && (a < b ==> a == p)
            && (a + b < n - 1 ==> a == p && b == s)
  {
    hide Concat;
    var a, b := w.ls, |L| - 1 - w.le;
    assert L[|L| - b..] == L[w.le + 1..] && R[|R| - b..] == R[w.re + 1..];
    NotFurther(L, R, p, s, a, b);
    if L[w.ls] != R[w.rs] && a < p {
      EqualAt(L, R, p, a);
    }
    if L[w.le] != R[w.re] && b < s {
      EqualFromBack(L, R, s, b);
    }
  }

  lemma OpenTook(L: seq<Segment>, R: seq<Segment>, w: Walk)
    requires Bounded(L, R, w) && Open(L, R, w)
    ensures Took(L, R, w, w.ls, |L| - 1 - w.le)
  {
    hide Concat;
    assert L[w.ls..|L| - (|L| - 1 - w.le)] == L[w.ls..w.le + 1] && R[w.rs..|R| - (|R| - 1 - w.re)] == R[w.rs..w.re + 1];
  }

  /** What the branches after the loop take from an open walk. */
  lemma SettleTook(L: seq<Segment>, R: seq<Segment>, w: Walk)
    requires Bounded(L, R, w) && Open(L, R, w) && |L| != |R|
    ensures var a, b, n := w.ls, |L| - 1 - w.le, if |L| < |R| then |L| else |R|;
            && a <= n && 0 <= b <= n
            && var x := Settle(L, R, w);
               if a + b < n - 1 then Took(L, R, x, a, b)
               else if L[|L| - 1 - b] == R[|R| - 1 - b] then Took(L, R, x, a, b + 1)
               else if L[a] == R[a] then Took(L, R, x, a + 1, b)
               else Took(L, R, x, a, b)
  {
    hide Concat;
    OpenTook(L, R, w);
    var a, b := w.ls, |L| - 1 - w.le;
    if |L| < |R| {
      if a + b == |L| - 1 {
        ShorterEnds(L, R, w, a, b);
      }
    } else if a + b == |R| - 1 {
      LongerEnds(L, R, w, a, b);
    }
  }

  lemma ShorterEnds(L: seq<Segment>, R: seq<Segment>, w: Walk, a: nat, b: nat)
    requires Bounded(L, R, w) && Open(L, R, w) && |L| < |R| && a == w.ls && b == |L| - 1 - w.le && a + b == |L| - 1
    ensures var x := Settle(L, R, w);
            if L[|L| - 1 - b] == R[|R| - 1 - b] then Took(L, R, x, a, b + 1)
            else if L[a] == R[a] then Took(L, R, x, a + 1, b)
            else Took(L, R, x, a, b)
  {
    hide Concat;
    OpenTook(L, R, w);
    assert w.ls == w.le && w.rs != w.re;
    assert L[a..a] == [] && L[a..|L| - (b + 1)] == [] && L[a + 1..|L| - b] == [];
    assert R[a..|R| - (b + 1)] == R[w.rs..w.re] && R[a + 1..|R| - b] == R[w.rs + 1..w.re + 1];
    ConcatCons(L, w.le);
    ConcatSnoc(L, a);
    assert L[|L| - (b + 1)..] == L[w.le..];
  }

  lemma LongerEnds(L: seq<Segment>, R: seq<Segment>, w: Walk, a: nat, b: nat)
    requires Bounded(L, R, w) && Open(L, R, w) && |L| > |R| && a == w.ls && b == |L| - 1 - w.le && a + b == |R| - 1
    ensures var x := Settle(L, R, w);
            if L[|L| - 1 - b] == R[|R| - 1 - b] then Took(L, R, x, a, b + 1)
            else if L[a] == R[a] then Took(L, R, x, a + 1, b)
            else Took(L, R, x, a, b)
  {
    hide Concat;
    OpenTook(L, R, w);
    assert w.rs == w.re && w.ls != w.le;
    assert R[a..a] == [] && R[a..|R| - (b + 1)] == [] && R[a + 1..|R| - b] == [];
    assert L[a..|L| - (b + 1)] == L[w.ls..w.le] && L[a + 1..|L| - b] == L[w.ls + 1..w.le + 1];
    ConcatCons(L, w.le);
    ConcatSnoc(L, a);
    assert L[|L| - (b + 1)..] == L[w.le..];
  }

  lemma MeetingPoint(a: nat, b: nat, p: nat, s: nat, n: nat)
    requires a <= p && b <= s && a + b == n - 1 && (a > b ==> b == s) && (a < b ==> a == p)
    ensures TakenBack(p, s, n) == (if s > b then b + 1 else b)
    ensures TakenFront(p, s, n) == (if s > b then a else if p > a then a + 1 else a)
  {
  }

  lemma OpenInClosedForm(L: seq<Segment>, R: seq<Segment>, w: Walk, p: nat, s: nat)
    requires Bounded(L, R, w) && Open(L, R, w) && !Advances(L, R, w) && |L| != |R|
    requires SharedFront(L, R, p) && SharedBack(L, R, s)
    ensures var n := if |L| < |R| then |L| else |R|; Took(L, R, Settle(L, R, w), TakenFront(p, s, n), TakenBack(p, s, n))
  {
    hide Concat, Open, Settle, Took;
    var a, b, n := w.ls, |L| - 1 - w.le, if |L| < |R| then |L| else |R|;
    OpenStops(L, R, w, p, s);
    SettleTook(L, R, w);
    if a + b == n - 1 {
      MeetingPoint(a, b, p, s, n);
      if s > b {
        EqualFromBack(L, R, s, b);
      }
      if p > a {
        EqualAt(L, R, p, a);
      }
    }
  }

  lemma EqualLengths(L: seq<Segment>, R: seq<Segment>, w: Walk, p: nat, s: nat)
    requires Bounded(L, R, w) && Open(L, R, w) && !Advances(L, R, w) && |L| == |R| && L != R
    requires SharedFront(L, R, p) && SharedBack(L, R, s)
    ensures Took(L, R, Settle(L, R, w), TakenFront(p, s, |L|), TakenBack(p, s, |L|))
  {
    hide Concat, Open, Took;
    OpenStops(L, R, w, p, s);
    OpenTook(L, R, w);
    if p == |L| {
      SharedAll(L, R, p);
    } else {
      SharedApart(L, R, p, s);
    }
  }

  /** One side is two halves around the other's middle, and nothing is met again. */
  lemma ClosedTook(L: seq<Segment>, R: seq<Segment>, w: Walk)
    requires Bounded(L, R, w) && Closed(L, R, w)
    ensures var k, n := w.ls, if |L| < |R| then |L| else |R|; Took(L, R, w, k, k) && n == 2 * k
  {
    hide Concat;
    var k := w.ls;
    assert (if w.leftDone then w.le else w.le + 1) == |L| - k;
    assert (if w.rightDone then w.re else w.re + 1) == |R| - k;
  }

  lemma ClosedInClosedForm(L: seq<Segment>, R: seq<Segment>, w: Walk, p: nat, s: nat)
    requires Bounded(L, R, w) && Closed(L, R, w) && SharedFront(L, R, p) && SharedBack(L, R, s)
    ensures var n := if |L| < |R| then |L| else |R|; Took(L, R, w, TakenFront(p, s, n), TakenBack(p, s, n))
  {
    hide *;
    ClosedTook(L, R, w);
    ClosedShares(L, R, w);
    NotFurther(L, R, p, s, w.ls, w.ls);
    MeetingHalf(w.ls, p, s);
  }

  lemma MeetingHalf(k: nat, p: nat, s: nat)
    requires k <= p && k <= s
    ensures TakenBack(p, s, 2 * k) == k && TakenFront(p, s, 2 * k) == k
  {
  }

  lemma ClosedShares(L: seq<Segment>, R: seq<Segment>, w: Walk)
    requires Bounded(L, R, w) && Closed(L, R, w)
    ensures w.ls <= |L| && w.ls <= |R| && L[..w.ls] == R[..w.ls] && L[|L| - w.ls..] == R[|R| - w.ls..]
  {
    hide Concat;
  }

  lemma BothDoneEqual(L: seq<Segment>, R: seq<Segment>, w: Walk)
    requires Bounded(L, R, w) && Closed(L, R, w) && w.leftDone && w.rightDone
    ensures L == R
  {
    hide Concat;
    var k := w.ls;
    assert L == L[..k] + L[|L| - k..] && R == R[..k] + R[|R| - k..];
  }

  lemma NotMetAgain(L: seq<Segment>, R: seq<Segment>, w: Walk)
    requires Bounded(L, R, w) && Closed(L, R, w) && w.leftDone != w.rightDone && !CountsTwice(L, R) && !CountsTwice(R, L)
    ensures Settle(L, R, w) == w
  {
    hide Concat;
    ClosedWraps(L, R, w);
    if w.leftDone {
      StopIndices(L, R, w);
    } else {
      SettleSwap(L, R, w);
      ClosedSwap(L, R, w);
      StopIndices(R, L, Swap(w));
    }
  }

  lemma ClosedSwap(L: seq<Segment>, R: seq<Segment>, w: Walk)
    requires Bounded(L, R, w) && Closed(L, R, w)
    ensures Bounded(R, L, Swap(w)) && Closed(R, L, Swap(w))
  {
    hide Concat;
  }

  /** Main result on the walk: two different inputs, none of whose segments is counted twice, with `p` segments shared
      in front and `s` behind, are cut at places that depend on `p`, `s` and the shorter length alone. */
  lemma WalkInClosedForm(L: seq<Segment>, R: seq<Segment>, p: nat, s: nat)
    requires L != [] && R != [] && L != R && SharedFront(L, R, p) && SharedBack(L, R, s)
    requires !CountsTwice(L, R) && !CountsTwice(R, L)
    ensures var n := if |L| < |R| then |L| else |R|; Took(L, R, WalkOf(L, R), TakenFront(p, s, n), TakenBack(p, s, n))
  {
    hide Concat, Open, Closed, Took, Run, Settle, SharedFront, SharedBack, CountsTwice, TakenFront, TakenBack, Wraps;
    FlagMeaning(L, R);
    var w := Run(L, R, Start(L, R));
    if w.leftDone || w.rightDone {
      if w.leftDone && w.rightDone {
        BothDoneEqual(L, R, w);
      } else {
        NotMetAgain(L, R, w);
        ClosedInClosedForm(L, R, w, p, s);
      }
    } else if |L| == |R| {
      EqualLengths(L, R, w, p, s);
    } else {
      OpenInClosedForm(L, R, w, p, s);
    }
  }

  // ---- Two markers ----

  /** Two different markers have nothing in common. */
  lemma TwoMarkers(x: string, y: string)
    requires IsMarker(x) && IsMarker(y) && x != y
    ensures Split(x, y) == DiffSplit("", "", x, y)
  {
    var a, b := Segment(Marker, x), Segment(Marker, y);
    MarkersSegment([a]);
    MarkersSegment([b]);
    OneSegment(a);
    OneSegment(b);
    MarkerWalk(a, b);
    hide *;
    var p, s := FinishMeans(x, y, [a], [b], WalkOf([a], [b]));
    SplitFinishes(x, y);
    assert x[0..|x|] == x && y[0..|y|] == y && "" + "" == "";
  }

  /** The walk of two segments stops at once. */
  lemma MarkerWalk(a: Segment, b: Segment)
    requires a.kind == b.kind == Marker && a != b && a.value != "" && b.value != ""
    ensures var w := WalkOf([a], [b]);
            && w.prefix == "" && w.suffix == "" && LeftRest([a], w) == a.value && RightRest([b], w) == b.value
            && !TextAtStart([a], [b], w) && !TextAtEnd([a], [b], w)
  {
    hide Concat;
    OneSegment(a);
    OneSegment(b);
  }

  lemma OneSegment(a: Segment)
    ensures Concat([a]) == a.value && [a][0..1] == [a]
  {
    assert [a][1..] == [];
    assert Concat([a]) == a.value + Concat([]);
  }

  predicate PlainText(t: string) {
    t != "" && NoOpener(t)
  }

  lemma TagSegments(t: string, x: string, u: string)
    requires PlainText(t) && IsMarker(x) && PlainText(u)
    ensures var a, b, c := Segment(Text, t), Segment(Marker, x), Segment(Text, u);
            && Concat([a, b]) == t + x && Segments(t + x) == [a, b]
            && Concat([a, b, c]) == t + x + u && Segments(t + x + u) == [a, b, c]
            && Concat([a]) == t && Concat([b]) == x && Concat([b, c]) == x + u
  {
    var a, b, c := Segment(Text, t), Segment(Marker, x), Segment(Text, u);
    OneSegment(a);
    OneSegment(b);
    OneSegment(c);
    assert [a, b][1..] == [b] && [b, c][1..] == [c] && [a, b, c][1..] == [b, c];
    assert Concat([a, b, c]) == t + (x + u) == t + x + u;
    assert forall i :: 0 <= i < 2 ==> GoodAt([a, b], i);
    assert forall i :: 0 <= i < 3 ==> GoodAt([a, b, c], i);
    SegmentationIsUnique(t + x, [a, b]);
    SegmentationIsUnique(t + x + u, [a, b, c]);
  }

  lemma TagWalk(a: Segment, b: Segment, c: Segment, d: Segment)
    requires a.kind == Text && b.kind == c.kind == Marker && d.kind == Text && b != c
    ensures var L, R := [a, b], [a, c, d];
            var w := WalkOf(L, R);
            && SharedFront(L, R, 1) && SharedBack(L, R, 0) && !CountsTwice(L, R) && !CountsTwice(R, L)
            && w.ls == w.le == 1 && w.rs == 1 && w.re == 2
  {
    hide Concat;
    var L, R := [a, b], [a, c, d];
    assert L[..1] == R[..1] && L[2..] == R[3..];
    assert L[1] != R[2];
    assert Start(L, R).ls == 0;
  }

  /** A shared text and then two different markers: the text is the prefix, and the markers are whole. */
  lemma TextThenMarkers(t: string, x: string, y: string, u: string)
    requires PlainText(t) && IsMarker(x) && IsMarker(y) && x != y && PlainText(u)
    ensures Split(t + x, t + y + u) == DiffSplit(t, "", x, y + u)
  {
    var a, b, c, d := Segment(Text, t), Segment(Marker, x), Segment(Marker, y), Segment(Text, u);
    TagSegments(t, x, u);
    TagSegments(t, y, u);
    TagWalk(a, b, c, d);
    var L, R := [a, b], [a, c, d];
    var w := WalkOf(L, R);
    assert L[..1] == [a] && L[2..] == [] && L[1..2] == [b] && R[1..3] == [c, d] && L[1] == b;
    WalkInClosedForm(L, R, 1, 0);
    TookOneSegment(L, R, w);
    assert !TextAtStart(L, R, w) && !TextAtEnd(L, R, w);
    hide *;
    var p, s := FinishMeans(t + x, t + y + u, L, R, w);
    SplitFinishes(t + x, t + y + u);
    WholeParts(t, x, y + u);
  }

  lemma TookOneSegment(L: seq<Segment>, R: seq<Segment>, w: Walk)
    requires |L| == 2 && |R| == 3 && Took(L, R, w, TakenFront(1, 0, 2), TakenBack(1, 0, 2))
    ensures w.prefix == Concat(L[..1]) && w.suffix == "" && LeftRest(L, w) == Concat(L[1..2]) && RightRest(R, w) == Concat(R[1..3])
  {
    hide Concat;
    NothingOfNothing();
    assert L[2..] == [];
  }

  lemma WholeParts(t: string, x: string, y: string)
    ensures t + "" == t && "" + "" == "" && x[0..|x| - 0] == x && y[0..|y| - 0] == y
  {
  }
}
