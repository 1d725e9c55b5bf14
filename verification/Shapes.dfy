/** Row-major index arithmetic of tensors: how `reshape`, `permute` and indexing move elements of
    the flat storage. Used by the model of engine/convert_lora_to_gguf.py. */
module Shapes {

  function Size(shape: seq<nat>): nat {
    if shape == [] then 1 else shape[0] * Size(shape[1..])
  }

  predicate InShape(shape: seq<nat>, idx: seq<nat>) {
    |idx| == |shape| && forall i :: 0 <= i < |idx| ==> idx[i] < shape[i]
  }

  /** Position of a multi-index in row-major storage. */
  function Flatten(shape: seq<nat>, idx: seq<nat>): nat
    requires |idx| == |shape|
  {
    if shape == [] then 0 else idx[0] * Size(shape[1..]) + Flatten(shape[1..], idx[1..])
  }

  /** The multi-index stored at a position. */
  function Unflatten(shape: seq<nat>, f: nat): (idx: seq<nat>)
    requires f < Size(shape)
    ensures InShape(shape, idx)
  {
    if shape == [] then []
    else
      var n := Size(shape[1..]);
      DivBound(f, shape[0], n);
      [f / n] + Unflatten(shape[1..], f % n)
  }

  lemma MulMono(a: nat, b: nat, n: nat)
    ensures a <= b ==> a * n <= b * n
  {
  }

  lemma DivBound(f: nat, m: nat, n: nat)
    requires f < m * n
    ensures n > 0 && f / n < m && f % n < n && f == (f / n) * n + f % n
  {
    assert n != 0;
    MulMono(m, f / n, n);
  }

  lemma DivMod(q: nat, r: nat, n: nat)
    requires r < n
    ensures (q * n + r) / n == q && (q * n + r) % n == r
  {
    var f := q * n + r;
    assert f == (f / n) * n + f % n;
    MulMono(f / n + 1, q, n);
    MulMono(q + 1, f / n, n);
  }

  lemma MulBound(q: nat, m: nat, r: nat, n: nat)
    requires q < m && r < n
    ensures q * n + r < m * n
  {
    assert (q + 1) * n <= m * n;
  }

  lemma {:induction false} FlattenBound(shape: seq<nat>, idx: seq<nat>)
    requires InShape(shape, idx)
    ensures Flatten(shape, idx) < Size(shape)
  {
    if shape != [] {
      FlattenBound(shape[1..], idx[1..]);
      MulBound(idx[0], shape[0], Flatten(shape[1..], idx[1..]), Size(shape[1..]));
    }
  }

  lemma {:induction false} FlattenUnflatten(shape: seq<nat>, f: nat)
    requires f < Size(shape)
    ensures Flatten(shape, Unflatten(shape, f)) == f
  {
    if shape != [] {
      var n := Size(shape[1..]);
      DivBound(f, shape[0], n);
      FlattenUnflatten(shape[1..], f % n);
      var idx := Unflatten(shape, f);
      assert idx[1..] == Unflatten(shape[1..], f % n);
    }
  }

  lemma {:induction false} UnflattenFlatten(shape: seq<nat>, idx: seq<nat>)
    requires InShape(shape, idx)
    ensures Flatten(shape, idx) < Size(shape) && Unflatten(shape, Flatten(shape, idx)) == idx
  {
    FlattenBound(shape, idx);
    if shape != [] {
      var n, rest := Size(shape[1..]), Flatten(shape[1..], idx[1..]);
      UnflattenFlatten(shape[1..], idx[1..]);
      DivMod(idx[0], rest, n);
      assert idx == [idx[0]] + idx[1..];
    }
  }

  // ---- Permuting axes ----

  /** Every axis named exactly once. */
  predicate IsPermutation(p: seq<nat>) {
    Below(p, |p|) && Distinct(p) && Covers(p)
  }

  predicate Below(p: seq<nat>, n: nat) {
    forall i :: 0 <= i < |p| ==> p[i] < n
  }

  predicate Distinct(p: seq<nat>) {
    forall i, j :: 0 <= i < j < |p| ==> p[i] != p[j]
  }

  predicate Covers(p: seq<nat>) {
    forall a: nat :: a < |p| ==> a in p
  }

  function Position(p: seq<nat>, a: nat): (i: nat)
    requires a in p
    ensures i < |p| && p[i] == a
  {
    if p[0] == a then 0 else 1 + Position(p[1..], a)
  }

  function Inverse(p: seq<nat>): (q: seq<nat>)
    requires IsPermutation(p)
    ensures |q| == |p| && Below(q, |p|)
    ensures forall a :: 0 <= a < |p| ==> q[a] < |p| && p[q[a]] == a
    ensures forall i :: 0 <= i < |p| ==> q[p[i]] == i
  {
    seq(|p|, a requires 0 <= a < |p| => Position(p, a))
  }

  /** The entries of `s` in the order `p` names them. */
  function Axes(s: seq<nat>, p: seq<nat>): (r: seq<nat>)
    requires Below(p, |s|)
    ensures |r| == |p| && forall j :: 0 <= j < |p| ==> r[j] == s[p[j]]
  {
    seq(|p|, j requires 0 <= j < |p| => s[p[j]])
  }

  ghost predicate Permutes(shape: seq<nat>, p: seq<nat>) {
    |p| == |shape| && IsPermutation(p)
  }

  lemma AxesInverse(idx: seq<nat>, p: seq<nat>)
    requires |p| == |idx| && IsPermutation(p)
    ensures Axes(Axes(idx, p), Inverse(p)) == idx
    ensures Axes(Axes(idx, Inverse(p)), p) == idx
  {
  }

  /** Where position `f` of the permuted tensor comes from. */
  function Source(shape: seq<nat>, p: seq<nat>, f: nat): (s: nat)
    requires Permutes(shape, p) && f < Size(Axes(shape, p))
    ensures s < Size(shape)
  {
    var idx := Axes(Unflatten(Axes(shape, p), f), Inverse(p));
    FlattenBound(shape, idx);
    Flatten(shape, idx)
  }

  /** Where position `s` of the original tensor goes to. */
  function Target(shape: seq<nat>, p: seq<nat>, s: nat): (f: nat)
    requires Permutes(shape, p) && s < Size(shape)
    ensures f < Size(Axes(shape, p))
  {
    var idx := Axes(Unflatten(shape, s), p);
    FlattenBound(Axes(shape, p), idx);
    Flatten(Axes(shape, p), idx)
  }

  lemma TargetOfSource(shape: seq<nat>, p: seq<nat>, f: nat)
    requires Permutes(shape, p) && f < Size(Axes(shape, p))
    ensures Target(shape, p, Source(shape, p, f)) == f
  {
    hide Flatten, Unflatten, Size, Distinct, Covers, Inverse, Axes;
    var idx' := Unflatten(Axes(shape, p), f);
    AxesInverse(idx', p);
    UnflattenFlatten(shape, Axes(idx', Inverse(p)));
    FlattenUnflatten(Axes(shape, p), f);
  }

  lemma SourceOfTarget(shape: seq<nat>, p: seq<nat>, s: nat)
    requires Permutes(shape, p) && s < Size(shape)
    ensures Source(shape, p, Target(shape, p, s)) == s
  {
    hide Flatten, Unflatten, Size, Distinct, Covers, Inverse, Axes;
    var idx := Unflatten(shape, s);
    AxesInverse(idx, p);
    UnflattenFlatten(Axes(shape, p), Axes(idx, p));
    FlattenUnflatten(shape, s);
  }

  /** Permuting axes is a bijection of the flat positions, for every shape and every permutation. */
  lemma PermuteBijection(shape: seq<nat>, p: seq<nat>)
    requires Permutes(shape, p)
    ensures forall f: nat :: f < Size(Axes(shape, p)) ==> Target(shape, p, Source(shape, p, f)) == f
    ensures forall s: nat :: s < Size(shape) ==> Source(shape, p, Target(shape, p, s)) == s
  {
    forall f: nat | f < Size(Axes(shape, p))
      ensures Target(shape, p, Source(shape, p, f)) == f
    {
      TargetOfSource(shape, p, f);
    }
    forall s: nat | s < Size(shape)
      ensures Source(shape, p, Target(shape, p, s)) == s
    {
      SourceOfTarget(shape, p, s);
    }
  }

  /** The element at multi-index `idx` ends up where the permuted multi-index points. */
  lemma PermuteMeaning(shape: seq<nat>, p: seq<nat>, idx: seq<nat>)
    requires Permutes(shape, p) && InShape(shape, idx)
    ensures var f := Flatten(Axes(shape, p), Axes(idx, p));
            f < Size(Axes(shape, p)) && Source(shape, p, f) == Flatten(shape, idx)
  {
    UnflattenFlatten(Axes(shape, p), Axes(idx, p));
    AxesInverse(idx, p);
  }

  /** The sources of all positions of the permuted tensor, in order. */
  function PermutedRows(shape: seq<nat>, p: seq<nat>): (ix: seq<nat>)
    requires Permutes(shape, p)
    ensures |ix| == Size(Axes(shape, p))
    ensures forall f :: 0 <= f < |ix| ==> ix[f] == Source(shape, p, f) && ix[f] < Size(shape)
  {
    seq(Size(Axes(shape, p)), f requires 0 <= f < Size(Axes(shape, p)) => Source(shape, p, f))
  }

  /** The permutation that leaves a new first axis alone and acts as `p` on the others. */
  function Under(p: seq<nat>): (q: seq<nat>)
    ensures |q| == |p| + 1 && q[0] == 0 && forall i :: 0 < i < |q| ==> q[i] == p[i - 1] + 1
  {
    [0] + seq(|p|, i requires 0 <= i < |p| => p[i] + 1)
  }

  lemma UnderDistinct(p: seq<nat>)
    requires Distinct(p) && Below(p, |p|)
    ensures Distinct(Under(p)) && Below(Under(p), |p| + 1)
  {
    var q := Under(p);
    assert forall i :: 0 < i < |q| ==> q[i] == p[i - 1] + 1;
  }

  lemma UnderPermutes(shape: seq<nat>, p: seq<nat>, n: nat)
    requires Permutes(shape, p)
    ensures Permutes([n] + shape, Under(p))
    ensures Axes([n] + shape, Under(p)) == [n] + Axes(shape, p)
  {
    var q := Under(p);
    forall a: nat | a < |q|
      ensures a in q
    {
      if a > 0 {
        assert q[Position(p, a - 1) + 1] == a;
      } else {
        assert q[0] == 0;
      }
    }
    assert Covers(q);
    UnderDistinct(p);
    AxesUnder(n, shape, p);
  }

  lemma FlattenCons(n: nat, shape: seq<nat>, row: nat, idx: seq<nat>)
    requires |idx| == |shape|
    ensures InShape(shape, idx) && row < n ==> InShape([n] + shape, [row] + idx)
    ensures Flatten([n] + shape, [row] + idx) == row * Size(shape) + Flatten(shape, idx)
    ensures Size([n] + shape) == n * Size(shape)
  {
    assert ([n] + shape)[1..] == shape && ([row] + idx)[1..] == idx;
  }

  lemma InverseInShape(shape: seq<nat>, p: seq<nat>, idx': seq<nat>)
    requires Permutes(shape, p) && InShape(Axes(shape, p), idx')
    ensures |idx'| == |p| && InShape(shape, Axes(idx', Inverse(p)))
  {
  }

  lemma AxesUnder(row: nat, idx: seq<nat>, p: seq<nat>)
    requires |p| == |idx| && IsPermutation(p)
    ensures Axes([row] + idx, Under(p)) == [row] + Axes(idx, p)
  {
    hide Distinct, Covers;
    var big, q := [row] + idx, Under(p);
    var l, r := Axes(big, q), [row] + Axes(idx, p);
    assert |l| == |r|;
    forall j | 0 <= j < |l|
      ensures l[j] == r[j]
    {
      if j > 0 {
        assert q[j] == p[j - 1] + 1;
        assert l[j] == big[p[j - 1] + 1] == idx[p[j - 1]];
      }
    }
  }

  /** Permuting below a first axis permutes the columns of every row alike: `reshape`, `permute` and
      `reshape` on the columns of a matrix move whole columns. */
  lemma PermuteUnder(shape: seq<nat>, p: seq<nat>, n: nat, row: nat, f: nat)
    requires Permutes(shape, p) && row < n && f < Size(Axes(shape, p))
    ensures var big := [n] + shape; var f' := row * Size(Axes(shape, p)) + f;
            && Permutes(big, Under(p)) && f' < Size(Axes(big, Under(p)))
            && Source(big, Under(p), f') == row * Size(shape) + Source(shape, p, f)
  {
    hide Flatten, Unflatten, Size, Distinct, Covers, Inverse, Axes, Under, Source, InShape;
    UnderPermutes(shape, p, n);
    var big, q := [n] + shape, Under(p);
    var idx' := Unflatten(Axes(shape, p), f);
    InverseInShape(shape, p, idx');
    var idx := Axes(idx', Inverse(p));
    AxesInverse(idx', p);
    assert Flatten(big, [row] + idx) == row * Size(shape) + Source(shape, p, f) by {
      FlattenUnflatten(Axes(shape, p), f);
      PermuteMeaning(shape, p, idx);
      FlattenCons(n, shape, row, idx);
    }
    assert Flatten(Axes(big, q), Axes([row] + idx, q)) == row * Size(Axes(shape, p)) + f by {
      FlattenUnflatten(Axes(shape, p), f);
      AxesUnder(row, idx, p);
      FlattenCons(n, Axes(shape, p), row, idx');
    }
    assert InShape(big, [row] + idx) by {
      FlattenCons(n, shape, row, idx);
    }
    PermuteMeaning(big, q, [row] + idx);
  }

  // ---- Indexing ----

  predicate GoodPicks(shape: seq<nat>, picks: seq<seq<nat>>) {
    |picks| == |shape| && forall a, i :: 0 <= a < |picks| && 0 <= i < |picks[a]| ==> picks[a][i] < shape[a]
  }

  function Counts(picks: seq<seq<nat>>): (c: seq<nat>)
    ensures |c| == |picks| && forall a :: 0 <= a < |c| ==> c[a] == |picks[a]|
  {
    seq(|picks|, a requires 0 <= a < |picks| => |picks[a]|)
  }

  function Chosen(picks: seq<seq<nat>>, idx: seq<nat>): (r: seq<nat>)
    requires InShape(Counts(picks), idx)
    ensures |r| == |picks| && forall a :: 0 <= a < |r| ==> r[a] == picks[a][idx[a]]
  {
    seq(|picks|, a requires 0 <= a < |picks| => picks[a][idx[a]])
  }

  function SelectedRow(shape: seq<nat>, picks: seq<seq<nat>>, f: nat): (r: nat)
    requires GoodPicks(shape, picks) && f < Size(Counts(picks))
    ensures r < Size(shape)
  {
    var idx := Chosen(picks, Unflatten(Counts(picks), f));
    FlattenBound(shape, idx);
    Flatten(shape, idx)
  }

  /** Flat positions selected by choosing along every axis, in row-major order of the result. */
  function SelectedRows(shape: seq<nat>, picks: seq<seq<nat>>): (ix: seq<nat>)
    requires GoodPicks(shape, picks)
    ensures |ix| == Size(Counts(picks))
    ensures forall f :: 0 <= f < |ix| ==> ix[f] == SelectedRow(shape, picks, f)
  {
    seq(Size(Counts(picks)), f requires 0 <= f < Size(Counts(picks)) => SelectedRow(shape, picks, f))
  }

  /** Element `idx` of the selection is element `picks[a][idx[a]]` along every axis of the original. */
  lemma SelectMeaning(shape: seq<nat>, picks: seq<seq<nat>>, idx: seq<nat>)
    requires GoodPicks(shape, picks) && InShape(Counts(picks), idx)
    ensures var f := Flatten(Counts(picks), idx);
            f < Size(Counts(picks)) && SelectedRows(shape, picks)[f] == Flatten(shape, Chosen(picks, idx))
  {
    UnflattenFlatten(Counts(picks), idx);
  }

  // ---- A last axis ----

  lemma {:induction false} SizeSnoc(shape: seq<nat>, n: nat)
    ensures Size(shape + [n]) == Size(shape) * n
  {
    if shape == [] {
      assert [n][1..] == [] && shape + [n] == [n];
      assert Size([n]) == n * Size([]);
    } else {
      SizeSnoc(shape[1..], n);
      assert (shape + [n])[1..] == shape[1..] + [n];
      calc {
        Size(shape + [n]);
        shape[0] * (Size(shape[1..]) * n);
        (shape[0] * Size(shape[1..])) * n;
      }
    }
  }

  lemma {:induction false} FlattenSnoc(shape: seq<nat>, n: nat, idx: seq<nat>, c: nat)
    requires |idx| == |shape|
    ensures Flatten(shape + [n], idx + [c]) == Flatten(shape, idx) * n + c
  {
    if shape == [] {
      assert shape + [n] == [n] && idx + [c] == [c] && [n][1..] == [] && [c][1..] == [];
      assert Flatten([n], [c]) == c * Size([]) + Flatten([], []);
    } else {
      var rest, last := shape[1..], Flatten(shape[1..], idx[1..]);
      FlattenSnoc(rest, n, idx[1..], c);
      SizeSnoc(rest, n);
      assert (shape + [n])[1..] == rest + [n] && (idx + [c])[1..] == idx[1..] + [c];
      Distribute(idx[0], Size(rest), last, n, c);
    }
  }

  lemma Distribute(i: nat, s: nat, l: nat, n: nat, c: nat)
    ensures i * (s * n) + (l * n + c) == (i * s + l) * n + c
  {
    assert i * (s * n) == (i * s) * n;
    assert (i * s + l) * n == (i * s) * n + l * n;
  }

  lemma UnflattenSnoc(shape: seq<nat>, n: nat, r: nat, c: nat)
    requires r < Size(shape) && c < n
    ensures r * n + c < Size(shape + [n])
    ensures Unflatten(shape + [n], r * n + c) == Unflatten(shape, r) + [c]
  {
    hide Flatten, Unflatten, Size;
    var idx := Unflatten(shape, r);
    FlattenUnflatten(shape, r);
    FlattenSnoc(shape, n, idx, c);
    SizeSnoc(shape, n);
    MulBound(r, Size(shape), c, n);
    assert InShape(shape + [n], idx + [c]);
    UnflattenFlatten(shape + [n], idx + [c]);
  }

  /** Choosing along the leading axes and along the last one. */
  lemma SelectedSnoc(shape: seq<nat>, n: nat, picks: seq<seq<nat>>, last: seq<nat>, r: nat, c: nat)
    requires GoodPicks(shape, picks) && (forall i :: 0 <= i < |last| ==> last[i] < n)
    requires r < Size(Counts(picks)) && c < |last|
    ensures GoodPicks(shape + [n], picks + [last]) && r * |last| + c < Size(Counts(picks + [last]))
    ensures SelectedRow(shape + [n], picks + [last], r * |last| + c) == SelectedRow(shape, picks, r) * n + last[c]
  {
    hide Flatten, Unflatten, Size;
    CountsSnoc(picks, last);
    UnflattenSnoc(Counts(picks), |last|, r, c);
    var idx := Unflatten(Counts(picks), r);
    ChosenSnoc(picks, last, idx, c);
    FlattenSnoc(shape, n, Chosen(picks, idx), last[c]);
  }

  lemma CountsSnoc(picks: seq<seq<nat>>, last: seq<nat>)
    ensures Counts(picks + [last]) == Counts(picks) + [|last|]
  {
  }

  lemma ChosenSnoc(picks: seq<seq<nat>>, last: seq<nat>, idx: seq<nat>, c: nat)
    requires InShape(Counts(picks), idx) && c < |last|
    ensures InShape(Counts(picks + [last]), idx + [c])
    ensures Chosen(picks + [last], idx + [c]) == Chosen(picks, idx) + [last[c]]
  {
  }

  /** The permutation that leaves a new last axis alone and acts as `p` on the others. */
  function Over(p: seq<nat>): (q: seq<nat>)
    ensures |q| == |p| + 1 && q[|p|] == |p| && q[..|p|] == p
  {
    p + [|p|]
  }

  lemma OverPermutes(shape: seq<nat>, p: seq<nat>, n: nat)
    requires Permutes(shape, p)
    ensures Permutes(shape + [n], Over(p)) && Axes(shape + [n], Over(p)) == Axes(shape, p) + [n]
  {
    var q := Over(p);
    forall a: nat | a < |q|
      ensures a in q
    {
      if a < |p| {
        assert a in p;
      } else {
        assert q[|p|] == a;
      }
    }
    assert Distinct(q) && Below(q, |q|);
  }

  lemma AxesOver(idx: seq<nat>, p: seq<nat>, c: nat)
    requires |p| == |idx| && Below(p, |p|)
    ensures Below(Over(p), |idx| + 1) && Axes(idx + [c], Over(p)) == Axes(idx, p) + [c]
  {
  }

  /** Permuting the leading axes moves whole rows, whatever the length of the last axis. */
  lemma SourceOver(shape: seq<nat>, p: seq<nat>, n: nat, r: nat, c: nat)
    requires Permutes(shape, p) && r < Size(Axes(shape, p)) && c < n
    ensures var big := shape + [n]; var f := r * n + c;
            && Permutes(big, Over(p)) && f < Size(Axes(big, Over(p)))
            && Source(big, Over(p), f) == Source(shape, p, r) * n + c
  {
    hide Flatten, Unflatten, Size, Distinct, Covers, Inverse, Axes, Over, Source, InShape;
    OverPermutes(shape, p, n);
    var idx' := Unflatten(Axes(shape, p), r);
    InverseInShape(shape, p, idx');
    var idx := Axes(idx', Inverse(p));
    AxesInverse(idx', p);
    FlattenUnflatten(Axes(shape, p), r);
    PermuteMeaning(shape, p, idx);
    AxesOver(idx, p, c);
    FlattenSnoc(Axes(shape, p), n, idx', c);
    FlattenSnoc(shape, n, idx, c);
    SnocInShape(shape, n, idx, c);
    PermuteMeaning(shape + [n], Over(p), idx + [c]);
  }

  lemma SnocInShape(shape: seq<nat>, n: nat, idx: seq<nat>, c: nat)
    requires InShape(shape, idx) && c < n
    ensures InShape(shape + [n], idx + [c])
  {
  }

  const SWAP: seq<nat> := [1, 0]

  /** Exchanging the two axes of a matrix. */
  lemma SourceSwap(rows: nat, cols: nat, r: nat, c: nat)
    requires r < rows && c < cols
    ensures Permutes([rows, cols], SWAP) && Axes([rows, cols], SWAP) == [cols, rows]
    ensures c * rows + r < Size([cols, rows]) && Source([rows, cols], SWAP, c * rows + r) == r * cols + c
  {
    hide Flatten, Unflatten, Size, Source;
    SwapIsPermutation();
    assert Axes([r, c], SWAP) == [c, r];
    PermuteMeaning([rows, cols], SWAP, [r, c]);
    FlattenTwo(cols, rows, c, r);
    FlattenTwo(rows, cols, r, c);
  }

  lemma SwapIsPermutation()
    ensures IsPermutation(SWAP)
  {
    assert SWAP[0] == 1 && SWAP[1] == 0;
  }

  lemma FlattenTwo(rows: nat, cols: nat, r: nat, c: nat)
    ensures Flatten([rows, cols], [r, c]) == r * cols + c && Size([rows, cols]) == rows * cols
  {
    SizeSnoc([rows], cols);
    FlattenSnoc([rows], cols, [r], c);
    assert [rows] + [cols] == [rows, cols] && [r] + [c] == [r, c];
    assert [rows][1..] == [] && [r][1..] == [];
    assert Size([rows]) == rows * Size([]) && Flatten([rows], [r]) == r * Size([]) + Flatten([], []);
  }

  /** Everything along every axis. */
  function Everything(shape: seq<nat>): (r: seq<seq<nat>>)
    ensures GoodPicks(shape, r) && Counts(r) == shape
    ensures forall a, i :: 0 <= a < |r| && 0 <= i < |r[a]| ==> r[a][i] == i
  {
    seq(|shape|, a requires 0 <= a < |shape| => UpTo(shape[a]))
  }

  function UpTo(n: nat): (r: seq<nat>)
    ensures |r| == n && forall i :: 0 <= i < n ==> r[i] == i
  {
    seq(n, i requires 0 <= i => i)
  }

  /** Choosing everything changes nothing. */
  lemma SelectedEverything(shape: seq<nat>)
    ensures SelectedRows(shape, Everything(shape)) == UpTo(Size(shape))
  {
    hide Flatten, Unflatten, Size;
    forall f: nat | f < Size(shape)
      ensures SelectedRow(shape, Everything(shape), f) == f
    {
      var idx := Unflatten(shape, f);
      assert Chosen(Everything(shape), idx) == idx;
      FlattenUnflatten(shape, f);
    }
  }

  /** The row of a position in storage of `rows` rows of length `n`. */
  function RowAt(f: nat, rows: nat, n: nat): (r: nat)
    requires f < rows * n
    ensures r < rows
  {
    DivBound(f, rows, n);
    f / n
  }
}
