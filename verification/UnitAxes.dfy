/** Broadcasting: the axes of one tensor against those of another. Each has length 1 and serves all
    positions, or the length of the other's axis. This is how the axes in front of factor `A` of a
    low-rank weight serve those of the weight (engine/convert_lora_to_gguf.py). */
module UnitAxes {
  import opened Common
  import opened Shapes

  ghost predicate Paired(units: seq<nat>, batch: seq<nat>) {
    |units| == |batch| && forall i :: 0 <= i < |units| ==> units[i] == 1 || units[i] == batch[i]
  }

  /** Axis by axis, equal lengths or one of them 1. */
  function Broadcast(x: seq<nat>, y: seq<nat>): (r: Option<seq<nat>>)
    requires |x| == |y|
    ensures r.Some? ==> Paired(x, r.value) && Paired(y, r.value)
  {
    if x == [] then Some([])
    else
      var rest := Broadcast(x[1..], y[1..]);
      if rest.None? then None
      else if x[0] == y[0] || y[0] == 1 then Some([x[0]] + rest.value)
      else if x[0] == 1 then Some([y[0]] + rest.value)
      else None
  }

  lemma {:induction false} BroadcastPaired(batch: seq<nat>, units: seq<nat>)
    requires Paired(units, batch)
    ensures Broadcast(batch, units) == Some(batch)
  {
    if batch != [] {
      assert Paired(units[1..], batch[1..]);
      BroadcastPaired(batch[1..], units[1..]);
      assert [batch[0]] + batch[1..] == batch;
    }
  }

  lemma {:induction false} BroadcastSnoc(x: seq<nat>, m: nat, y: seq<nat>, n: nat)
    requires |x| == |y|
    ensures var init := Broadcast(x, y);
            Broadcast(x + [m], y + [n]) ==
            if init.None? || !(m == n || m == 1 || n == 1) then None
            else Some(init.value + [if m == 1 then n else m])
  {
    if x == [] {
      assert x + [m] == [m] && y + [n] == [n] && [m][1..] == [] && [n][1..] == [];
      assert Broadcast([], []) == Some([]);
      assert [] + [if m == 1 then n else m] == [if m == 1 then n else m] + [];
    } else {
      BroadcastSnoc(x[1..], m, y[1..], n);
      assert (x + [m])[1..] == x[1..] + [m] && (y + [n])[1..] == y[1..] + [n];
      var rest, last, head := Broadcast(x[1..], y[1..]), [if m == 1 then n else m], [if x[0] == 1 then y[0] else x[0]];
      if rest.Some? {
        assert head + (rest.value + last) == (head + rest.value) + last;
      }
    }
  }

  /** A position of the weight, seen from `A`. */
  function Clip(idx: seq<nat>, units: seq<nat>): (r: seq<nat>)
    requires |idx| == |units|
    ensures |r| == |idx| && forall i :: 0 <= i < |idx| ==> r[i] == if units[i] == 1 then 0 else idx[i]
  {
    seq(|idx|, i requires 0 <= i < |idx| => if units[i] == 1 then 0 else idx[i])
  }

  lemma ClipInShape(units: seq<nat>, batch: seq<nat>, idx: seq<nat>)
    requires Paired(units, batch) && InShape(batch, idx)
    ensures InShape(units, Clip(idx, units))
  {
  }

  /** The matrix of `A` that serves position `q` of the batch axes. */
  function UnitAt(units: seq<nat>, batch: seq<nat>, q: nat): (u: nat)
    requires Paired(units, batch) && q < Size(batch)
    ensures u < Size(units)
  {
    var idx := Unflatten(batch, q);
    ClipInShape(units, batch, idx);
    FlattenBound(units, Clip(idx, units));
    Flatten(units, Clip(idx, units))
  }

  /** For every row of a weight of shape `batch + [len]`, the matrix of `A` that serves it. */
  function UnitRows(units: seq<nat>, batch: seq<nat>, len: nat): (us: seq<nat>)
    requires Paired(units, batch)
    ensures |us| == Size(batch) * len && forall r :: 0 <= r < |us| ==> us[r] < Size(units)
  {
    seq(Size(batch) * len, r requires 0 <= r < Size(batch) * len => UnitAt(units, batch, RowAt(r, Size(batch), len)))
  }

  lemma UnitRowIs(units: seq<nat>, batch: seq<nat>, len: nat, q: nat, s: nat)
    requires Paired(units, batch) && q < Size(batch) && s < len
    ensures q * len + s < Size(batch) * len && UnitRows(units, batch, len)[q * len + s] == UnitAt(units, batch, q)
  {
    MulBound(q, Size(batch), s, len);
    DivMod(q, s, len);
  }

  // ---- Dropping axes of length 1 ----

  /** What is left of `s` where the mask is false. */
  function Keep(drop: seq<bool>, s: seq<nat>): seq<nat>
    requires |drop| == |s|
  {
    if s == [] then [] else (if drop[0] then [] else [s[0]]) + Keep(drop[1..], s[1..])
  }

  lemma {:induction false} KeepFlatten(drop: seq<bool>, shape: seq<nat>, idx: seq<nat>)
    requires |drop| == |shape| && InShape(shape, idx)
    requires forall i :: 0 <= i < |drop| && drop[i] ==> shape[i] == 1
    ensures InShape(Keep(drop, shape), Keep(drop, idx))
    ensures Flatten(Keep(drop, shape), Keep(drop, idx)) == Flatten(shape, idx)
  {
    KeepSize(drop, shape);
    if shape != [] {
      KeepFlatten(drop[1..], shape[1..], idx[1..]);
      KeepSize(drop[1..], shape[1..]);
      var s, x := Keep(drop[1..], shape[1..]), Keep(drop[1..], idx[1..]);
      if drop[0] {
        assert [] + s == s && [] + x == x && idx[0] == 0;
      } else {
        assert ([shape[0]] + s)[1..] == s && ([idx[0]] + x)[1..] == x;
      }
    }
  }

  lemma {:induction false} KeepSize(drop: seq<bool>, shape: seq<nat>)
    requires |drop| == |shape| && forall i :: 0 <= i < |drop| && drop[i] ==> shape[i] == 1
    ensures Size(Keep(drop, shape)) == Size(shape)
  {
    if shape != [] {
      KeepSize(drop[1..], shape[1..]);
      var s := Keep(drop[1..], shape[1..]);
      if drop[0] {
        assert [] + s == s;
      } else {
        assert ([shape[0]] + s)[1..] == s;
      }
    }
  }

  lemma {:induction false} KeepClip(drop: seq<bool>, units: seq<nat>, idx: seq<nat>)
    requires |drop| == |units| == |idx|
    ensures |Keep(drop, idx)| == |Keep(drop, units)|
    ensures Keep(drop, Clip(idx, units)) == Clip(Keep(drop, idx), Keep(drop, units))
  {
    if units != [] {
      KeepClip(drop[1..], units[1..], idx[1..]);
      assert Clip(idx, units)[1..] == Clip(idx[1..], units[1..]);
    }
  }

  lemma {:induction false} KeepPaired(drop: seq<bool>, units: seq<nat>, batch: seq<nat>)
    requires |drop| == |units| && Paired(units, batch)
    ensures Paired(Keep(drop, units), Keep(drop, batch))
  {
    if units != [] {
      assert Paired(units[1..], batch[1..]);
      KeepPaired(drop[1..], units[1..], batch[1..]);
      var u, b := Keep(drop[1..], units[1..]), Keep(drop[1..], batch[1..]);
      if drop[0] {
        assert [] + u == u && [] + b == b;
      } else {
        PairedBehind(units[0], batch[0], u, b);
      }
    }
  }

  lemma PairedBehind(m: nat, n: nat, units: seq<nat>, batch: seq<nat>)
    requires Paired(units, batch) && (m == 1 || m == n)
    ensures Paired([m] + units, [n] + batch)
  {
  }

  // ---- Choosing along both ----

  /** Choices `p` along an axis of `A` and `q` along that of the weight fit together. */
  ghost predicate FitPicks(drop: bool, p: seq<nat>, q: seq<nat>, unit: nat) {
    && (drop ==> |p| == |q| == 1)
    && (if unit == 1 then p == [0] || (p == [] && q == []) else p == q)
  }

  ghost predicate AllFit(drop: seq<bool>, pu: seq<seq<nat>>, pl: seq<seq<nat>>, units: seq<nat>) {
    |drop| == |pu| == |pl| == |units| && forall i :: 0 <= i < |units| ==> FitPicks(drop[i], pu[i], pl[i], units[i])
  }

  lemma FitIsPaired(drop: seq<bool>, pu: seq<seq<nat>>, pl: seq<seq<nat>>, units: seq<nat>)
    requires AllFit(drop, pu, pl, units)
    ensures |drop| == |pu| == |pl| == |units| && Paired(Counts(pu), Counts(pl))
    ensures forall i :: 0 <= i < |drop| && drop[i] ==> Counts(pu)[i] == 1 && Counts(pl)[i] == 1
  {
    forall i | 0 <= i < |units|
      ensures |pu[i]| == 1 || |pu[i]| == |pl[i]|
      ensures drop[i] ==> |pu[i]| == 1 && |pl[i]| == 1
    {
      assert FitPicks(drop[i], pu[i], pl[i], units[i]);
    }
  }

  lemma ChosenFit(drop: seq<bool>, pu: seq<seq<nat>>, pl: seq<seq<nat>>, units: seq<nat>, idx: seq<nat>)
    requires AllFit(drop, pu, pl, units) && InShape(Counts(pl), idx)
    ensures InShape(Counts(pu), Clip(idx, Counts(pu)))
    ensures Chosen(pu, Clip(idx, Counts(pu))) == Clip(Chosen(pl, idx), units)
  {
    FitIsPaired(drop, pu, pl, units);
    ClipInShape(Counts(pu), Counts(pl), idx);
    var x, y := Chosen(pu, Clip(idx, Counts(pu))), Clip(Chosen(pl, idx), units);
    forall i | 0 <= i < |units|
      ensures x[i] == y[i]
    {
      assert FitPicks(drop[i], pu[i], pl[i], units[i]);
      assert idx[i] < |pl[i]|;
    }
  }

  /** Fitting choices along the axes of `A` and of the weight lead to the same matrix of `A`. */
  lemma UnitSelected(drop: seq<bool>, units: seq<nat>, batch: seq<nat>, pu: seq<seq<nat>>, pl: seq<seq<nat>>, q: nat)
    requires Paired(units, batch) && GoodPicks(units, pu) && GoodPicks(batch, pl) && AllFit(drop, pu, pl, units)
    requires q < Size(Counts(pl))
    ensures var ku, kb := Keep(drop, Counts(pu)), Keep(drop, Counts(pl));
            && Paired(ku, kb) && Size(kb) == Size(Counts(pl)) && Size(ku) == Size(Counts(pu))
            && SelectedRow(units, pu, UnitAt(ku, kb, q)) == UnitAt(units, batch, SelectedRow(batch, pl, q))
  {
    hide Flatten, Unflatten, Size, Keep, AllFit;
    FitIsPaired(drop, pu, pl, units);
    var cu, cb := Counts(pu), Counts(pl);
    KeepPaired(drop, cu, cb);
    KeepSize(drop, cu);
    KeepSize(drop, cb);
    var idx := Unflatten(cb, q);
    FlattenUnflatten(cb, q);
    KeepFlatten(drop, cb, idx);
    UnflattenFlatten(Keep(drop, cb), Keep(drop, idx));
    ChosenFit(drop, pu, pl, units, idx);
    KeepClip(drop, cu, idx);
    KeepFlatten(drop, cu, Clip(idx, cu));
    SelectMeaning(units, pu, Clip(idx, cu));
    ChosenInShape(batch, pl, idx);
    UnflattenFlatten(batch, Chosen(pl, idx));
  }

  lemma ChosenInShape(shape: seq<nat>, picks: seq<seq<nat>>, idx: seq<nat>)
    requires GoodPicks(shape, picks) && InShape(Counts(picks), idx)
    ensures InShape(shape, Chosen(picks, idx))
  {
  }

  // ---- Stretching twice, and a last axis ----

  /** Axes that serve axes that serve others serve those. */
  lemma UnitOfUnit(units: seq<nat>, batch: seq<nat>, wide: seq<nat>, q: nat)
    requires Paired(units, batch) && Paired(batch, wide) && q < Size(wide)
    ensures Paired(units, wide) && UnitAt(units, wide, q) == UnitAt(units, batch, UnitAt(batch, wide, q))
  {
    hide Flatten, Unflatten, Size;
    var idx := Unflatten(wide, q);
    ClipInShape(batch, wide, idx);
    UnflattenFlatten(batch, Clip(idx, batch));
    assert Clip(Clip(idx, batch), units) == Clip(idx, units);
  }

  lemma UnitAtSnoc(units: seq<nat>, n: nat, batch: seq<nat>, len: nat, q: nat, s: nat)
    requires Paired(units, batch) && (n == 1 || n == len) && q < Size(batch) && s < len
    ensures Paired(units + [n], batch + [len]) && q * len + s < Size(batch + [len])
    ensures UnitAt(units + [n], batch + [len], q * len + s) == UnitAt(units, batch, q) * n + if n == 1 then 0 else s
  {
    hide Flatten, Unflatten, Size;
    UnflattenSnoc(batch, len, q, s);
    var idx := Unflatten(batch, q);
    assert Clip(idx + [s], units + [n]) == Clip(idx, units) + [if n == 1 then 0 else s];
    FlattenSnoc(units, n, Clip(idx, units), if n == 1 then 0 else s);
  }

  predicate AllOnes(units: seq<nat>) {
    forall i :: 0 <= i < |units| ==> units[i] == 1
  }

  /** All axes of length 1: one position serves all. */
  lemma {:induction false} OnesSize(units: seq<nat>)
    requires AllOnes(units)
    ensures Size(units) == 1
  {
    if units != [] {
      OnesSize(units[1..]);
    }
  }
}
