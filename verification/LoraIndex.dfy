/** Indexing and splitting low-rank weights (engine/convert_lora_to_gguf.py, `__getitem__` and `split`):
    both are choices along the axes of the two factors. */
module LoraIndex {
  import opened Common
  import opened Matrices
  import opened Shapes
  import opened UnitAxes
  import opened TensorOps
  import opened RowViews
  import opened LoraFactors
  import opened LoraSound

  // ---- Indexing ----

  function Numbers(ixs: seq<Index>): (drop: seq<bool>)
    ensures |drop| == |ixs| && forall i :: 0 <= i < |ixs| ==> drop[i] == ixs[i].Item?
  {
    seq(|ixs|, i requires 0 <= i < |ixs| => ixs[i].Item?)
  }

  lemma {:induction false} KeptIsKeep(ixs: seq<Index>, picks: seq<seq<nat>>)
    requires |ixs| == |picks|
    ensures KeptShape(ixs, picks) == Keep(Numbers(ixs), Counts(picks))
  {
    if ixs != [] {
      KeptIsKeep(ixs[1..], picks[1..]);
      assert Numbers(ixs)[1..] == Numbers(ixs[1..]) && Counts(picks)[1..] == Counts(picks[1..]);
    }
  }

  /** The index of an axis of `A` fits the index of the weight along that axis. */
  ghost predicate Fits(u: Index, ix: Index, unit: nat, len: nat) {
    && (u.Item? <==> ix.Item?)
    && var p, q := Positions(u, unit), Positions(ix, len);
       p.Some? && q.Some? ==> FitPicks(ix.Item?, p.value, q.value, unit)
  }

  ghost predicate FitsAll(us: seq<Index>, ixs: seq<Index>, t: Lora)
    requires Built(t)
  {
    |us| == |ixs| == Dims(t) - 2 && forall i :: 0 <= i < |us| ==> Fits(us[i], ixs[i], Units(t)[i], Batch(t)[i])
  }

  /** What indices choose along both factors. */
  function IndexChoice(t: Lora, us: seq<Index>, ixs: seq<Index>, row: Index, last: Index): (c: Option<Choice>)
    requires Built(t) && |us| == |ixs| == Dims(t) - 2
    ensures c.Some? <==>
            && AllPositions(us, Units(t)).Some? && AllPositions(ixs, Batch(t)).Some?
            && Positions(row, Len(t)).Some? && Positions(last, Cols(t)).Some?
  {
    var pu, pl := AllPositions(us, Units(t)), AllPositions(ixs, Batch(t));
    var prow, pcol := Positions(row, Len(t)), Positions(last, Cols(t));
    if pu.None? || pl.None? || prow.None? || pcol.None? then None
    else Some(Choice(Numbers(ixs), pu.value, pl.value, prow.value, pcol.value))
  }

  lemma IndexFits(t: Lora, us: seq<Index>, ixs: seq<Index>, row: Index, last: Index)
    requires Coherent(t) && FitsAll(us, ixs, t) && IndexChoice(t, us, ixs, row, last).Some?
    ensures var c := IndexChoice(t, us, ixs, row, last).value;
            FitsWeight(c, t) && Numbers(us) == Numbers(ixs) == c.drop
  {
    hide Positions;
    var c := IndexChoice(t, us, ixs, row, last).value;
    forall i | 0 <= i < Dims(t) - 2
      ensures FitPicks(c.drop[i], c.pu[i], c.pl[i], Units(t)[i]) && (us[i].Item? <==> ixs[i].Item?)
    {
      assert Fits(us[i], ixs[i], Units(t)[i], Batch(t)[i]);
    }
    assert Numbers(us) == Numbers(ixs);
  }

  lemma KeptRowsAre(ixs: seq<Index>, lead: seq<nat>, picks: seq<seq<nat>>)
    requires |ixs| == |lead| && AllPositions(ixs, lead) == Some(picks)
    ensures KeptRows(ixs, lead, picks) == KeptShape(ixs, picks)
  {
  }

  /** `A` indexed along the axes in front of it and along its columns. */
  lemma IndexA(t: Lora, us: seq<Index>, last: Index)
    requires Built(t) && |us| == Dims(t) - 2 && last.Range?
    ensures var p, c := AllPositions(us, Units(t)), Positions(last, Cols(t));
            var r := IndexFlat(t.a, us + [FULL, last]);
            && (r.Some? <==> p.Some? && c.Some?)
            && (r.Some? ==>
                var lead, sel := Keep(Numbers(us), Counts(p.value)) + [Rank(t)], SelectedRows(Units(t) + [Rank(t)], p.value + [UpTo(Rank(t))]);
                && |sel| == Size(lead) && Indices(sel, |Rows(t.a).rows|)
                && r == Some(FromRows(lead, GatherCols(GatherRows(Rows(t.a), sel), c.value))))
  {
    hide Size, Rows, FromRows, AllPositions, Positions, GatherCols, GatherRows, IndexFlat, KeptRows, SelectedRow, Keep, KeptShape;
    var units, rank := Units(t), Rank(t);
    FactorsByRows(t);
    IndexRows(units + [rank], Rows(t.a), us + [FULL], last);
    assert us + [FULL] + [last] == us + [FULL, last];
    FullTakesAll(rank);
    AllPositionsSnoc(us, units, FULL, rank);
    var p := AllPositions(us, units);
    if p.Some? {
      KeptRowsAre(us + [FULL], units + [rank], p.value + [UpTo(rank)]);
      KeptShapeSnoc(us, p.value, FULL, UpTo(rank));
      KeptIsKeep(us, p.value);
    }
  }

  /** Any such tensor indexed along the batch axes, the one behind them and its columns. */
  lemma IndexB(m: Matrix, batch: seq<nat>, len: nat, ixs: seq<Index>, row: Index, last: Index)
    requires Valid(m) && |m.rows| == Size(batch + [len]) && |ixs| == |batch| && row.Range? && last.Range?
    ensures var p, s, c := AllPositions(ixs, batch), Positions(row, len), Positions(last, m.cols);
            var r := IndexFlat(FromRows(batch + [len], m), ixs + [row, last]);
            && (r.Some? <==> p.Some? && s.Some? && c.Some?)
            && (r.Some? ==>
                var lead, sel := Keep(Numbers(ixs), Counts(p.value)) + [|s.value|], SelectedRows(batch + [len], p.value + [s.value]);
                && |sel| == Size(lead) && Indices(sel, |m.rows|)
                && r == Some(FromRows(lead, GatherCols(GatherRows(m, sel), c.value))))
  {
    hide Size, FromRows, AllPositions, Positions, GatherCols, GatherRows, IndexFlat, KeptRows, SelectedRow, Keep, KeptShape;
    IndexRows(batch + [len], m, ixs + [row], last);
    assert ixs + [row] + [last] == ixs + [row, last];
    AllPositionsSnoc(ixs, batch, row, len);
    var p, s := AllPositions(ixs, batch), Positions(row, len);
    if p.Some? && s.Some? {
      KeptRowsAre(ixs + [row], batch + [len], p.value + [s.value]);
      KeptShapeSnoc(ixs, p.value, row, s.value);
      KeptIsKeep(ixs, p.value);
    }
  }

  /** `B` is not indexed along its columns. */
  lemma IndexBFull(t: Lora, ixs: seq<Index>, row: Index)
    requires Built(t) && |ixs| == Dims(t) - 2 && row.Range?
    ensures IndexFlat(t.b, ixs + [row]) == IndexFlat(t.b, ixs + [row, FULL])
  {
    hide AllPositions, KeptShape, SelectFlat;
    IndexPadded(t.b, ixs + [row]);
    assert Padded(ixs + [row], Dims(t)) == ixs + [row, FULL];
  }

  /** Both factors indexed fittingly: the product is the weight indexed so. */
  lemma IndexBoth(t: Lora, us: seq<Index>, ixs: seq<Index>, row: Index, last: Index)
    requires Coherent(t) && FitsAll(us, ixs, t) && row.Range? && last.Range?
    ensures var r := Make(IndexFlat(t.a, us + [FULL, last]), IndexFlat(t.b, ixs + [row]));
            r.Some? ==>
            && Coherent(r.value) && Rank(r.value) == Rank(t)
            && IndexFlat(DenseOf(t), ixs + [row, last]) == Some(DenseOf(r.value))
  {
    hide Size, Rows, FromRows, AllPositions, Positions, GatherCols, GatherRows, IndexFlat, SelectedRow, Keep, DenseOf, DenseRows, FitsAll, FitsWeight, Coherent;
    CoherentParts(t);
    var r := Make(IndexFlat(t.a, us + [FULL, last]), IndexFlat(t.b, ixs + [row]));
    FitsLengths(us, ixs, t);
    IndexA(t, us, last);
    IndexBFull(t, ixs, row);
    FactorsByRows(t);
    IndexB(Rows(t.b), Batch(t), Len(t), ixs, row, FULL);
    IndexB(DenseRows(t), Batch(t), Len(t), ixs, row, last);
    FullTakesAll(Rank(t));
    if r.Some? {
      var c := IndexChoice(t, us, ixs, row, last).value;
      IndexFits(t, us, ixs, row, last);
      ChoiceSizes(c, t);
      GatherAllCols(GatherRows(Rows(t.b), RowsB(c, t)));
      ChoiceSound(c, t, r.value);
    }
  }

  lemma FitsLengths(us: seq<Index>, ixs: seq<Index>, t: Lora)
    requires Built(t) && FitsAll(us, ixs, t)
    ensures |us| == |ixs| == Dims(t) - 2
  {
  }

  /** `B` sliced along its rows only, and a matrix left alone. */
  lemma WholeChoice(t: Lora)
    requires Coherent(t)
    ensures var m := Dims(t) - 2;
            forall d: nat, ix: seq<nat> :: d < m && t.a.shape[d] == 1 && Indices(ix, Batch(t)[d]) ==>
              FitsWeight(Choice(seq(m, i => false), Everything(Units(t)), Everything(Batch(t))[d := ix], UpTo(Len(t)), UpTo(Cols(t))), t)
    ensures var m := Dims(t) - 2;
            forall ix: seq<nat> :: Indices(ix, Len(t)) ==>
              FitsWeight(Choice(seq(m, i => false), Everything(Units(t)), Everything(Batch(t)), ix, UpTo(Cols(t))), t)
    ensures var m := Dims(t) - 2;
            forall ix: seq<nat> :: Indices(ix, Cols(t)) ==>
              FitsWeight(Choice(seq(m, i => false), Everything(Units(t)), Everything(Batch(t)), UpTo(Len(t)), ix), t)
  {
    assert forall i :: 0 <= i < Dims(t) - 2 ==> Units(t)[i] == t.a.shape[i];
    assert UpTo(1) == [0];
  }

  /** `A` chosen from whole, but for its columns. */
  lemma WholeA(t: Lora, c: Choice)
    requires FitsWeight(c, t) && c.pu == Everything(Units(t)) && c.drop == seq(Dims(t) - 2, i => false)
    ensures NewUnits(c) == Units(t) && |RowsA(c, t)| == Size(Units(t) + [Rank(t)])
    ensures GatherRows(Rows(t.a), RowsA(c, t)) == Rows(t.a)
  {
    hide Size, Rows, SelectedRow, GatherRows;
    FactorsByRows(t);
    KeepAll(Units(t));
    EverythingSnoc(Units(t), Rank(t));
    SelectedEverything(Units(t) + [Rank(t)]);
    GatherAllRows(Rows(t.a));
  }

  lemma {:induction false} KeepAll(s: seq<nat>)
    ensures Keep(seq(|s|, i => false), s) == s
  {
    if s != [] {
      KeepAll(s[1..]);
      assert seq(|s|, i => false)[1..] == seq(|s[1..]|, i => false);
    }
  }

  lemma KeepAllCounts(picks: seq<seq<nat>>)
    ensures Keep(seq(|picks|, i => false), Counts(picks)) == Counts(picks)
  {
    KeepAll(Counts(picks));
  }

  /** A slice of the rows of a matrix cuts `B` alone. */
  lemma SliceTwo(t: Lora, ix: Index)
    requires Coherent(t) && Dims(t) == 2 && ix.Range?
    ensures var r := Make(Some(t.a), IndexFlat(t.b, [ix]));
            r.Some? ==>
            Coherent(r.value) && Rank(r.value) == Rank(t) && IndexFlat(DenseOf(t), [ix]) == Some(DenseOf(r.value))
  {
    hide Size, Rows, FromRows, AllPositions, Positions, GatherCols, GatherRows, IndexFlat, SelectedRow, DenseOf, DenseRows, FitsWeight, Coherent;
    CoherentParts(t);
    var r := Make(Some(t.a), IndexFlat(t.b, [ix]));
    IndexBFull(t, [], ix);
    IndexWhole(t, ix);
    FactorsByRows(t);
    assert [] + [ix] == [ix] && [] + [ix, FULL] == [ix, FULL];
    IndexB(Rows(t.b), Batch(t), Len(t), [], ix, FULL);
    IndexB(DenseRows(t), Batch(t), Len(t), [], ix, FULL);
    FullTakesAll(Rank(t));
    FullTakesAll(Cols(t));
    if r.Some? {
      var s := Positions(ix, Len(t)).value;
      var c := Choice([], [], [], s, UpTo(Cols(t)));
      NoAxes(t, c);
      ChoiceSizes(c, t);
      WholeA(t, c);
      GatherAllCols(Rows(t.a));
      GatherAllCols(GatherRows(Rows(t.b), RowsB(c, t)));
      ChoiceSound(c, t, r.value);
    }
  }

  lemma NoAxes(t: Lora, c: Choice)
    requires Coherent(t) && Dims(t) == 2 && c.drop == [] && c.pu == [] && c.pl == [] && Indices(c.prow, Len(t)) && Indices(c.pcol, Cols(t))
    ensures FitsWeight(c, t) && c.pu == Everything(Units(t)) && c.drop == seq(0, i => false)
    ensures AllPositions([], Batch(t)) == Some(c.pl) && Numbers([]) == c.drop && Keep([], Counts([])) == []
  {
  }

  lemma IndexWhole(t: Lora, ix: Index)
    requires Coherent(t) && Dims(t) == 2
    ensures IndexFlat(DenseOf(t), [ix]) == IndexFlat(DenseOf(t), [ix, FULL])
  {
    hide AllPositions, KeptShape, SelectFlat, DenseOf;
    IndexPadded(DenseOf(t), [ix]);
    assert Padded([ix], 2) == [ix, FULL];
  }

  // ---- `t[ix]` ----

  /** The slice misses the only position of an axis in front of `A` but not all of the weight. */
  predicate CutsUnits(t: Lora, ix: Index)
    requires Built(t)
  {
    Dims(t) > 2 && ix.Range? && Positions(ix, Units(t)[0]) == Some([]) &&
    Positions(ix, Lead(t)[0]).Some? && Positions(ix, Lead(t)[0]) != Some([])
  }

  /** A slice of an axis of one position takes it or not. */
  lemma FewPositions(ix: Index, n: nat)
    requires ix.Range? && Positions(ix, n).Some? && n <= 1
    ensures Positions(ix, n).value == [] || Positions(ix, n).value == [0]
  {
    var p := Positions(ix, n).value;
    var lo, hi, step := Clamp(ix.lo, n, 0), Clamp(ix.hi, n, n), ix.step;
    assert lo + step >= hi;
    assert Steps(lo + step, hi, step) == [];
  }

  lemma FitsAlike(t: Lora, ix: Index, i: nat)
    requires Coherent(t) && i < Dims(t) - 2 && (i == 0 ==> !CutsUnits(t, ix))
    ensures var u := if i == 0 then ix else FULL; Fits(u, u, Units(t)[i], Batch(t)[i])
  {
    var unit, len := Units(t)[i], Batch(t)[i];
    FullTakesAll(unit);
    FullTakesAll(len);
    assert UpTo(1) == [0];
    if i == 0 && unit == 1 && Positions(ix, 1).Some? {
      if ix.Range? {
        FewPositions(ix, 1);
      }
      assert Lead(t)[0] == len;
    }
  }

  lemma GetOneSound(t: Lora, ix: Index)
    requires Coherent(t) && !CutsUnits(t, ix)
    ensures var r := GetOne(t, ix);
            r.Some? ==>
            Coherent(r.value) && Rank(r.value) == Rank(t) && IndexFlat(DenseOf(t), [ix]) == Some(DenseOf(r.value))
  {
    if Dims(t) > 2 {
      GetAboveTwo(t, ix);
    } else if GetOne(t, ix).Some? {
      hide IndexFlat, DenseOf, Coherent;
      SliceTwo(t, ix);
    }
  }

  lemma GetAboveTwo(t: Lora, ix: Index)
    requires Coherent(t) && !CutsUnits(t, ix) && Dims(t) > 2
    ensures var r := GetOne(t, ix);
            r.Some? ==>
            Coherent(r.value) && Rank(r.value) == Rank(t) && IndexFlat(DenseOf(t), [ix]) == Some(DenseOf(r.value))
  {
    hide IndexFlat, DenseOf, Positions, CutsUnits;
    var m := Dims(t) - 2;
    var us := [ix] + Full(m - 1);
    IndexPadded(t.a, [ix]);
    IndexPadded(t.b, [ix]);
    IndexPadded(DenseOf(t), [ix]);
    IndexBFull(t, us, FULL);
    assert Padded([ix], m + 2) == us + [FULL, FULL];
    forall i | 0 <= i < m
      ensures Fits(us[i], us[i], Units(t)[i], Batch(t)[i])
    {
      FitsAlike(t, ix, i);
    }
    IndexBoth(t, us, us, FULL, FULL);
  }

  // ---- `t[i, j, ...]` ----

  /** Numbers in both of the last two places, where a rank of 1 passes the constructor for an axis of `A`. */
  predicate TwoNumbers(t: Lora, ixs: seq<Index>)
    requires Built(t)
  {
    |ixs| == Dims(t) && ixs[Dims(t) - 1].Item? && ixs[Dims(t) - 2].Item?
  }

  /** A slice that leaves out some of an axis along which `A` is stacked; the source never slices `A`. */
  predicate CutsStack(t: Lora, ixs: seq<Index>, i: nat)
    requires Built(t) && i < Dims(t) - 2 && i < |ixs|
  {
    Units(t)[i] != 1 && ixs[i].Range? && Positions(ixs[i], Batch(t)[i]) != Some(UpTo(Batch(t)[i]))
  }

  predicate CutsSomeStack(t: Lora, ixs: seq<Index>)
    requires Built(t)
  {
    exists i :: 0 <= i < Dims(t) - 2 && i < |ixs| && CutsStack(t, ixs, i)
  }

  lemma FitsUnit(t: Lora, ixs: seq<Index>, i: nat)
    requires Coherent(t) && i < Dims(t) - 2 && i < |ixs| && !CutsStack(t, ixs, i) && UnitIndex(ixs[i], Units(t)[i]).Some?
    ensures Fits(UnitIndex(ixs[i], Units(t)[i]).value, ixs[i], Units(t)[i], Batch(t)[i])
  {
    FullTakesAll(Units(t)[i]);
    assert UpTo(1) == [0];
    if ixs[i].Item? && Units(t)[i] != 1 && Positions(ixs[i], Batch(t)[i]).Some? {
      Wrapped(ixs[i].i, Batch(t)[i]);
    }
  }

  /** A number in range, modulo the length, is the number from the front. */
  lemma Wrapped(i: int, n: nat)
    requires InRange(i, n)
    ensures i % n == FromFront(i, n)
  {
  }

  /** One number in the last two places leaves factors with different numbers of axes. */
  lemma {:induction false} KeptLength(ixs: seq<Index>, picks: seq<seq<nat>>)
    requires |ixs| == |picks|
    ensures |KeptShape(ixs, picks)| == Ranges(ixs)
  {
    if ixs != [] {
      KeptLength(ixs[1..], picks[1..]);
    }
  }

  function Ranges(ixs: seq<Index>): nat {
    if ixs == [] then 0 else (if ixs[0].Item? then 0 else 1) + Ranges(ixs[1..])
  }

  lemma {:induction false} RangesSnoc(ixs: seq<Index>, ix: Index)
    ensures Ranges(ixs + [ix]) == Ranges(ixs) + if ix.Item? then 0 else 1
  {
    if ixs == [] {
      assert ixs + [ix] == [ix] && [ix][1..] == [];
    } else {
      RangesSnoc(ixs[1..], ix);
      assert (ixs + [ix])[1..] == ixs[1..] + [ix];
    }
  }

  lemma {:induction false} RangesAlike(us: seq<Index>, ixs: seq<Index>)
    requires |us| == |ixs| && forall i :: 0 <= i < |us| ==> (us[i].Item? <==> ixs[i].Item?)
    ensures Ranges(us) == Ranges(ixs)
  {
    if us != [] {
      RangesAlike(us[1..], ixs[1..]);
    }
  }

  lemma IndexLength(t: Flat, ixs: seq<Index>)
    requires ValidFlat(t) && |ixs| == |t.shape| && IndexFlat(t, ixs).Some?
    ensures |IndexFlat(t, ixs).value.shape| == Ranges(ixs)
  {
    hide AllPositions, KeptShape, SelectFlat;
    assert Padded(ixs, |t.shape|) == ixs;
    KeptLength(ixs, AllPositions(ixs, t.shape).value);
  }

  /** How many axes the two indexed factors have. */
  lemma GetManyLengths(t: Lora, ixs: seq<Index>)
    requires Built(t) && GetMany(t, ixs).Some?
    ensures var n := Dims(t); var all := Padded(ixs, n);
            all[n - 2].Item? <==> all[n - 1].Item?
  {
    hide IndexFlat, UnitIndices;
    var n := Dims(t);
    var all := Padded(ixs, n);
    var us := UnitIndices(all[..n - 2], Units(t)).value;
    IndexPadded(t.b, all[..n - 1]);
    assert Padded(all[..n - 1], n) == all[..n - 1] + [FULL];
    IndexLength(t.b, all[..n - 1] + [FULL]);
    IndexLength(t.a, us + [FULL, all[n - 1]]);
    RangesAlike(us, all[..n - 2]);
    assert us + [FULL, all[n - 1]] == us + [FULL] + [all[n - 1]];
    RangesSnoc(us + [FULL], all[n - 1]);
    RangesSnoc(us, FULL);
    assert all[..n - 1] == all[..n - 2] + [all[n - 2]];
    RangesSnoc(all[..n - 2], all[n - 2]);
    RangesSnoc(all[..n - 1], FULL);
  }

  lemma PaddedCuts(t: Lora, ixs: seq<Index>, i: nat)
    requires Coherent(t) && |ixs| <= Dims(t) && i < Dims(t) - 2 && !CutsSomeStack(t, ixs)
    ensures !CutsStack(t, Padded(ixs, Dims(t)), i)
  {
    FullTakesAll(Batch(t)[i]);
    var all := Padded(ixs, Dims(t));
    if i < |ixs| {
      assert all[i] == ixs[i] && !CutsStack(t, ixs, i);
    } else {
      assert all[i] == FULL;
    }
  }

  lemma GetManySound(t: Lora, ixs: seq<Index>)
    requires Coherent(t) && !TwoNumbers(t, ixs) && !CutsSomeStack(t, ixs)
    ensures var r := GetMany(t, ixs);
            r.Some? ==>
            Coherent(r.value) && Rank(r.value) == Rank(t) && IndexFlat(DenseOf(t), ixs) == Some(DenseOf(r.value))
  {
    hide IndexFlat, DenseOf, UnitIndices, Positions, CutsSomeStack, Coherent;
    CoherentParts(t);
    if GetMany(t, ixs).Some? {
      var n := Dims(t);
      var all := Padded(ixs, n);
      var us := UnitIndices(all[..n - 2], Units(t)).value;
      GetManyLengths(t, ixs);
      DenseShape(t);
      IndexPadded(DenseOf(t), ixs);
      assert all[..n - 1] == all[..n - 2] + [all[n - 2]] && all == all[..n - 2] + [all[n - 2], all[n - 1]];
      forall i | 0 <= i < n - 2
        ensures Fits(us[i], all[..n - 2][i], Units(t)[i], Batch(t)[i])
      {
        PaddedCuts(t, ixs, i);
        FitsUnit(t, all, i);
      }
      IndexBoth(t, us, all[..n - 2], all[n - 2], all[n - 1]);
    }
  }

  lemma DenseShape(t: Lora)
    requires Coherent(t)
    ensures ValidFlat(DenseOf(t)) && |DenseOf(t).shape| == Dims(t) && DenseOf(t).shape == Lead(t) + [Cols(t)]
  {
  }

  // ---- `split` ----

  lemma PicksSnoc(batch: seq<nat>, len: nat, d: nat, ix: seq<nat>)
    requires d < |batch|
    ensures Everything(batch + [len])[d := ix] == Everything(batch)[d := ix] + [UpTo(len)]
    ensures Counts(Everything(batch + [len])[d := ix]) == Counts(Everything(batch)[d := ix]) + [len]
  {
    EverythingSnoc(batch, len);
  }

  lemma PicksLast(batch: seq<nat>, len: nat, ix: seq<nat>)
    ensures Everything(batch + [len])[|batch| := ix] == Everything(batch) + [ix]
    ensures Counts(Everything(batch) + [ix]) == batch + [|ix|]
  {
    EverythingSnoc(batch, len);
  }

  /** Rows of both factors chosen, and no columns. */
  lemma RowsChosen(c: Choice, t: Lora, r: Lora)
    requires FitsWeight(c, t) && |c.drop| == |c.pu| == |c.pl| && c.pcol == UpTo(Cols(t))
    requires |RowsA(c, t)| == Size(NewUnits(c) + [Rank(t)]) && |RowsB(c, t)| == Size(NewBatch(c) + [|c.prow|])
    requires r.a == FromRows(NewUnits(c) + [Rank(t)], GatherRows(Rows(t.a), RowsA(c, t)))
    requires Size(Lead(t)) == |Rows(t.b).rows|
    requires r.b == FromRows(NewBatch(c) + [|c.prow|], GatherRows(Rows(t.b), RowsB(c, t)))
    ensures Coherent(r) && Rank(r) == Rank(t)
    ensures DenseOf(r) == FromRows(NewBatch(c) + [|c.prow|], GatherRows(DenseRows(t), RowsB(c, t)))
  {
    hide Size, Rows, FromRows, GatherRows, GatherCols, RowsA, RowsB, DenseRows, DenseOf, FitsWeight, Coherent, Keep;
    FitsCoherent(c, t);
    GatherAllCols(GatherRows(Rows(t.a), RowsA(c, t)));
    GatherAllCols(GatherRows(DenseRows(t), RowsB(c, t)));
    ChoiceSound(c, t, r);
  }

  lemma FitsCoherent(c: Choice, t: Lora)
    requires FitsWeight(c, t)
    ensures Coherent(t) && Built(t) && Dims(t) >= 2
  {
  }

  /** The choice of a piece along axis `d`, the positions `ix` of the weight and `iu` of `A`. */
  function PieceChoice(t: Lora, d: nat, ix: seq<nat>, iu: seq<nat>): Choice
    requires Built(t) && d < Dims(t) - 2
  {
    Choice(seq(Dims(t) - 2, i => false), Everything(Units(t))[d := iu], Everything(Batch(t))[d := ix], UpTo(Len(t)), UpTo(Cols(t)))
  }

  lemma PieceFits(t: Lora, d: nat, ix: seq<nat>, iu: seq<nat>)
    requires Coherent(t) && d < Dims(t) - 2 && Indices(ix, Batch(t)[d])
    requires if Units(t)[d] == 1 then iu == [0] else iu == ix
    ensures var c := PieceChoice(t, d, ix, iu);
            && FitsWeight(c, t) && |c.drop| == |c.pu| == |c.pl|
            && NewUnits(c) == Counts(c.pu) && NewBatch(c) == Counts(c.pl)
  {
    var c := PieceChoice(t, d, ix, iu);
    assert UpTo(1) == [0];
    KeepAllCounts(c.pu);
    KeepAllCounts(c.pl);
  }

  /** A piece along an axis of the batch: of `B` alone where `A` serves all positions, else of both. */
  lemma PieceOfBatch(t: Lora, cut: Cut, d: nat, k: nat)
    requires Coherent(t) && d < Dims(t) - 2
    ensures var r := PieceLora(t, cut, d, k);
            r.Some? ==>
            Coherent(r.value) && Rank(r.value) == Rank(t) && PieceFlat(DenseOf(t), cut, d, k) == Some(DenseOf(r.value))
  {
    hide Size, Rows, FromRows, GatherRows, PieceFlat, PiecePositions, SelectedRow, DenseRows, DenseOf, FitsWeight, Coherent, Keep;
    CoherentParts(t);
    FactorsByRows(t);
    var r := PieceLora(t, cut, d, k);
    var unit := Units(t)[d];
    PieceRows(Units(t) + [Rank(t)], Rows(t.a), cut, d, k);
    PieceRows(Lead(t), Rows(t.b), cut, d, k);
    PieceRows(Lead(t), DenseRows(t), cut, d, k);
    if r.Some? {
      var ix := PiecePositions(cut, Batch(t)[d], k).value;
      var iu := if unit == 1 then [0] else ix;
      var c := PieceChoice(t, d, ix, iu);
      PieceFits(t, d, ix, iu);
      ChoiceSizes(c, t);
      PicksSnoc(Units(t), Rank(t), d, iu);
      PicksSnoc(Batch(t), Len(t), d, ix);
      if unit == 1 {
        SingleUnit(t, d, c);
      }
      RowsChosen(c, t, r.value);
    }
  }

  /** Choosing the only position changes nothing. */
  lemma SingleUnit(t: Lora, d: nat, c: Choice)
    requires Coherent(t) && d < Dims(t) - 2 && Units(t)[d] == 1 && FitsWeight(c, t)
    requires c.pu == Everything(Units(t))[d := [0]] && |c.drop| == |c.pu| && NewUnits(c) == Counts(c.pu)
    ensures NewUnits(c) == Units(t) && |RowsA(c, t)| == Size(Units(t) + [Rank(t)])
    ensures GatherRows(Rows(t.a), RowsA(c, t)) == Rows(t.a)
  {
    hide Size, Rows, SelectedRow, GatherRows;
    FactorsByRows(t);
    assert [0] == UpTo(1);
    assert c.pu == Everything(Units(t));
    EverythingSnoc(Units(t), Rank(t));
    SelectedEverything(Units(t) + [Rank(t)]);
    GatherAllRows(Rows(t.a));
  }

  /** A piece along the axis behind the batch is of `B` alone. */
  lemma PieceOfRows(t: Lora, cut: Cut, k: nat)
    requires Coherent(t)
    ensures var d := Dims(t) - 2; var r := PieceLora(t, cut, d, k);
            r.Some? ==>
            Coherent(r.value) && Rank(r.value) == Rank(t) && PieceFlat(DenseOf(t), cut, d, k) == Some(DenseOf(r.value))
  {
    hide Size, Rows, FromRows, GatherRows, PieceFlat, PiecePositions, SelectedRow, DenseRows, DenseOf, FitsWeight, Coherent, Keep;
    CoherentParts(t);
    FactorsByRows(t);
    var d := Dims(t) - 2;
    var r := PieceLora(t, cut, d, k);
    PieceRows(Lead(t), Rows(t.b), cut, d, k);
    PieceRows(Lead(t), DenseRows(t), cut, d, k);
    if r.Some? {
      var ix := PiecePositions(cut, Len(t), k).value;
      var c := Choice(seq(d, i => false), Everything(Units(t)), Everything(Batch(t)), ix, UpTo(Cols(t)));
      WholeChoice(t);
      WholeA(t, c);
      KeepAll(Batch(t));
      PicksLast(Batch(t), Len(t), ix);
      ChoiceSizes(c, t);
      RowsChosen(c, t, r.value);
    }
  }

  /** A piece along the columns is of `A` alone. */
  lemma PieceOfCols(t: Lora, cut: Cut, k: nat)
    requires Coherent(t)
    ensures var d := Dims(t) - 1; var r := PieceLora(t, cut, d, k);
            r.Some? ==>
            Coherent(r.value) && Rank(r.value) == Rank(t) && PieceFlat(DenseOf(t), cut, d, k) == Some(DenseOf(r.value))
  {
    hide Size, Rows, FromRows, GatherRows, GatherCols, PieceFlat, PiecePositions, SelectedRow, DenseRows, DenseOf, FitsWeight, Coherent, Keep;
    CoherentParts(t);
    FactorsByRows(t);
    var d := Dims(t) - 1;
    var r := PieceLora(t, cut, d, k);
    RowViews.PieceCols(Units(t) + [Rank(t)], Rows(t.a), cut, k);
    RowViews.PieceCols(Lead(t), DenseRows(t), cut, k);
    if r.Some? {
      var ix := PiecePositions(cut, Cols(t), k).value;
      var c := Choice(seq(Dims(t) - 2, i => false), Everything(Units(t)), Everything(Batch(t)), UpTo(Len(t)), ix);
      WholeChoice(t);
      WholeA(t, c);
      KeepAll(Batch(t));
      EverythingSnoc(Batch(t), Len(t));
      SelectedEverything(Lead(t));
      GatherAllRows(Rows(t.b));
      GatherAllRows(DenseRows(t));
      ChoiceSizes(c, t);
      ChoiceSound(c, t, r.value);
    }
  }

  lemma PieceSound(t: Lora, cut: Cut, d: nat, k: nat)
    requires Coherent(t) && d < Dims(t)
    ensures var r := PieceLora(t, cut, d, k);
            r.Some? ==>
            Coherent(r.value) && Rank(r.value) == Rank(t) && PieceFlat(DenseOf(t), cut, d, k) == Some(DenseOf(r.value))
  {
    hide PieceFlat, DenseOf, PieceLora, Coherent;
    if d == Dims(t) - 1 {
      PieceOfCols(t, cut, k);
    } else if d == Dims(t) - 2 {
      PieceOfRows(t, cut, k);
    } else {
      PieceOfBatch(t, cut, d, k);
    }
  }
}
