/** The calls on factors that succeed and mean something else, and that they are all
    (engine/convert_lora_to_gguf.py, `LoraTorchTensor`). */
module LoraBreaks {
  import opened Common
  import opened Matrices
  import opened Shapes
  import opened UnitAxes
  import opened TensorOps
  import opened RowViews
  import opened LoraFactors
  import opened LoraProduct
  import opened LoraSound
  import opened LoraIndex
  import opened LoraExact
  import opened LoraSupport

  /** A product of the weight's shape needs axes in front of `A` that serve those of the weight. */
  lemma ShapedIsPaired(r: Lora, d: Flat)
    requires Built(r) && d.shape == Lead(r) + [Cols(r)] && Product(r) == Some(d)
    ensures Paired(Units(r), Batch(r))
  {
    hide Entry, Size, Unflatten, Broadcast;
    var batch := Broadcast(Batch(r), Units(r)).value;
    assert batch == d.shape[..|batch|];
    assert Batch(r) == d.shape[..|batch|];
  }

  lemma {:induction false} KeepPairedBack(drop: seq<bool>, x: seq<nat>, y: seq<nat>, i: nat)
    requires |drop| == |x| == |y| && i < |drop| && !drop[i] && Paired(Keep(drop, x), Keep(drop, y))
    ensures x[i] == 1 || x[i] == y[i]
  {
    var u, v := Keep(drop, x), Keep(drop, y);
    if i > 0 {
      var a, b := Keep(drop[1..], x[1..]), Keep(drop[1..], y[1..]);
      if drop[0] {
        assert [] + a == a && [] + b == b;
      } else {
        assert u[1..] == a && v[1..] == b && |a| == |b|;
        assert forall j :: 0 <= j < |a| ==> u[1..][j] == a[j] && v[1..][j] == b[j];
      }
      KeepPairedBack(drop[1..], x[1..], y[1..], i - 1);
    } else {
      assert u[0] == x[0] && v[0] == y[0];
    }
  }

  lemma LeadParts(t: Lora, batch: seq<nat>, len: nat)
    requires Built(t) && Lead(t) == batch + [len]
    ensures Batch(t) == batch && Len(t) == len
  {
    assert t.b.shape == batch + [len] + [Rank(t)];
  }

  lemma UnitsParts(t: Lora, units: seq<nat>, rank: nat)
    requires Built(t) && LeadOf(t.a) == units + [rank]
    ensures Units(t) == units
  {
    assert t.a.shape == units + [rank] + [Cols(t)];
  }

  /** What indexing both factors builds, and the weight indexed so. */
  lemma IndexedShapes(t: Lora, us: seq<Index>, ixs: seq<Index>, row: Index, last: Index, r: Lora)
    requires Coherent(t) && |us| == |ixs| == Dims(t) - 2 && row.Range? && last.Range? && Numbers(us) == Numbers(ixs)
    requires Make(IndexFlat(t.a, us + [FULL, last]), IndexFlat(t.b, ixs + [row])) == Some(r)
    ensures AllPositions(us, Units(t)).Some? && AllPositions(ixs, Batch(t)).Some?
    ensures Units(r) == Keep(Numbers(ixs), Counts(AllPositions(us, Units(t)).value))
    ensures Batch(r) == Keep(Numbers(ixs), Counts(AllPositions(ixs, Batch(t)).value))
    ensures var d := IndexFlat(DenseOf(t), ixs + [row, last]); d.Some? && d.value.shape == Lead(r) + [Cols(r)]
  {
    hide Size, Rows, FromRows, AllPositions, Positions, GatherCols, GatherRows, IndexFlat, SelectedRow, Keep, DenseOf, DenseRows, Coherent, Numbers;
    CoherentParts(t);
    IndexA(t, us, last);
    IndexBFull(t, ixs, row);
    FactorsByRows(t);
    IndexB(Rows(t.b), Batch(t), Len(t), ixs, row, FULL);
    IndexB(DenseRows(t), Batch(t), Len(t), ixs, row, last);
    FullTakesAll(Rank(t));
    var units := Keep(Numbers(ixs), Counts(AllPositions(us, Units(t)).value));
    var batch := Keep(Numbers(ixs), Counts(AllPositions(ixs, Batch(t)).value));
    LeadParts(r, batch, |Positions(row, Len(t)).value|);
    UnitsParts(r, units, Rank(t));
  }

  /** An axis of `A` that is cut to another length than that of the weight. */
  lemma CutDiffers(t: Lora, us: seq<Index>, ixs: seq<Index>, row: Index, last: Index, r: Lora, i: nat)
    requires Coherent(t) && |us| == |ixs| == Dims(t) - 2 && row.Range? && last.Range? && Numbers(us) == Numbers(ixs)
    requires Make(IndexFlat(t.a, us + [FULL, last]), IndexFlat(t.b, ixs + [row])) == Some(r)
    requires i < |ixs| && ixs[i].Range? && Positions(us[i], Units(t)[i]).Some? && Positions(ixs[i], Batch(t)[i]).Some?
    requires |Positions(us[i], Units(t)[i]).value| != 1
    requires |Positions(us[i], Units(t)[i]).value| != |Positions(ixs[i], Batch(t)[i]).value|
    ensures Product(r) != IndexFlat(DenseOf(t), ixs + [row, last])
  {
    hide Size, Positions, IndexFlat, Keep, DenseOf, Coherent, Paired, Product;
    CoherentParts(t);
    IndexedShapes(t, us, ixs, row, last, r);
    var x, y := Counts(AllPositions(us, Units(t)).value), Counts(AllPositions(ixs, Batch(t)).value);
    if Product(r) == IndexFlat(DenseOf(t), ixs + [row, last]) {
      ShapedIsPaired(r, Product(r).value);
      KeepPairedBack(Numbers(ixs), x, y, i);
    }
  }

  /** A slice that empties an axis of `A` but not that of the weight has no product of the right shape. */
  lemma CutUnitsDiffer(t: Lora, ix: Index)
    requires Coherent(t) && CutsUnits(t, ix) && GetOne(t, ix).Some?
    ensures Product(GetOne(t, ix).value) != IndexFlat(DenseOf(t), [ix])
  {
    hide DenseOf, Positions, Product, IndexFlat;
    var m := Dims(t) - 2;
    var us := [ix] + Full(m - 1);
    DenseShape(t);
    IndexPadded(t.a, [ix]);
    IndexPadded(t.b, [ix]);
    IndexPadded(DenseOf(t), [ix]);
    IndexBFull(t, us, FULL);
    assert Padded([ix], m + 2) == us + [FULL, FULL];
    assert Lead(t)[0] == Batch(t)[0];
    CutDiffers(t, us, us, FULL, FULL, GetOne(t, ix).value, 0);
  }

  lemma OnlyWholeSteps(lo: nat, step: nat, n: nat, i: nat)
    requires step > 0 && i < n && lo + (n - 1) * step < n
    ensures lo + i * step == i
  {
    MulMono(1, step, n - 1 - i);
    MulMono(1, step, i);
    assert (n - 1) * step == (n - 1 - i) * step + i * step;
  }

  /** A slice that takes as many positions as there are takes all. */
  lemma WholeSlice(ix: Index, n: nat)
    requires ix.Range? && Positions(ix, n).Some? && |Positions(ix, n).value| == n
    ensures Positions(ix, n).value == UpTo(n)
  {
    hide Steps;
    var lo, hi, step := Clamp(ix.lo, n, 0), Clamp(ix.hi, n, n), ix.step;
    var p := Positions(ix, n).value;
    hide Clamp;
    forall i | 0 <= i < n
      ensures p[i] == i
    {
      StepsAre(lo, hi, step, n - 1);
      OnlyWholeSteps(lo, step, n, i);
      StepsAre(lo, hi, step, i);
    }
  }

  /** A slice of a stacked axis cuts `B` and not `A`. */
  lemma CutStackDiffers(t: Lora, ixs: seq<Index>, i: nat)
    requires Coherent(t) && !TwoNumbers(t, ixs) && GetMany(t, ixs).Some? && i < Dims(t) - 2 && i < |ixs| && CutsStack(t, ixs, i)
    ensures Product(GetMany(t, ixs).value) != IndexFlat(DenseOf(t), ixs)
  {
    hide DenseOf, Positions, Product, IndexFlat, UnitIndices, Coherent;
    CoherentParts(t);
    DenseShape(t);
    var n := Dims(t);
    var all := Padded(ixs, n);
    var us := UnitIndices(all[..n - 2], Units(t)).value;
    GetManyLengths(t, ixs);
    IndexPadded(DenseOf(t), ixs);
    assert all[..n - 1] == all[..n - 2] + [all[n - 2]] && all == all[..n - 2] + [all[n - 2], all[n - 1]];
    assert all[i] == ixs[i] && UnitIndex(all[i], Units(t)[i]) == Some(us[i]);
    assert us[i] == FULL && Units(t)[i] == Batch(t)[i];
    FullTakesAll(Units(t)[i]);
    assert Numbers(us) == Numbers(all[..n - 2]);
    var r := GetMany(t, ixs).value;
    IndexedShapes(t, us, all[..n - 2], all[n - 2], all[n - 1], r);
    assert Positions(ixs[i], Batch(t)[i]).Some? by {
      assert all[..n - 2][i] == ixs[i];
    }
    if |Positions(ixs[i], Batch(t)[i]).value| == Batch(t)[i] {
      WholeSlice(ixs[i], Batch(t)[i]);
      assert false;
    }
    CutDiffers(t, us, all[..n - 2], all[n - 2], all[n - 1], r, i);
  }

  /** Numbers in both of the last two places leave one axis too many. */
  lemma TwoNumbersDiffer(t: Lora, ixs: seq<Index>)
    requires Coherent(t) && TwoNumbers(t, ixs) && GetMany(t, ixs).Some?
    ensures Product(GetMany(t, ixs).value) != IndexFlat(DenseOf(t), ixs)
  {
    hide Size, DenseOf, IndexFlat, Entry, Broadcast, UnitIndices;
    DenseShape(t);
    var n, r := Dims(t), GetMany(t, ixs).value;
    assert Padded(ixs, n) == ixs;
    IndexPadded(t.b, ixs[..n - 1]);
    assert Padded(ixs[..n - 1], n) == ixs[..n - 1] + [FULL];
    IndexLength(t.b, ixs[..n - 1] + [FULL]);
    RangesSnoc(ixs[..n - 1], FULL);
    assert ixs == ixs[..n - 1] + [ixs[n - 1]];
    RangesSnoc(ixs[..n - 1], ixs[n - 1]);
    NumbersIndex(t, ixs);
    IndexLength(DenseOf(t), ixs);
  }

  /** The dense weight has the element wherever the factors do. */
  lemma NumbersIndex(t: Lora, ixs: seq<Index>)
    requires Coherent(t) && TwoNumbers(t, ixs) && GetMany(t, ixs).Some?
    ensures IndexFlat(DenseOf(t), ixs).Some?
  {
    hide Size, DenseOf, SelectFlat, AllPositions, Positions, UnitIndices;
    DenseShape(t);
    var n := Dims(t);
    assert Padded(ixs, n) == ixs;
    var us := UnitIndices(ixs[..n - 2], Units(t)).value;
    assert Padded(us + [FULL, ixs[n - 1]], n) == us + [FULL, ixs[n - 1]];
    assert Padded(ixs[..n - 1], n) == ixs[..n - 1] + [FULL];
    AllPositionsSnoc(ixs[..n - 1], Lead(t), FULL, Rank(t));
    assert us + [FULL, ixs[n - 1]] == us + [FULL] + [ixs[n - 1]] && t.a.shape == Units(t) + [Rank(t)] + [Cols(t)];
    AllPositionsSnoc(us + [FULL], Units(t) + [Rank(t)], ixs[n - 1], Cols(t));
    AllPositionsSnoc(ixs[..n - 1], Lead(t), ixs[n - 1], Cols(t));
    assert ixs == ixs[..n - 1] + [ixs[n - 1]];
  }

  /** Main result on one operation: what the code builds has the operation on the dense weight as its
      product if and only if the call is not one of those that break. */
  lemma ApplyExactly(op: Op, t: Lora)
    requires Coherent(t) && Apply(op, t).Some?
    ensures Product(t) == Some(DenseOf(t))
    ensures Product(Apply(op, t).value) == ApplyDense(op, DenseOf(t)) <==> !Breaks(op, t)
  {
    hide Coherent, DenseOf, IndexFlat, Product, CutsUnits, TwoNumbers, CutsStack, Wild, GetOne, GetMany, ReshapeLora, PermuteLora, PieceLora, ReorderA, ReorderFlat, PieceFlat, MultiplyFlat, PermuteBy, TimesLora;
    CoherentParts(t);
    ProductByRows(t);
    DenseShape(t);
    if !Breaks(op, t) {
      ApplySound(op, t);
      ProductByRows(Apply(op, t).value);
    } else {
      match op
      case Get(ix) => CutUnitsDiffer(t, ix);
      case GetTuple(ixs) =>
        if TwoNumbers(t, ixs) {
          TwoNumbersDiffer(t, ixs);
        } else {
          var i: nat :| i < Dims(t) - 2 && i < |ixs| && CutsStack(t, ixs, i);
          CutStackDiffers(t, ixs, i);
        }
      case Reshape(shape) =>
        ReshapeSound(t, shape);
        ProductByRows(Apply(op, t).value);
    }
  }

  // ---- They do happen ----

  /** `t[:, i, j]` builds where the first axis of `A` is as long as the rank. */
  lemma TwoNumbersBuild(t: Lora, i: int, j: int)
    requires Coherent(t) && Dims(t) == 3 && Units(t)[0] == Rank(t) && InRange(i, Len(t)) && InRange(j, Cols(t))
    ensures var op := GetTuple([FULL, Item(i), Item(j)]);
            && Apply(op, t).Some? && Breaks(op, t) && ApplyDense(op, DenseOf(t)).Some?
            && Product(Apply(op, t).value) != ApplyDense(op, DenseOf(t))
  {
    hide IndexFlat, DenseOf, Apply, Product, CutsSomeStack, AllPositions;
    var ixs := [FULL, Item(i), Item(j)];
    assert [FULL] + [Item(i), Item(j)] == ixs && ixs[..1] == [FULL];
    FactorsByRows(t);
    DenseShape(t);
    FullTakesAll(Batch(t)[0]);
    FullPositions([FULL], Batch(t));
    IndexedParts(DenseOf(t), Batch(t), Len(t), Cols(t), [FULL], Item(i), Item(j));
    assert Numbers([FULL]) == seq(|Units(t)|, i => false);
    KeepAll(Units(t));
    DefinedExactly(GetTuple(ixs), t);
    ApplyExactly(GetTuple(ixs), t);
  }

  /** `t[0:1,]` builds where `A` is stacked along the first axis. */
  lemma CutStackBuilds(t: Lora)
    requires Coherent(t) && Dims(t) > 2 && Units(t)[0] > 1
    ensures var op := GetTuple([Index.Range(At(0), At(1), 1)]);
            && Apply(op, t).Some? && Breaks(op, t) && ApplyDense(op, DenseOf(t)).Some?
            && Product(Apply(op, t).value) != ApplyDense(op, DenseOf(t))
  {
    hide IndexFlat, DenseOf, Apply, Product, Steps;
    var ix, n := Index.Range(At(0), At(1), 1), Batch(t)[0];
    DenseShape(t);
    ConsecutiveSteps(0, 1);
    assert n > 1 && Lead(t)[0] == n && |Steps(0, 1, 1)| == 1;
    FirstPosition(DenseOf(t), ix);
    DefinedExactly(GetTuple([ix]), t);
    assert CutsStack(t, [ix], 0);
    ApplyExactly(GetTuple([ix]), t);
  }

  /** `t.reshape(-1, -1, cols)` builds where the weight has one row; a dense weight refuses two open lengths. */
  lemma TwoOpenLengthsBuild(t: Lora)
    requires Coherent(t) && Dims(t) == 2 && Len(t) == 1 && Cols(t) > 0
    ensures var op := Reshape([-1, -1, Cols(t) as int]);
            Apply(op, t).Some? && Breaks(op, t) && ApplyDense(op, DenseOf(t)).None?
  {
    hide DenseOf, Size, ReshapeTo;
    var cols := Cols(t);
    MatrixLead(t);
    OpenOnes(cols);
    assert [1, 1, cols][..2] == [1, 1];
    ReshapeADefined(t, 1);
    ReshapeBDefined(t, [1, 1]);
    OnesSize([1, 1]);
    ReshapedFits(t, [1, 1]);
  }

  lemma OpenOnes(cols: nat)
    requires cols > 0
    ensures var shape := [-1, -1, cols as int]; Wild(shape) == 2 && Resolve(shape, cols) == Some([1, 1, cols])
  {
    var last, two, shape := [cols as int], [-1, cols as int], [-1, -1, cols as int];
    assert shape[1..] == two && two[1..] == last && last[1..] == [];
    assert Wild(two) == 1 + Wild(last) && Wild(last) == Wild([]);
    KnownOnes(cols);
    assert Replace(shape, 1) == [1, 1, cols as int];
    assert shape[0] == -1 && cols / cols == 1 && cols % cols == 0;
    assert Naturals([1, 1, cols as int]).value == [1, 1, cols];
  }

  lemma KnownOnes(n: int)
    ensures AllTogether([1, 1, n]) == n
  {
    assert [1, 1, n][1..] == [1, n] && [1, n][1..] == [n] && [n][1..] == [];
    assert AllTogether([n]) == n * AllTogether([]) && AllTogether([1, n]) == 1 * AllTogether([n]);
  }
}
