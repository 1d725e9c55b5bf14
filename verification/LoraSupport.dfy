/** When an operation on the factors succeeds, in terms of the dense weight and conditions a caller can
    look up (engine/convert_lora_to_gguf.py, `LoraTorchTensor`). */
module LoraSupport {
  import opened Common
  import opened Matrices
  import opened Shapes
  import opened UnitAxes
  import opened TensorOps
  import opened RowViews
  import opened LoraFactors
  import opened LoraSound
  import opened LoraIndex
  import opened LoraExact

  predicate PermuteSupported(t: Lora, dims: seq<int>)
    requires Built(t)
  {
    var n := Dims(t);
    var p := Normal(dims, n);
    p.Some? ==> if p.value[n - 1] == n - 1 then AllOnes(Units(t)) else n == 2
  }

  /** No vector comes out of an index tuple, except that two numbers pass where `A` keeps an axis in front
      and the last of these happens to be as long as the rank. */
  predicate TupleSupported(t: Lora, ixs: seq<Index>)
    requires Built(t)
  {
    var n := Dims(t);
    && ixs != []
    && if TwoNumbers(t, ixs) then
         var kept := Keep(Numbers(ixs[..n - 2]), Units(t));
         kept != [] && kept[|kept| - 1] == Rank(t)
       else
         (n - 1 <= |ixs| <= n ==> ixs[n - 2].Range?) && (|ixs| == n ==> ixs[n - 1].Range?)
  }

  /** What the factors can do of what a dense weight can. A plain index reaches the first axis of `A` too
      and must exist there; the last axis keeps its length under `reshape` and its place under `permute`
      (a matrix may be transposed), both only where all axes in front of `A` have length 1; a factor
      scales whole rows and adds no axes; value heads are reordered in matrices only. */
  predicate Supported(op: Op, t: Lora)
    requires Built(t)
  {
    var n := Dims(t);
    match op
    case Get(ix) => if n == 2 then ix.Range? else Positions(ix, Units(t)[0]).Some?
    case GetTuple(ixs) => TupleSupported(t, ixs)
    case Reshape(shape) =>
      var s := Resolve(shape, Size(Lead(t)) * Cols(t));
      && |shape| >= 2 && (AllOnes(Units(t)) || Cols(t) == 0)
      && (s.Some? ==> s.value[|shape| - 1] == Cols(t) && Size(s.value[..|shape| - 1]) == Size(Lead(t)))
    case PermuteAxes(dims) => PermuteSupported(t, dims)
    case SwapAxes(dim0, dim1) =>
      var dims := SwapDims(n, dim0, dim1);
      dims.Some? ==> PermuteSupported(t, dims.value)
    case Piece(_, _, _) => true
    case Times(other) => IsColumn(other) && |other.shape| <= n
    case ReorderVHeads(dim, kHeads, vPerK, headDim) =>
      n == 2 && InRange(dim, 2) && kHeads * vPerK * headDim == if FromFront(dim, 2) == 0 then Lead(t)[0] else Cols(t)
  }

  // ---- `t[ix]` ----

  lemma {:induction false} FullPositions(ixs: seq<Index>, shape: seq<nat>)
    requires |ixs| == |shape| && forall i :: 0 <= i < |ixs| ==> ixs[i] == FULL
    ensures AllPositions(ixs, shape).Some?
  {
    if ixs != [] {
      FullTakesAll(shape[0]);
      FullPositions(ixs[1..], shape[1..]);
    }
  }

  /** Where an index makes sense along the first axis, it does on the tensor. */
  lemma FirstPosition(t: Flat, ix: Index)
    requires ValidFlat(t) && t.shape != []
    ensures IndexFlat(t, [ix]).Some? <==> Positions(ix, t.shape[0]).Some?
  {
    hide Size, Positions, SelectFlat, KeptShape;
    FullPositions(Full(|t.shape| - 1), t.shape[1..]);
    assert Padded([ix], |t.shape|)[1..] == Full(|t.shape| - 1);
  }

  /** Indexing both factors alike leaves equally many axes and the rank in its place. */
  lemma BothFit(t: Lora, us: seq<Index>, ixs: seq<Index>, row: Index, last: Index)
    requires Coherent(t) && |us| == |ixs| == Dims(t) - 2 && row.Range? && last.Range? && Numbers(us) == Numbers(ixs)
    requires IndexFlat(t.a, us + [FULL, last]).Some? && IndexFlat(t.b, ixs + [row]).Some?
    ensures Make(IndexFlat(t.a, us + [FULL, last]), IndexFlat(t.b, ixs + [row])).Some?
  {
    hide Size, Rows, FromRows, AllPositions, Positions, GatherCols, GatherRows, IndexFlat, SelectedRow, Keep, Numbers, Coherent;
    CoherentParts(t);
    IndexA(t, us, last);
    IndexBFull(t, ixs, row);
    FactorsByRows(t);
    IndexB(Rows(t.b), Batch(t), Len(t), ixs, row, FULL);
    FullTakesAll(Rank(t));
    KeepClip(Numbers(ixs), Counts(AllPositions(us, Units(t)).value), Counts(AllPositions(ixs, Batch(t)).value));
    RowsShape(IndexFlat(t.a, us + [FULL, last]).value, Keep(Numbers(us), Counts(AllPositions(us, Units(t)).value)), Rank(t), |Positions(last, Cols(t)).value|);
    RowsShape(IndexFlat(t.b, ixs + [row]).value, Keep(Numbers(ixs), Counts(AllPositions(ixs, Batch(t)).value)), |Positions(row, Len(t)).value|, Rank(t));
  }

  lemma RowsShape(t: Flat, kept: seq<nat>, len: nat, cols: nat)
    requires t.shape == kept + [len] + [cols]
    ensures |t.shape| == |kept| + 2 && t.shape[|kept|] == len && t.shape[|kept| + 1] == cols
  {
  }

  lemma GetDefined(t: Lora, ix: Index)
    requires Coherent(t)
    ensures GetOne(t, ix).Some? <==> IndexFlat(DenseOf(t), [ix]).Some? && Supported(Get(ix), t)
  {
    hide IndexFlat, DenseOf, Positions, Size, Coherent;
    CoherentParts(t);
    DenseShape(t);
    FirstPosition(t.a, ix);
    FirstPosition(t.b, ix);
    FirstPosition(DenseOf(t), ix);
    assert DenseOf(t).shape[0] == t.b.shape[0] == Lead(t)[0];
    if Dims(t) > 2 {
      if IndexFlat(t.a, [ix]).Some? && IndexFlat(t.b, [ix]).Some? {
        GetFits(t, ix);
      }
    } else if ix.Range? && IndexFlat(t.b, [ix]).Some? {
      GetTwoFits(t, ix);
    }
  }

  lemma GetFits(t: Lora, ix: Index)
    requires Coherent(t) && Dims(t) > 2 && IndexFlat(t.a, [ix]).Some? && IndexFlat(t.b, [ix]).Some?
    ensures GetOne(t, ix).Some?
  {
    hide IndexFlat, Size;
    var m := Dims(t) - 2;
    var us := [ix] + Full(m - 1);
    IndexPadded(t.a, [ix]);
    IndexPadded(t.b, [ix]);
    IndexBFull(t, us, FULL);
    assert Padded([ix], m + 2) == us + [FULL, FULL];
    BothFit(t, us, us, FULL, FULL);
  }

  lemma GetTwoFits(t: Lora, ix: Index)
    requires Coherent(t) && Dims(t) == 2 && ix.Range? && IndexFlat(t.b, [ix]).Some?
    ensures Make(Some(t.a), IndexFlat(t.b, [ix])).Some?
  {
    hide Size, Rows, FromRows, AllPositions, Positions, GatherCols, GatherRows, IndexFlat, SelectedRow, Keep;
    FactorsByRows(t);
    assert [] + [ix] == [ix] && [] + [ix, FULL] == [ix, FULL];
    IndexBFull(t, [], ix);
    IndexB(Rows(t.b), Batch(t), Len(t), [], ix, FULL);
    FullTakesAll(Rank(t));
    assert Keep([], []) == [] by {
      NoneKept();
    }
    assert Numbers([]) == [] && Counts([]) == [];
  }

  lemma NoneKept()
    ensures Keep([], []) == [] && AllPositions([], []) == Some([])
  {
  }

  // ---- `t[i, j, ...]` ----

  /** Where the weight has positions, so has `A` along the axes in front of it. */
  lemma {:induction false} UnitsIndexable(ixs: seq<Index>, units: seq<nat>, batch: seq<nat>)
    requires |ixs| == |units| && Paired(units, batch) && AllPositions(ixs, batch).Some?
    ensures UnitIndices(ixs, units).Some? && AllPositions(UnitIndices(ixs, units).value, units).Some?
  {
    hide Positions;
    if ixs != [] {
      assert Paired(units[1..], batch[1..]);
      UnitsIndexable(ixs[1..], units[1..], batch[1..]);
      UnitIndexable(ixs[0], units[0], batch[0]);
      var us := [UnitIndex(ixs[0], units[0]).value] + UnitIndices(ixs[1..], units[1..]).value;
      assert us[1..] == UnitIndices(ixs[1..], units[1..]).value;
    }
  }

  lemma UnitIndexable(ix: Index, unit: nat, len: nat)
    requires (unit == 1 || unit == len) && Positions(ix, len).Some?
    ensures UnitIndex(ix, unit).Some? && Positions(UnitIndex(ix, unit).value, unit).Some?
  {
    FullTakesAll(unit);
  }

  /** The positions an index of the whole weight selects, axis by axis. */
  lemma IndexedParts(t: Flat, batch: seq<nat>, len: nat, cols: nat, first: seq<Index>, row: Index, last: Index)
    requires ValidFlat(t) && t.shape == batch + [len] + [cols] && |first| == |batch|
    ensures IndexFlat(t, first + [row, last]).Some? <==>
            AllPositions(first, batch).Some? && Positions(row, len).Some? && Positions(last, cols).Some?
    ensures var r, p := IndexFlat(t, first + [row, last]), AllPositions(first, batch);
            r.Some? ==>
            r.value.shape == KeptShape(first, p.value) + (if row.Item? then [] else [|Positions(row, len).value|])
                             + (if last.Item? then [] else [|Positions(last, cols).value|])
  {
    hide Size, AllPositions, Positions, SelectFlat, KeptShape;
    assert Padded(first + [row] + [last], |t.shape|) == first + [row] + [last] == first + [row, last];
    AllPositionsSnoc(first + [row], batch + [len], last, cols);
    AllPositionsSnoc(first, batch, row, len);
    var p, q, r := AllPositions(first, batch), Positions(row, len), Positions(last, cols);
    if p.Some? && q.Some? && r.Some? {
      KeptShapeSnoc(first, p.value, row, q.value);
      KeptShapeSnoc(first + [row], p.value + [q.value], last, r.value);
    }
  }

  /** Full slices keep the axes of `A` as they are. */
  lemma {:induction false} KeptUnits(us: seq<Index>, units: seq<nat>)
    requires |us| == |units| && AllPositions(us, units).Some?
    requires forall i :: 0 <= i < |us| ==> us[i].Item? || us[i] == FULL
    ensures KeptShape(us, AllPositions(us, units).value) == Keep(Numbers(us), units)
  {
    if us != [] {
      KeptUnits(us[1..], units[1..]);
      FullTakesAll(units[0]);
      assert Numbers(us)[1..] == Numbers(us[1..]);
    }
  }

  /** Where the factors and the weight have positions for an index, and the shapes of the indexed factors. */
  lemma TupleParts(t: Lora, us: seq<Index>, first: seq<Index>, row: Index, last: Index)
    requires Coherent(t) && |us| == |first| == Dims(t) - 2
    ensures var pu, pl := AllPositions(us, Units(t)), AllPositions(first, Batch(t));
            var r, c := Positions(row, Len(t)), Positions(last, Cols(t));
            var x, y := IndexFlat(t.a, us + [FULL, last]), IndexFlat(t.b, first + [row]);
            && (x.Some? <==> pu.Some? && c.Some?)
            && (y.Some? <==> pl.Some? && r.Some?)
            && (IndexFlat(DenseOf(t), first + [row, last]).Some? <==> pl.Some? && r.Some? && c.Some?)
            && (x.Some? ==> x.value.shape == KeptShape(us, pu.value) + [Rank(t)] + (if last.Item? then [] else [|c.value|]))
            && (y.Some? ==> y.value.shape == KeptShape(first, pl.value) + (if row.Item? then [] else [|r.value|]) + [Rank(t)])
  {
    hide Size, AllPositions, Positions, KeptShape, IndexFlat, Rows, FromRows, DenseOf;
    FactorsByRows(t);
    DenseShape(t);
    FullTakesAll(Rank(t));
    IndexPadded(t.b, first + [row]);
    assert Padded(first + [row], Dims(t)) == first + [row, FULL];
    assert t.a.shape == Units(t) + [Rank(t)] + [Cols(t)];
    IndexedParts(t.a, Units(t), Rank(t), Cols(t), us, FULL, last);
    IndexedParts(t.b, Batch(t), Len(t), Rank(t), first, row, FULL);
    IndexedParts(DenseOf(t), Batch(t), Len(t), Cols(t), first, row, last);
  }

  lemma GetManyDefined(t: Lora, ixs: seq<Index>)
    requires Coherent(t)
    ensures GetMany(t, ixs).Some? <==> IndexFlat(DenseOf(t), ixs).Some? && TupleSupported(t, ixs)
  {
    hide IndexFlat, DenseOf, Size, UnitIndices, Make, AllPositions, KeptShape, Positions, Keep, Coherent;
    CoherentParts(t);
    DenseShape(t);
    var n := Dims(t);
    if |ixs| > n {
      IndexArity(DenseOf(t), ixs);
    } else if ixs != [] {
      var all := Padded(ixs, n);
      var first, row, last := all[..n - 2], all[n - 2], all[n - 1];
      assert all == first + [row, last];
      assert n - 1 <= |ixs| ==> all[n - 2] == ixs[n - 2];
      assert n == |ixs| ==> all[n - 1] == ixs[n - 1] && all == ixs;
      IndexPadded(DenseOf(t), ixs);
      GetManyByParts(t, ixs, first, row, last);
      if TwoNumbers(t, ixs) {
        TwoNumbersDefined(t, first, row, last);
      } else {
        RangesDefined(t, first, row, last);
      }
    }
  }

  /** What the tuple form builds from the parts of a padded index. */
  function GetParts(t: Lora, first: seq<Index>, row: Index, last: Index): Option<Lora>
    requires Built(t) && |first| == Dims(t) - 2
  {
    var us := UnitIndices(first, Units(t));
    if us.None? then None else Make(IndexFlat(t.a, us.value + [FULL, last]), IndexFlat(t.b, first + [row]))
  }

  lemma GetManyByParts(t: Lora, ixs: seq<Index>, first: seq<Index>, row: Index, last: Index)
    requires Built(t) && |ixs| <= Dims(t) && ixs != [] && |first| == Dims(t) - 2 && Padded(ixs, Dims(t)) == first + [row, last]
    ensures GetMany(t, ixs) == GetParts(t, first, row, last)
  {
    hide IndexFlat, UnitIndices, Make, Padded;
    var all := first + [row, last];
    assert all[..Dims(t) - 2] == first && all[..Dims(t) - 1] == first + [row] && all[Dims(t) - 1] == last;
  }

  /** At most one number: there must be none. */
  lemma RangesDefined(t: Lora, first: seq<Index>, row: Index, last: Index)
    requires Coherent(t) && |first| == Dims(t) - 2 && (row.Range? || last.Range?)
    ensures GetParts(t, first, row, last).Some? <==> IndexFlat(DenseOf(t), first + [row, last]).Some? && row.Range? && last.Range?
  {
    hide IndexFlat, DenseOf, Size, UnitIndices, AllPositions, KeptShape, Positions, Coherent, Numbers;
    CoherentParts(t);
    var pl := AllPositions(first, Batch(t));
    if pl.Some? {
      UnitsIndexable(first, Units(t), Batch(t));
    }
    var us := UnitIndices(first, Units(t));
    if us.Some? {
      TupleParts(t, us.value, first, row, last);
      UnitsAre(first, Units(t));
      RangesAlike(us.value, first);
      var pu := AllPositions(us.value, Units(t));
      if pu.Some? && pl.Some? {
        KeptLength(us.value, pu.value);
        KeptLength(first, pl.value);
        if row.Range? && last.Range? && Positions(row, Len(t)).Some? && Positions(last, Cols(t)).Some? {
          BothFit(t, us.value, first, row, last);
        }
      }
    } else {
      TupleParts(t, first, first, row, last);
    }
  }

  /** Two numbers are within reach where the axes of `A` that stay end in one as long as the rank. */
  lemma TwoNumbersDefined(t: Lora, first: seq<Index>, row: Index, last: Index)
    requires Coherent(t) && |first| == Dims(t) - 2 && row.Item? && last.Item?
    ensures var kept := Keep(Numbers(first), Units(t));
            GetParts(t, first, row, last).Some? <==>
            IndexFlat(DenseOf(t), first + [row, last]).Some? && kept != [] && kept[|kept| - 1] == Rank(t)
  {
    hide IndexFlat, DenseOf, Size, UnitIndices, AllPositions, KeptShape, Positions, Keep, Coherent;
    CoherentParts(t);
    var pl := AllPositions(first, Batch(t));
    if pl.Some? {
      UnitsIndexable(first, Units(t), Batch(t));
    }
    var us := UnitIndices(first, Units(t));
    if us.Some? {
      TupleParts(t, us.value, first, row, last);
      UnitsAre(first, Units(t));
      RangesAlike(us.value, first);
      var pu := AllPositions(us.value, Units(t));
      if pu.Some? && pl.Some? {
        KeptUnits(us.value, Units(t));
        KeptLength(us.value, pu.value);
        KeptLength(first, pl.value);
      }
    } else {
      TupleParts(t, first, first, row, last);
    }
  }

  /** The indices of `A` are numbers where those of the weight are, and full slices elsewhere. */
  lemma UnitsAre(ixs: seq<Index>, units: seq<nat>)
    requires |ixs| == |units| && UnitIndices(ixs, units).Some?
    ensures var us := UnitIndices(ixs, units).value;
            Numbers(us) == Numbers(ixs) && forall i :: 0 <= i < |us| ==> (us[i].Item? <==> ixs[i].Item?) && (us[i].Item? || us[i] == FULL)
  {
    hide UnitIndices;
    var us := UnitIndices(ixs, units).value;
    forall i | 0 <= i < |us|
      ensures (us[i].Item? <==> ixs[i].Item?) && (us[i].Item? || us[i] == FULL)
    {
      assert UnitIndex(ixs[i], units[i]) == Some(us[i]);
    }
    assert Numbers(us) == Numbers(ixs);
  }

  lemma IndexArity(t: Flat, ixs: seq<Index>)
    requires ValidFlat(t)
    ensures IndexFlat(t, ixs).Some? ==> |ixs| <= |t.shape|
  {
  }

  // ---- Reshaping ----

  /** Unit axes hold as much as `A` exactly if it has no others, or no columns. */
  lemma ReshapeADefined(t: Lora, n: nat)
    requires Coherent(t)
    ensures ReshapeTo(t.a, Ones(n) + [Rank(t), Cols(t)]).Some? <==> AllOnes(Units(t)) || Cols(t) == 0
  {
    hide Size, Coherent;
    CoherentParts(t);
    assert t.a.shape == Units(t) + [Rank(t)] + [Cols(t)] && Ones(n) + [Rank(t), Cols(t)] == Ones(n) + [Rank(t)] + [Cols(t)];
    SizeSnoc(Units(t) + [Rank(t)], Cols(t));
    SizeSnoc(Ones(n) + [Rank(t)], Cols(t));
    OnesRow(Ones(n), Rank(t));
    if AllOnes(Units(t)) {
      OnesRow(Units(t), Rank(t));
    }
    if ReshapeTo(t.a, Ones(n) + [Rank(t), Cols(t)]).Some? {
      ReshapableA(t, n);
    }
  }

  lemma ReshapeBDefined(t: Lora, lead: seq<nat>)
    requires Coherent(t)
    ensures ReshapeTo(t.b, lead + [Rank(t)]).Some? <==> Size(lead) == Size(Lead(t))
  {
    hide Size, Coherent;
    CoherentParts(t);
    SizeSnoc(lead, Rank(t));
    SizeSnoc(Lead(t), Rank(t));
    if Size(lead) * Rank(t) == Size(Lead(t)) * Rank(t) {
      CancelRank(Size(lead), Size(Lead(t)), Rank(t));
    }
  }

  lemma ReshapeDefined(t: Lora, shape: seq<int>)
    requires Coherent(t) && Wild(shape) <= 1
    ensures ReshapeLora(t, shape).Some? <==> ReshapeFlat(DenseOf(t), shape).Some? && Supported(Reshape(shape), t)
  {
    hide Size, Resolve, DenseOf, Wild, ReshapeTo, Coherent;
    CoherentParts(t);
    DenseSize(t);
    ReshapeSound(t, shape);
    var s := Resolve(shape, Size(Lead(t)) * Cols(t));
    if |shape| >= 2 && s.Some? {
      var lead := s.value[..|shape| - 1];
      ReshapeADefined(t, |shape| - 2);
      ReshapeBDefined(t, lead);
      SizeSnoc(lead, Cols(t));
      if s.value[|shape| - 1] == Cols(t) && Size(lead) == Size(Lead(t)) {
        assert s.value == lead + [Cols(t)];
        ReshapeIfFits(DenseOf(t), s.value);
        ReshapedFits(t, lead);
      }
    }
  }

  lemma ReshapeIfFits(t: Flat, shape: seq<nat>)
    requires ValidFlat(t) && Size(shape) == |t.data|
    ensures ReshapeTo(t, shape).Some?
  {
  }

  lemma ReshapedFits(t: Lora, lead: seq<nat>)
    requires Coherent(t) && |lead| >= 1
    ensures var a, b := ReshapeTo(t.a, Ones(|lead| - 1) + [Rank(t), Cols(t)]), ReshapeTo(t.b, lead + [Rank(t)]);
            a.Some? && b.Some? ==> Make(a, b).Some?
  {
    hide Size;
  }

  // ---- Permuting, splitting, scaling, reordering ----

  lemma PermuteDefined(t: Lora, dims: seq<int>)
    requires Coherent(t)
    ensures PermuteLora(t, dims).Some? <==> PermuteBy(DenseOf(t), dims).Some? && PermuteSupported(t, dims)
  {
    hide Normal, DenseOf, PermuteFlat, IsPermutation, Size;
    DenseShape(t);
    var n := Dims(t);
    var p := Normal(dims, n);
    if p.Some? && n == 2 && p.value[1] != 1 {
      TwoAxes(p.value);
      SwapIsPermutation();
    }
  }

  /** Whether there is such a piece depends on the length of the axis alone. */
  lemma PieceExists(t: Flat, cut: Cut, d: nat, k: nat)
    requires ValidFlat(t) && d < |t.shape|
    ensures PieceFlat(t, cut, d, k).Some? <==> PiecePositions(cut, t.shape[d], k).Some?
  {
    hide PiecePositions, SelectFlat, Everything;
  }

  lemma PieceDefined(t: Lora, cut: Cut, d: nat, k: nat)
    requires Coherent(t) && d < Dims(t)
    ensures PieceLora(t, cut, d, k).Some? <==> PieceFlat(DenseOf(t), cut, d, k).Some?
  {
    hide DenseOf, PiecePositions, PieceFlat, Size;
    DenseShape(t);
    var n := Dims(t);
    assert DenseOf(t).shape[d] == if d == n - 1 then Cols(t) else Lead(t)[d];
    if d == n - 1 {
      assert t.a.shape[d] == Cols(t);
    } else {
      assert t.b.shape[d] == Lead(t)[d];
      assert d < n - 2 ==> t.a.shape[d] == Units(t)[d] && Batch(t)[d] == Lead(t)[d];
    }
    PieceExists(t.a, cut, d, k);
    PieceExists(t.b, cut, d, k);
    PieceExists(DenseOf(t), cut, d, k);
    PieceAxes(t.a, cut, d, k);
    PieceAxes(t.b, cut, d, k);
  }

  /** A piece has the other axes of the whole. */
  lemma PieceAxes(t: Flat, cut: Cut, d: nat, k: nat)
    requires ValidFlat(t) && d < |t.shape|
    ensures var r := PieceFlat(t, cut, d, k);
            r.Some? ==> |r.value.shape| == |t.shape| && forall i :: 0 <= i < |t.shape| && i != d ==> r.value.shape[i] == t.shape[i]
  {
    hide PiecePositions, Size;
    assert Counts(Everything(t.shape)) == t.shape;
  }

  lemma TimesDefined(t: Lora, other: Flat)
    requires Coherent(t) && ValidFlat(other)
    ensures TimesLora(t, other).Some? <==> MultiplyFlat(DenseOf(t), other).Some? && IsColumn(other) && |other.shape| <= Dims(t)
  {
    hide Size, Rows, FromRows, MultiplyFlat, ScaleRows, GatherRows, Broadcast, Stretch, Factors, DenseOf, DenseRows, Coherent, ColumnLead;
    CoherentParts(t);
    if TimesLora(t, other).Some? {
      TimesAxes(t, other);
    }
    if IsColumn(other) && |other.shape| <= Dims(t) {
      FactorsByRows(t);
      MultiplyRows(Lead(t), Rows(t.b), other);
      MultiplyRows(Lead(t), DenseRows(t), other);
    }
  }

  lemma ReorderDefined(t: Lora, dim: int, kHeads: nat, vPerK: nat, headDim: nat)
    requires Coherent(t)
    ensures var op := ReorderVHeads(dim, kHeads, vPerK, headDim);
            Apply(op, t).Some? <==> ApplyDense(op, DenseOf(t)).Some? && Supported(op, t)
  {
    hide DenseOf, ReorderFlat, ReorderA, Size, Coherent;
    CoherentParts(t);
    DenseShape(t);
    if Dims(t) == 2 {
      ReorderRowsSound(t, kHeads, vPerK, headDim);
      ReorderColsSound(t, kHeads, vPerK, headDim);
      assert Lead(t)[0] == t.b.shape[0];
    }
  }

  /** Main result on definedness: but for a reshape with two open lengths, an operation succeeds on the
      factors if and only if it does on the dense weight and is supported. */
  lemma DefinedExactly(op: Op, t: Lora)
    requires Coherent(t) && (op.Reshape? ==> Wild(op.shape) <= 1)
    ensures Apply(op, t).Some? <==> ApplyDense(op, DenseOf(t)).Some? && Supported(op, t)
  {
    hide IndexFlat, PermuteBy, PieceFlat, MultiplyFlat, ReorderFlat, ReorderA, ReshapeFlat, DenseOf, GetOne, GetMany, ReshapeLora, PermuteLora, PieceLora, TimesLora, Coherent, TupleSupported, Wild, PermuteSupported, SwapDims;
    CoherentParts(t);
    DenseShape(t);
    match op
    case Get(ix) => GetDefined(t, ix);
    case GetTuple(ixs) => GetManyDefined(t, ixs);
    case Reshape(shape) => ReshapeDefined(t, shape);
    case PermuteAxes(dims) => PermuteDefined(t, dims);
    case SwapAxes(dim0, dim1) =>
      var dims := SwapDims(Dims(t), dim0, dim1);
      if dims.Some? {
        PermuteDefined(t, dims.value);
      }
    case Piece(cut, dim, k) =>
      if InRange(dim, Dims(t)) {
        PieceDefined(t, cut, FromFront(dim, Dims(t)), k);
      }
    case Times(other) =>
      if ValidFlat(other) {
        TimesDefined(t, other);
      } else {
        InvalidFactor(t, other);
      }
    case ReorderVHeads(dim, kHeads, vPerK, headDim) => ReorderDefined(t, dim, kHeads, vPerK, headDim);
  }

  lemma InvalidFactor(t: Lora, other: Flat)
    requires Built(t) && !ValidFlat(other)
    ensures TimesLora(t, other).None?
  {
  }
}
