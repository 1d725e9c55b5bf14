/** Each operation on the factors against the same operation on the dense weight: what it means when it
    succeeds (engine/convert_lora_to_gguf.py, `LoraTorchTensor`). */
module LoraExact {
  import opened Common
  import opened Matrices
  import opened Shapes
  import opened UnitAxes
  import opened TensorOps
  import opened RowViews
  import opened LoraFactors
  import opened LoraProduct
  import opened LoraSound
  import opened LoraIndex

  // ---- One matrix for all ----

  /** Where all axes in front of `A` have length 1, one matrix serves all rows. */
  lemma OneServes(t: Lora)
    requires Coherent(t) && AllOnes(Units(t))
    ensures |Rows(t.a).rows| == Rank(t) && Rows(t.b).cols == Rank(t)
    ensures DenseRows(t) == Dense(Rows(t.a), Rows(t.b))
  {
    hide Size, Rows, UnitAt, BlockDense, Dense;
    ServedBlocks(t);
    OnesSize(Units(t));
    OneBlock(Rows(t.a), Rows(t.b), Served(t));
  }

  /** A weight built from one matrix and rows. */
  lemma OneMatrix(t: Lora, units: seq<nat>, batch: seq<nat>, len: nat, a: Matrix, b: Matrix)
    requires AllOnes(units) && |units| == |batch| && Valid(a) && Valid(b) && |a.rows| == b.cols > 0
    requires Size(units + [b.cols]) == b.cols && |b.rows| == Size(batch + [len])
    requires t.a == FromRows(units + [b.cols], a) && t.b == FromRows(batch + [len], b)
    ensures Coherent(t) && Rank(t) == b.cols && DenseOf(t) == FromRows(batch + [len], Dense(a, b))
  {
    hide Size, Rows, FromRows, Dense, BlockDense;
    ByRowsMeans(t, units, batch, len, a, b);
    OneServes(t);
  }

  lemma OnesRow(units: seq<nat>, r: nat)
    requires AllOnes(units)
    ensures Size(units + [r]) == r
  {
    OnesSize(units);
    SizeSnoc(units, r);
  }

  // ---- Reshaping ----

  lemma CancelRank(x: nat, y: nat, r: nat)
    requires r > 0 && x * r == y * r
    ensures x == y
  {
    MulMono(x + 1, y, r);
    MulMono(y + 1, x, r);
  }

  lemma {:induction false} SizeOne(shape: seq<nat>)
    requires Size(shape) == 1
    ensures AllOnes(shape)
  {
    if shape != [] {
      OneTimesOne(shape[0], Size(shape[1..]));
      SizeOne(shape[1..]);
    }
  }

  lemma OneTimesOne(x: nat, y: nat)
    requires x * y == 1
    ensures x == 1 && y == 1
  {
    assert x >= 1 && y >= 1;
    if x >= 2 {
      MulMono(2, x, y);
    }
  }

  /** `A` can be given unit axes only if it has them, or no columns. */
  lemma ReshapableA(t: Lora, n: nat)
    requires Coherent(t) && ReshapeTo(t.a, Ones(n) + [Rank(t), Cols(t)]).Some?
    ensures Cols(t) > 0 ==> AllOnes(Units(t))
  {
    hide Size;
    var units, rank, cols := Units(t), Rank(t), Cols(t);
    assert t.a.shape == units + [rank] + [cols] && Ones(n) + [rank, cols] == Ones(n) + [rank] + [cols];
    SizeSnoc(units + [rank], cols);
    SizeSnoc(units, rank);
    SizeSnoc(Ones(n) + [rank], cols);
    OnesRow(Ones(n), rank);
    if cols > 0 {
      CancelRank(Size(units) * rank, rank, cols);
      assert 1 * rank == rank;
      CancelRank(Size(units), 1, rank);
      SizeOne(units);
    }
  }

  /** Tensors of equal shape without elements are equal. */
  lemma NoElements(s: Flat, t: Flat)
    requires ValidFlat(s) && ValidFlat(t) && s.shape == t.shape && s.shape != [] && Width(s) == 0
    ensures s == t
  {
    assert s.shape == LeadOf(s) + [0];
    SizeSnoc(LeadOf(s), 0);
  }

  lemma ReshapedParts(t: Lora, lead: seq<nat>, r: Lora)
    requires Coherent(t) && Built(r) && |lead| >= 1
    requires ReshapeTo(t.a, Ones(|lead| - 1) + [Rank(t), Cols(t)]) == Some(r.a) && ReshapeTo(t.b, lead + [Rank(t)]) == Some(r.b)
    ensures Coherent(r) && Rank(r) == Rank(t) && Cols(r) == Cols(t) && Lead(r) == lead && AllOnes(Units(r))
    ensures Size(lead) == Size(Lead(t))
  {
    hide Size, ReshapeTo, Paired;
    ReshapeShape(t.a, Ones(|lead| - 1) + [Rank(t), Cols(t)]);
    ReshapeShape(t.b, lead + [Rank(t)]);
    SizeSnoc(lead, Rank(t));
    SizeSnoc(Lead(t), Rank(t));
    CancelRank(Size(lead), Size(Lead(t)), Rank(t));
    assert Units(r) == Ones(|lead| - 1);
    assert Lead(r) == lead;
    OnesPaired(Units(r), Batch(r));
  }

  lemma OnesPaired(units: seq<nat>, batch: seq<nat>)
    requires AllOnes(units) && |units| == |batch|
    ensures Paired(units, batch)
  {
  }

  lemma ReshapeShape(t: Flat, shape: seq<nat>)
    requires ValidFlat(t) && ReshapeTo(t, shape).Some?
    ensures ReshapeTo(t, shape).value.shape == shape && Size(shape) == Size(t.shape)
  {
  }

  /** Another shape of the leading axes leaves the rows of the product alone. */
  lemma ReshapedProduct(t: Lora, lead: seq<nat>, r: Lora)
    requires Coherent(t) && Built(r) && |lead| >= 1
    requires ReshapeTo(t.a, Ones(|lead| - 1) + [Rank(t), Cols(t)]) == Some(r.a) && ReshapeTo(t.b, lead + [Rank(t)]) == Some(r.b)
    ensures Coherent(r) && Size(lead) == Size(Lead(t))
    ensures ReshapeTo(DenseOf(t), lead + [Cols(t)]) == Some(DenseOf(r))
  {
    hide Size, Rows, FromRows, ReshapeTo, DenseOf, DenseRows, Coherent;
    CoherentParts(t);
    ReshapedParts(t, lead, r);
    ReshapableA(t, |lead| - 1);
    ReshapeRows(Lead(t), DenseRows(t), lead);
    if Cols(t) == 0 {
      DenseShape(r);
      NoElements(FromRows(lead, DenseRows(t)), DenseOf(r));
    } else {
      ReshapedOnes(t, lead, r);
    }
  }

  lemma ReshapedOnes(t: Lora, lead: seq<nat>, r: Lora)
    requires Coherent(t) && |lead| >= 1 && AllOnes(Units(t)) && Size(lead) == Size(Lead(t))
    requires ReshapeTo(t.a, Ones(|lead| - 1) + [Rank(t), Cols(t)]) == Some(r.a) && ReshapeTo(t.b, lead + [Rank(t)]) == Some(r.b)
    ensures Coherent(r) && DenseOf(r) == FromRows(lead, DenseRows(t))
  {
    hide Size, Rows, FromRows, ReshapeTo, DenseOf, DenseRows, Coherent, Dense;
    CoherentParts(t);
    FactorsByRows(t);
    OneServes(t);
    var ones, rank := Ones(|lead| - 1), Rank(t);
    OnesRow(ones, rank);
    ReshapeRows(Units(t) + [rank], Rows(t.a), ones + [rank]);
    ReshapeRows(Lead(t), Rows(t.b), lead);
    assert ones + [rank] + [Cols(t)] == ones + [rank, Cols(t)];
    assert lead == lead[..|lead| - 1] + [lead[|lead| - 1]];
    OneMatrix(r, ones, lead[..|lead| - 1], lead[|lead| - 1], Rows(t.a), Rows(t.b));
  }

  lemma DenseSize(t: Lora)
    requires Coherent(t)
    ensures |DenseOf(t).data| == Size(Lead(t)) * Cols(t)
  {
    SizeSnoc(Lead(t), Cols(t));
  }

  lemma ReshapeSound(t: Lora, shape: seq<int>)
    requires Coherent(t)
    ensures var r := ReshapeLora(t, shape);
            r.Some? ==>
            && Coherent(r.value) && Rank(r.value) == Rank(t)
            && (Wild(shape) <= 1 ==> ReshapeFlat(DenseOf(t), shape) == Some(DenseOf(r.value)))
  {
    hide Size, Rows, FromRows, Resolve, Wild, ReshapeTo, DenseOf, Coherent;
    CoherentParts(t);
    var r := ReshapeLora(t, shape);
    if r.Some? {
      var s := Resolve(shape, Size(Lead(t)) * Cols(t)).value;
      var lead := s[..|shape| - 1];
      DenseSize(t);
      ReshapedProduct(t, lead, r.value);
      ReshapedParts(t, lead, r.value);
      assert s == lead + [Cols(t)];
    }
  }

  // ---- Permuting ----

  lemma LastFixed(p: seq<nat>)
    requires IsPermutation(p) && p != [] && p[|p| - 1] == |p| - 1
    ensures IsPermutation(p[..|p| - 1]) && p == Over(p[..|p| - 1])
  {
    var q := p[..|p| - 1];
    forall a: nat | a < |q|
      ensures a in q
    {
      assert p[Position(p, a)] == a;
      assert q[Position(p, a)] == a;
    }
  }

  lemma TwoAxes(p: seq<nat>)
    requires IsPermutation(p) && |p| == 2 && p[1] != 1
    ensures p == SWAP
  {
    assert p[0] < 2 && p[1] < 2 && p[0] != p[1];
  }

  lemma PermuteSound(t: Lora, dims: seq<int>)
    requires Coherent(t)
    ensures var r := PermuteLora(t, dims);
            r.Some? ==>
            Coherent(r.value) && Rank(r.value) == Rank(t) && PermuteBy(DenseOf(t), dims) == Some(DenseOf(r.value))
  {
    hide Normal, DenseOf, IsPermutation, PermuteFlat;
    DenseShape(t);
    var n := Dims(t);
    var p := Normal(dims, n);
    if PermuteLora(t, dims).Some? {
      if p.value[n - 1] == n - 1 {
        PermuteLeading(t, p.value);
      } else {
        Transposed(t, p.value);
      }
    }
  }

  lemma PermuteLeading(t: Lora, p: seq<nat>)
    requires Coherent(t) && AllOnes(Units(t)) && |p| == Dims(t) && IsPermutation(p) && p[Dims(t) - 1] == Dims(t) - 1
    ensures var r := Make(Some(t.a), Some(PermuteFlat(t.b, p)));
            r.Some? ==>
            Coherent(r.value) && Rank(r.value) == Rank(t) && |DenseOf(t).shape| == Dims(t) && PermuteFlat(DenseOf(t), p) == DenseOf(r.value)
  {
    hide Size, Rows, FromRows, PermuteFlat, IsPermutation, Dense, GatherRows, PermutedRows, DenseOf, DenseRows, Coherent, Axes;
    CoherentParts(t);
    DenseShape(t);
    var a, b, q := Rows(t.a), Rows(t.b), p[..Dims(t) - 1];
    LastFixed(p);
    FactorsByRows(t);
    OneServes(t);
    PermuteRows(Lead(t), b, q);
    PermuteRows(Lead(t), DenseRows(t), q);
    var r := Make(Some(t.a), Some(PermuteFlat(t.b, p)));
    if r.Some? {
      var lead, ix := Axes(Lead(t), q), PermutedRows(Lead(t), q);
      OnesRow(Units(t), Rank(t));
      assert lead == lead[..|lead| - 1] + [lead[|lead| - 1]];
      OneMatrix(r.value, Units(t), lead[..|lead| - 1], lead[|lead| - 1], a, GatherRows(b, ix));
      DenseGatherRows(a, b, ix);
    }
  }

  lemma MatrixLead(t: Lora)
    requires Built(t) && Dims(t) == 2
    ensures Lead(t) == [|Rows(t.b).rows|] && Units(t) == [] && Batch(t) == [] && Size([Rank(t)]) == Rank(t)
    ensures LeadOf(t.a) == [Rank(t)] && |Rows(t.a).rows| == Rank(t) && Len(t) == |Rows(t.b).rows| && AllOnes(Units(t))
    ensures t.a == FromRows([Rank(t)], Rows(t.a)) && t.b == FromRows([Len(t)], Rows(t.b)) && Size([Len(t)]) == Len(t)
  {
    hide Rows, FromRows;
    FactorsByRows(t);
    SizeOfOne(t.b.shape[0]);
    SizeOfOne(Rank(t));
    assert Lead(t) == [t.b.shape[0]] && Units(t) + [Rank(t)] == [Rank(t)];
  }

  /** A matrix weight built from two matrices. */
  lemma TwoMatrices(t: Lora, a: Matrix, b: Matrix)
    requires Valid(a) && Valid(b) && |a.rows| == b.cols > 0 && Size([b.cols]) == b.cols && Size([|b.rows|]) == |b.rows|
    requires t.a == FromRows([b.cols], a) && t.b == FromRows([|b.rows|], b)
    ensures Coherent(t) && Rank(t) == b.cols && DenseOf(t) == FromRows([|b.rows|], Dense(a, b))
  {
    hide Size, Rows, FromRows, Dense, DenseOf, Coherent;
    assert [] + [b.cols] == [b.cols] && [] + [|b.rows|] == [|b.rows|];
    OneMatrix(t, [], [], |b.rows|, a, b);
  }

  /** A matrix weight is an ordinary product. */
  lemma MatrixProduct(t: Lora)
    requires Coherent(t) && Dims(t) == 2
    ensures |Rows(t.a).rows| == Rows(t.b).cols == Rank(t) && DenseRows(t) == Dense(Rows(t.a), Rows(t.b))
    ensures |Rows(t.b).rows| == Len(t) && Lead(t) == [Len(t)] && Size([Len(t)]) == Len(t)
    ensures DenseOf(t) == FromRows([Len(t)], Dense(Rows(t.a), Rows(t.b)))
  {
    hide Size, Rows, FromRows, Dense, BlockDense, DenseOf, DenseRows;
    MatrixLead(t);
    OneServes(t);
  }

  /** Exchanging the axes of a matrix exchanges the factors. */
  lemma Transposed(t: Lora, p: seq<nat>)
    requires Coherent(t) && Dims(t) == 2 && |p| == 2 && IsPermutation(p) && p[1] != 1
    ensures var r := Make(Some(PermuteFlat(t.b, p)), Some(PermuteFlat(t.a, p)));
            r.Some? ==>
            Coherent(r.value) && Rank(r.value) == Rank(t) && |DenseOf(t).shape| == 2 && PermuteFlat(DenseOf(t), p) == DenseOf(r.value)
  {
    hide Size, Rows, FromRows, PermuteFlat, IsPermutation, Dense, Transpose, DenseOf, DenseRows, Coherent;
    TwoAxes(p);
    CoherentParts(t);
    DenseShape(t);
    var a, b := Rows(t.a), Rows(t.b);
    MatrixProduct(t);
    MatrixLead(t);
    PermuteTwo(a);
    PermuteTwo(b);
    PermuteTwo(Dense(a, b));
    var r := Make(Some(PermuteFlat(t.b, p)), Some(PermuteFlat(t.a, p)));
    if r.Some? {
      TwoMatrices(r.value, Transpose(b), Transpose(a));
      DenseTranspose(a, b);
    }
  }

  // ---- Scaling ----

  /** A stretched row is served by the matrix that served the row. */
  lemma StretchedServed(units: seq<nat>, batch: seq<nat>, len: nat, wide: seq<nat>, wlen: nat, i: nat)
    requires Paired(units, batch) && Paired(batch, wide) && Paired(batch + [len], wide + [wlen]) && (len == 1 || len == wlen)
    requires Paired(units, wide) && i < Size(wide + [wlen]) && Size(batch + [len]) == Size(batch) * len
    requires Size(wide + [wlen]) == Size(wide) * wlen
    ensures i < |UnitRows(units, wide, wlen)| && UnitAt(batch + [len], wide + [wlen], i) < |UnitRows(units, batch, len)|
    ensures UnitRows(units, wide, wlen)[i] == UnitRows(units, batch, len)[UnitAt(batch + [len], wide + [wlen], i)]
  {
    hide Size, UnitAt, UnitRows;
    var q, s := Place(i, Size(wide), wlen);
    UnitRowIs(units, wide, wlen, q, s);
    UnitAtSnoc(batch, len, wide, wlen, q, s);
    UnitOfUnit(units, batch, wide, q);
    UnitRowIs(units, batch, len, UnitAt(batch, wide, q), if len == 1 then 0 else s);
  }

  lemma PairedParts(batch: seq<nat>, len: nat, s: seq<nat>)
    requires Paired(batch + [len], s)
    ensures |s| == |batch| + 1 && Paired(batch, s[..|batch|]) && (len == 1 || len == s[|batch|]) && s == s[..|batch|] + [s[|batch|]]
  {
    assert forall i :: 0 <= i < |batch| ==> (batch + [len])[i] == batch[i];
    assert (batch + [len])[|batch|] == len;
  }

  lemma PairedThrough(units: seq<nat>, batch: seq<nat>, wide: seq<nat>)
    requires Paired(units, batch) && Paired(batch, wide)
    ensures Paired(units, wide)
  {
  }

  /** Multiplying by a column stretches and scales the rows of the product. */
  lemma TimesSound(t: Lora, other: Flat)
    requires Coherent(t) && |other.shape| <= Dims(t)
    ensures var r := TimesLora(t, other);
            r.Some? ==>
            Coherent(r.value) && Rank(r.value) == Rank(t) && MultiplyFlat(DenseOf(t), other) == Some(DenseOf(r.value))
  {
    hide Size, Rows, FromRows, MultiplyFlat, BlockDense, ScaleRows, GatherRows, Broadcast, Stretch, Factors, DenseOf, DenseRows, Coherent, ColumnLead;
    CoherentParts(t);
    var r := TimesLora(t, other);
    if r.Some? {
      FactorsByRows(t);
      var f := ColumnLead(other, |Lead(t)|);
      MultiplyRows(Lead(t), Rows(t.b), other);
      MultiplyRows(Lead(t), DenseRows(t), other);
      ScaledProduct(t, Broadcast(Lead(t), f).value, Factors(other.data, f, Broadcast(Lead(t), f).value), r.value);
    }
  }

  lemma ScaledProduct(t: Lora, s: seq<nat>, ks: seq<real>, r: Lora)
    requires Coherent(t) && Paired(Lead(t), s) && |ks| == Size(s) && |Rows(t.b).rows| == Size(Lead(t)) && r.a == t.a
    requires r.b == FromRows(s, ScaleRows(GatherRows(Rows(t.b), Stretch(Lead(t), s)), ks))
    ensures Coherent(r) && Rank(r) == Rank(t)
    ensures DenseOf(r) == FromRows(s, ScaleRows(GatherRows(DenseRows(t), Stretch(Lead(t), s)), ks))
  {
    hide Size, Rows, FromRows, BlockDense, ScaleRows, GatherRows, Stretch, UnitRows, Block, UnitAt;
    FactorsByRows(t);
    ServedBlocks(t);
    PairedParts(Batch(t), Len(t), s);
    var wide, wlen := s[..|Batch(t)|], s[|Batch(t)|];
    PairedThrough(Units(t), Batch(t), wide);
    var sel, us := Stretch(Lead(t), s), UnitRows(Units(t), wide, wlen);
    var g := GatherRows(Rows(t.b), sel);
    ByRowsMeans(r, Units(t), wide, wlen, Rows(t.a), ScaleRows(g, ks));
    BlockDenseRows(Rows(t.a), Rows(t.b), Served(t), sel);
    SizeSnoc(wide, wlen);
    SizeSnoc(Batch(t), Len(t));
    forall i | 0 <= i < |us|
      ensures us[i] == PickNats(Served(t), sel)[i]
    {
      StretchedServed(Units(t), Batch(t), Len(t), wide, wlen, i);
    }
    assert us == PickNats(Served(t), sel);
    BlockDenseScaled(Rows(t.a), g, us, ks);
  }

  // ---- Reordering the value heads ----

  lemma ReorderRowsSound(t: Lora, kHeads: nat, vPerK: nat, headDim: nat)
    requires Coherent(t) && Dims(t) == 2
    ensures var r := Make(Some(t.a), ReorderFlat(t.b, 0, kHeads, vPerK, headDim));
            && (r.Some? <==> kHeads * vPerK * headDim == t.b.shape[0])
            && (r.Some? ==>
                Coherent(r.value) && Rank(r.value) == Rank(t) && |DenseOf(t).shape| == 2 &&
                ReorderFlat(DenseOf(t), 0, kHeads, vPerK, headDim) == Some(DenseOf(r.value)))
  {
    hide Size, Rows, FromRows, ReorderFlat, Dense, GatherRows, PermutedRows, IsPermutation, Axes, Coherent, DenseOf, DenseRows;
    CoherentParts(t);
    DenseShape(t);
    var a, b := Rows(t.a), Rows(t.b);
    MatrixProduct(t);
    MatrixLead(t);
    var r := Make(Some(t.a), ReorderFlat(t.b, 0, kHeads, vPerK, headDim));
    if r.Some? {
      HeadsFit(t.b, kHeads, vPerK, headDim);
    }
    if kHeads * vPerK * headDim == t.b.shape[0] {
      ReorderFirst(b, kHeads, vPerK, headDim);
      ReorderFirst(Dense(a, b), kHeads, vPerK, headDim);
      var ix := PermutedRows([kHeads, vPerK, headDim], KV_SWAP);
      TwoMatrices(r.value, a, GatherRows(b, ix));
      DenseGatherRows(a, b, ix);
    }
  }

  lemma HeadsFit(b: Flat, kHeads: nat, vPerK: nat, headDim: nat)
    requires ValidFlat(b) && |b.shape| == 2 && b.shape[1] > 0 && ReorderFlat(b, 0, kHeads, vPerK, headDim).Some?
    ensures kHeads * vPerK * headDim == b.shape[0]
  {
    var heads, n := [kHeads, vPerK, headDim], b.shape[1];
    assert b.shape[..0] + heads + b.shape[1..] == heads + [n];
    SwappedSize(kHeads, vPerK, headDim);
    SizeSnoc(heads, n);
    assert b.shape == [b.shape[0]] + [n];
    SizeSnoc([b.shape[0]], n);
    SizeOfOne(b.shape[0]);
    CancelRank(kHeads * vPerK * headDim, b.shape[0], n);
  }

  lemma ReorderColsSound(t: Lora, kHeads: nat, vPerK: nat, headDim: nat)
    requires Coherent(t) && Dims(t) == 2
    ensures var r := Make(ReorderA(t.a, kHeads, vPerK, headDim), Some(t.b));
            && (r.Some? <==> kHeads * vPerK * headDim == Cols(t))
            && (r.Some? ==>
                Coherent(r.value) && Rank(r.value) == Rank(t) && |DenseOf(t).shape| == 2 &&
                ReorderFlat(DenseOf(t), 1, kHeads, vPerK, headDim) == Some(DenseOf(r.value)))
  {
    hide Size, Rows, FromRows, ReorderFlat, ReorderA, Dense, GatherCols, PermutedRows, IsPermutation, Axes, Coherent, DenseOf, DenseRows;
    CoherentParts(t);
    DenseShape(t);
    var a, b := Rows(t.a), Rows(t.b);
    MatrixProduct(t);
    MatrixLead(t);
    var r := Make(ReorderA(t.a, kHeads, vPerK, headDim), Some(t.b));
    if r.Some? {
      ReorderAFits(t, kHeads, vPerK, headDim);
    }
    if kHeads * vPerK * headDim == Cols(t) {
      ReorderAMoves(t, kHeads, vPerK, headDim);
      ReorderSecond(Dense(a, b), kHeads, vPerK, headDim);
      var ix := PermutedRows([kHeads, vPerK, headDim], KV_SWAP);
      TwoMatrices(r.value, GatherCols(a, ix), b);
      DenseGatherCols(a, b, ix);
    }
  }

  lemma ReorderAFits(t: Lora, kHeads: nat, vPerK: nat, headDim: nat)
    requires Coherent(t) && Dims(t) == 2 && ReorderA(t.a, kHeads, vPerK, headDim).Some?
    ensures kHeads * vPerK * headDim == Cols(t)
  {
    var rank, cols, three := Rank(t), Cols(t), kHeads * vPerK * headDim;
    FourSize(rank, kHeads, vPerK, headDim);
    assert t.a.shape == [rank] + [cols];
    SizeSnoc([rank], cols);
    SizeOfOne(rank);
    assert three * rank == rank * three && cols * rank == rank * cols;
    CancelRank(three, cols, rank);
  }

  /** The three steps on `A`: the element in row `i` and column `c` comes from where the exchange of the
      middle axes of `[rank, kHeads, vPerK, headDim]` takes it, so whole columns move. */
  lemma ReorderAMoves(t: Lora, kHeads: nat, vPerK: nat, headDim: nat)
    requires Coherent(t) && Dims(t) == 2 && Cols(t) == kHeads * vPerK * headDim
    ensures Permutes([kHeads, vPerK, headDim], KV_SWAP) && Size([Rank(t)]) == Rank(t)
    ensures |Rows(t.a).rows| == Rank(t)
    ensures var ix := PermutedRows([kHeads, vPerK, headDim], KV_SWAP);
            && Indices(ix, Cols(t)) && |ix| == Cols(t)
            && ReorderA(t.a, kHeads, vPerK, headDim) == Some(FromRows([Rank(t)], GatherCols(Rows(t.a), ix)))
  {
    hide Size, Rows, FromRows, PermuteFlat, IsPermutation, GatherCols, Resolve, PermutedRows;
    var a, rank := Rows(t.a), Rank(t);
    FactorsByRows(t);
    MatrixLead(t);
    ReorderLast(a, kHeads, vPerK, headDim);
    FourSize(rank, kHeads, vPerK, headDim);
    ResolveOpen(rank, Cols(t));
    SizeSnoc([rank], Cols(t));
    assert [rank] + [Cols(t)] == [rank, Cols(t)];
    assert Wild([rank as int, -1]) == 1 by {
      assert [rank as int, -1][1..] == [-1] && [-1][1..] == [];
    }
  }

  lemma ResolveOpen(r: nat, c: nat)
    requires r > 0
    ensures Resolve([r as int, -1], r * c) == Some([r, c])
  {
    var shape := [r as int, -1];
    assert Replace(shape, 1) == [r as int, 1];
    assert [r as int, 1][1..] == [1] && [1][1..] == [];
    assert AllTogether([1]) == 1 * AllTogether([]);
    assert AllTogether([r as int, 1]) == r * AllTogether([1]) == r;
    DivMod(c, 0, r);
    assert r * c == c * r;
    assert Replace(shape, c) == [r as int, c];
    assert Naturals([r as int, c]).value == [r, c];
  }

  // ---- Every operation ----

  /** The calls that succeed on the factors and mean something else: a plain slice above two dimensions
      that misses the only position of an axis of `A`, an index tuple with numbers in both of the last two
      places or with a slice of a stacked axis, and a reshape with two open lengths. */
  predicate Breaks(op: Op, t: Lora)
    requires Built(t)
  {
    match op
    case Get(ix) => CutsUnits(t, ix)
    case GetTuple(ixs) => TwoNumbers(t, ixs) || CutsSomeStack(t, ixs)
    case Reshape(shape) => Wild(shape) > 1
    case _ => false
  }

  /** A factor with more axes than the weight leaves factors with different numbers of axes. */
  lemma TimesAxes(t: Lora, other: Flat)
    requires Coherent(t) && TimesLora(t, other).Some?
    ensures |other.shape| <= Dims(t)
  {
    hide Size, Broadcast, UnitAt;
  }

  /** An operation that succeeds on the factors multiplies out to the operation on the dense weight. */
  lemma ApplySound(op: Op, t: Lora)
    requires Coherent(t) && !Breaks(op, t) && Apply(op, t).Some?
    ensures var r := Apply(op, t).value;
            Coherent(r) && Rank(r) == Rank(t) && ApplyDense(op, DenseOf(t)) == Some(DenseOf(r))
  {
    hide IndexFlat, PermuteBy, PieceFlat, MultiplyFlat, ReorderFlat, ReorderA, ReshapeFlat, DenseOf, GetOne, GetMany, ReshapeLora, PermuteLora, PieceLora, Coherent, CutsUnits, TwoNumbers, CutsSomeStack, Wild;
    CoherentParts(t);
    DenseShape(t);
    match op
    case Get(ix) => GetOneSound(t, ix);
    case GetTuple(ixs) => GetManySound(t, ixs);
    case Reshape(shape) => ReshapeSound(t, shape);
    case PermuteAxes(dims) => PermuteSound(t, dims);
    case SwapAxes(dim0, dim1) => PermuteSound(t, SwapDims(Dims(t), dim0, dim1).value);
    case Piece(cut, dim, k) => PieceSound(t, cut, FromFront(dim, Dims(t)), k);
    case Times(other) =>
      TimesAxes(t, other);
      TimesSound(t, other);
    case ReorderVHeads(dim, kHeads, vPerK, headDim) =>
      ReorderRowsSound(t, kHeads, vPerK, headDim);
      ReorderColsSound(t, kHeads, vPerK, headDim);
  }
}
