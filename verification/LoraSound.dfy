/** What choosing along the axes of both factors means for the product (engine/convert_lora_to_gguf.py,
    `LoraTorchTensor`): indexing, slicing and splitting are all of this kind. */
module LoraSound {
  import opened Common
  import opened Matrices
  import opened Shapes
  import opened UnitAxes
  import opened TensorOps
  import opened RowViews
  import opened LoraFactors
  import opened LoraProduct

  // ---- Small facts ----

  lemma CoherentParts(t: Lora)
    requires Coherent(t)
    ensures Built(t) && Rank(t) > 0 && Paired(Units(t), Batch(t)) && Dims(t) >= 2
  {
  }

  /** The factors as matrices. */
  lemma FactorsByRows(t: Lora)
    requires Built(t)
    ensures t.b == FromRows(Lead(t), Rows(t.b)) && |Rows(t.b).rows| == Size(Lead(t)) && Rows(t.b).cols == Rank(t)
    ensures t.a.shape == Units(t) + [Rank(t), Cols(t)] && t.b.shape == Lead(t) + [Rank(t)]
    ensures Lead(t) == Batch(t) + [Len(t)] && LeadOf(t.a) == Units(t) + [Rank(t)]
    ensures |Rows(t.a).rows| == Size(Units(t) + [Rank(t)]) && Rows(t.a).cols == Cols(t)
    ensures t.a == FromRows(Units(t) + [Rank(t)], Rows(t.a))
  {
    hide Size, Rows, FromRows;
    RowsBack(t.b);
    RowsBack(t.a);
    assert LeadOf(t.a) == Units(t) + [Rank(t)];
  }

  /** The dense weight by rows. */
  function DenseRows(t: Lora): (d: Matrix)
    requires Coherent(t)
    ensures Valid(d) && d.cols == Cols(t) && |d.rows| == Size(Lead(t))
    ensures DenseOf(t) == FromRows(Lead(t), d)
  {
    ServedBlocks(t);
    BlockDense(Rows(t.a), Rows(t.b), Served(t))
  }

  /** A weight whose factors are given by rows. */
  ghost predicate ByRows(t: Lora, units: seq<nat>, batch: seq<nat>, len: nat, a: Matrix, b: Matrix) {
    && Valid(a) && Valid(b) && b.cols > 0 && Paired(units, batch)
    && |a.rows| == Size(units + [b.cols]) && |b.rows| == Size(batch + [len])
    && t.a == FromRows(units + [b.cols], a) && t.b == FromRows(batch + [len], b)
  }

  lemma ByRowsMeans(t: Lora, units: seq<nat>, batch: seq<nat>, len: nat, a: Matrix, b: Matrix)
    requires ByRows(t, units, batch, len, a, b)
    ensures Coherent(t) && Units(t) == units && Batch(t) == batch && Len(t) == len && Lead(t) == batch + [len]
    ensures Rank(t) == b.cols && Cols(t) == a.cols && Rows(t.a) == a && Rows(t.b) == b
    ensures Blocks(a, b, UnitRows(units, batch, len)) && DenseRows(t) == BlockDense(a, b, UnitRows(units, batch, len))
  {
    hide Size, Rows, FromRows, BlockDense, UnitRows;
    RowsOf(units + [b.cols], a);
    RowsOf(batch + [len], b);
    assert t.a.shape == units + [b.cols] + [a.cols] && t.b.shape == batch + [len] + [b.cols];
    ServedBlocks(t);
  }

  // ---- Choosing along both factors ----

  /** A chosen matrix of `A` is the matrix at the chosen place. */
  lemma BlockSelected(a: Matrix, units: seq<nat>, r: nat, pu: seq<seq<nat>>, u: nat)
    requires Valid(a) && |a.rows| == Size(units + [r]) && GoodPicks(units, pu) && u < Size(Counts(pu))
    ensures GoodPicks(units + [r], pu + [UpTo(r)]) && Indices(SelectedRows(units + [r], pu + [UpTo(r)]), |a.rows|)
    ensures var g := GatherRows(a, SelectedRows(units + [r], pu + [UpTo(r)]));
            && HasBlock(g, r, u) && HasBlock(a, r, SelectedRow(units, pu, u))
            && Block(g, r, u) == Block(a, r, SelectedRow(units, pu, u))
  {
    hide Size, SelectedRow;
    var picks := pu + [UpTo(r)];
    var v := SelectedRow(units, pu, u);
    CountsSnoc(pu, UpTo(r));
    SizeSnoc(Counts(pu), r);
    SizeSnoc(units, r);
    Bounds(u, Size(Counts(pu)), r);
    Bounds(v, Size(units), r);
    assert GoodPicks(units + [r], picks);
    var g := GatherRows(a, SelectedRows(units + [r], picks));
    forall j | 0 <= j < r
      ensures Block(g, r, u).rows[j] == Block(a, r, v).rows[j]
    {
      SelectedSnoc(units, r, pu, UpTo(r), u, j);
    }
    assert Block(g, r, u).rows == Block(a, r, v).rows;
  }

  lemma FitSizes(drop: seq<bool>, pu: seq<seq<nat>>, pl: seq<seq<nat>>, units: seq<nat>)
    requires AllFit(drop, pu, pl, units)
    ensures |drop| == |pu| == |pl| == |units|
    ensures Paired(Keep(drop, Counts(pu)), Keep(drop, Counts(pl)))
    ensures Size(Keep(drop, Counts(pu))) == Size(Counts(pu)) && Size(Keep(drop, Counts(pl))) == Size(Counts(pl))
  {
    hide Size, Keep, AllFit;
    FitIsPaired(drop, pu, pl, units);
    KeepPaired(drop, Counts(pu), Counts(pl));
    KeepSize(drop, Counts(pu));
    KeepSize(drop, Counts(pl));
  }

  /** Fitting choices: `drop` marks axes that disappear, `pu` and `pl` choose along the axes in front of `A`
      and along the batch, `prow` along the axis behind it, `pcol` along the columns. */
  datatype Choice = Choice(drop: seq<bool>, pu: seq<seq<nat>>, pl: seq<seq<nat>>, prow: seq<nat>, pcol: seq<nat>)

  ghost predicate FitsWeight(c: Choice, t: Lora) {
    && Coherent(t) && GoodPicks(Units(t), c.pu) && GoodPicks(Batch(t), c.pl) && AllFit(c.drop, c.pu, c.pl, Units(t))
    && Indices(c.prow, Len(t)) && Indices(c.pcol, Cols(t))
  }

  /** The rows of `A` and of the weight that are chosen. */
  function RowsA(c: Choice, t: Lora): (ix: seq<nat>)
    requires FitsWeight(c, t)
    ensures Indices(ix, |Rows(t.a).rows|)
  {
    FactorsByRows(t);
    SelectedRows(Units(t) + [Rank(t)], c.pu + [UpTo(Rank(t))])
  }

  function RowsB(c: Choice, t: Lora): (ix: seq<nat>)
    requires FitsWeight(c, t)
    ensures Indices(ix, Size(Lead(t)))
  {
    FactorsByRows(t);
    SelectedRows(Lead(t), c.pl + [c.prow])
  }

  function NewUnits(c: Choice): seq<nat>
    requires |c.drop| == |c.pu|
  {
    Keep(c.drop, Counts(c.pu))
  }

  function NewBatch(c: Choice): seq<nat>
    requires |c.drop| == |c.pl|
  {
    Keep(c.drop, Counts(c.pl))
  }

  lemma ChoiceSizes(c: Choice, t: Lora)
    requires FitsWeight(c, t)
    ensures |c.drop| == |c.pu| == |c.pl| == Dims(t) - 2 && Paired(NewUnits(c), NewBatch(c))
    ensures |RowsA(c, t)| == Size(NewUnits(c) + [Rank(t)]) && |RowsB(c, t)| == Size(NewBatch(c) + [|c.prow|])
    ensures |RowsB(c, t)| == Size(NewBatch(c)) * |c.prow| && |Rows(t.a).rows| == Size(Units(t) + [Rank(t)])
    ensures Size(NewBatch(c)) == Size(Counts(c.pl)) && Size(NewUnits(c)) == Size(Counts(c.pu))
  {
    hide Size, Keep, AllFit, SelectedRow, Rows;
    FitSizes(c.drop, c.pu, c.pl, Units(t));
    FactorsByRows(t);
    CountsSnoc(c.pu, UpTo(Rank(t)));
    CountsSnoc(c.pl, c.prow);
    SizeSnoc(NewUnits(c), Rank(t));
    SizeSnoc(Counts(c.pu), Rank(t));
    SizeSnoc(NewBatch(c), |c.prow|);
    SizeSnoc(Counts(c.pl), |c.prow|);
  }

  /** Row `q * |prow| + s` of the result, and where it comes from. */
  lemma RowOfChoice(c: Choice, t: Lora, q: nat, s: nat, r: nat)
    requires FitsWeight(c, t) && q < Size(Counts(c.pl)) && s < |c.prow| && r == q * |c.prow| + s
    ensures r < |RowsB(c, t)| && RowsB(c, t)[r] == SelectedRow(Batch(t), c.pl, q) * Len(t) + c.prow[s]
  {
    hide Size, AllFit, SelectedRow;
    FactorsByRows(t);
    CountsSnoc(c.pl, c.prow);
    SelectedSnoc(Batch(t), Len(t), c.pl, c.prow, q, s);
  }

  /** This row is served by the matrix that serves the row it comes from. */
  lemma ChosenServed(c: Choice, t: Lora, q: nat, s: nat, r: nat)
    requires FitsWeight(c, t) && |c.drop| == |c.pu| == |c.pl| && Paired(NewUnits(c), NewBatch(c))
    requires q < Size(NewBatch(c)) && Size(NewBatch(c)) == Size(Counts(c.pl)) && Size(NewUnits(c)) == Size(Counts(c.pu)) && s < |c.prow|
    requires r == q * |c.prow| + s
    ensures var u := UnitAt(NewUnits(c), NewBatch(c), q);
            && r < |RowsB(c, t)| && RowsB(c, t)[r] < |Served(t)|
            && SelectedRow(Units(t), c.pu, u) == Served(t)[RowsB(c, t)[r]]
  {
    hide Size, Keep, AllFit, SelectedRow, UnitAt, Served, RowsB;
    RowOfChoice(c, t, q, s, r);
    UnitSelected(c.drop, Units(t), Batch(t), c.pu, c.pl, q);
    RowParts(t, SelectedRow(Batch(t), c.pl, q), c.prow[s]);
  }

  /** The chosen rows have, of the chosen matrices, those of the rows they come from. */
  lemma ChosenBlock(c: Choice, t: Lora, i: nat)
    requires FitsWeight(c, t) && |c.drop| == |c.pu| == |c.pl| && Paired(NewUnits(c), NewBatch(c))
    requires i < |RowsB(c, t)| == Size(NewBatch(c)) * |c.prow| && |Rows(t.a).rows| == Size(Units(t) + [Rank(t)])
    requires Size(NewBatch(c)) == Size(Counts(c.pl)) && Size(NewUnits(c)) == Size(Counts(c.pu))
    ensures i < |UnitRows(NewUnits(c), NewBatch(c), |c.prow|)| && RowsB(c, t)[i] < |Served(t)|
    ensures var g := GatherCols(GatherRows(Rows(t.a), RowsA(c, t)), c.pcol);
            var h := GatherCols(Rows(t.a), c.pcol);
            var u, v := UnitRows(NewUnits(c), NewBatch(c), |c.prow|)[i], Served(t)[RowsB(c, t)[i]];
            HasBlock(g, Rank(t), u) && HasBlock(h, Rank(t), v) && Block(g, Rank(t), u) == Block(h, Rank(t), v)
  {
    hide Size, Keep, AllFit, SelectedRow, UnitAt, UnitRows, Served, Rows, Block, GatherCols, GatherRows;
    var q, s := Place(i, Size(NewBatch(c)), |c.prow|);
    UnitRowIs(NewUnits(c), NewBatch(c), |c.prow|, q, s);
    ChosenServed(c, t, q, s, i);
    var u := UnitAt(NewUnits(c), NewBatch(c), q);
    BlockSelected(Rows(t.a), Units(t), Rank(t), c.pu, u);
    BlockCols(GatherRows(Rows(t.a), RowsA(c, t)), Rank(t), u, c.pcol);
    BlockCols(Rows(t.a), Rank(t), SelectedRow(Units(t), c.pu, u), c.pcol);
  }

  /** Main result on choosing: factors chosen from fittingly multiply out to the weight chosen from. */
  lemma ChoiceSound(c: Choice, t: Lora, r: Lora)
    requires FitsWeight(c, t) && |c.drop| == |c.pu| == |c.pl|
    requires |RowsA(c, t)| == Size(NewUnits(c) + [Rank(t)]) && |RowsB(c, t)| == Size(NewBatch(c) + [|c.prow|])
    requires r.a == FromRows(NewUnits(c) + [Rank(t)], GatherCols(GatherRows(Rows(t.a), RowsA(c, t)), c.pcol))
    requires Size(Lead(t)) == |Rows(t.b).rows|
    requires r.b == FromRows(NewBatch(c) + [|c.prow|], GatherRows(Rows(t.b), RowsB(c, t)))
    ensures Coherent(r) && Rank(r) == Rank(t)
    ensures DenseOf(r) == FromRows(NewBatch(c) + [|c.prow|], GatherCols(GatherRows(DenseRows(t), RowsB(c, t)), c.pcol))
  {
    hide Size, Keep, AllFit, UnitRows, Served, Rows, FromRows, Block, GatherCols, GatherRows, BlockDense, RowsA, RowsB;
    var a, b := GatherCols(GatherRows(Rows(t.a), RowsA(c, t)), c.pcol), GatherRows(Rows(t.b), RowsB(c, t));
    ChoiceSizes(c, t);
    ByRowsMeans(r, NewUnits(c), NewBatch(c), |c.prow|, a, b);
    ServedBlocks(t);
    var us, vs := UnitRows(NewUnits(c), NewBatch(c), |c.prow|), PickNats(Served(t), RowsB(c, t));
    BlockDenseRows(Rows(t.a), Rows(t.b), Served(t), RowsB(c, t));
    BlockDenseCols(Rows(t.a), b, vs, c.pcol);
    forall i | 0 <= i < |us|
      ensures HasBlock(GatherCols(Rows(t.a), c.pcol), b.cols, vs[i]) && HasBlock(a, b.cols, us[i])
      ensures Block(GatherCols(Rows(t.a), c.pcol), b.cols, vs[i]) == Block(a, b.cols, us[i])
    {
      ChosenBlock(c, t, i);
    }
    SameBlocks(GatherCols(Rows(t.a), c.pcol), b, vs, a, us);
  }
}
