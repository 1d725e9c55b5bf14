/** `B @ A` by rows: for factors in order, the product that `matmul` forms gives each row of the weight as
    the row of `B` times the matrix of `A` that serves it (engine/convert_lora_to_gguf.py, lines 41-42
    and 213). */
module LoraProduct {
  import opened Common
  import opened Matrices
  import opened Shapes
  import opened UnitAxes
  import opened TensorOps
  import opened RowViews
  import opened LoraFactors

  lemma ClipInside(idx: seq<nat>, shape: seq<nat>)
    requires InShape(shape, idx)
    ensures Clip(idx, shape) == idx
  {
  }

  /** An element of `A`, and one of `B`, in the storage. */
  lemma ElementA(t: Lora, unit: seq<nat>, j: nat, c: nat)
    requires Built(t) && InShape(Units(t), unit) && j < Rank(t) && c < Cols(t)
    ensures InShape(t.a.shape, unit + [j, c]) && Flatten(Units(t), unit) < Size(Units(t))
    ensures HasBlock(Rows(t.a), Rank(t), Flatten(Units(t), unit))
    ensures var f := Flatten(t.a.shape, unit + [j, c]);
            f < |t.a.data| && t.a.data[f] == Block(Rows(t.a), Rank(t), Flatten(Units(t), unit)).rows[j][c]
  {
    hide Size, Flatten, Rows;
    var units, r := Units(t), Rank(t);
    assert t.a.shape == units + [r] + [Cols(t)] && LeadOf(t.a) == units + [r];
    assert unit + [j, c] == unit + [j] + [c];
    FlattenBound(units, unit);
    FlattenSnoc(units, r, unit, j);
    FlattenSnoc(units + [r], Cols(t), unit + [j], c);
    SizeSnoc(units, r);
    Bounds(Flatten(units, unit), Size(units), r);
    RowHolds(t.a, Flatten(units, unit) * r + j, c);
  }

  lemma ElementB(t: Lora, r: nat, j: nat)
    requires Built(t) && r < Size(Lead(t)) && j < Rank(t)
    ensures InShape(t.b.shape, Unflatten(Lead(t), r) + [j])
    ensures var f := Flatten(t.b.shape, Unflatten(Lead(t), r) + [j]);
            f < |t.b.data| && t.b.data[f] == Rows(t.b).rows[r][j]
  {
    hide Size, Flatten, Unflatten, Rows;
    FlattenUnflatten(Lead(t), r);
    FlattenSnoc(Lead(t), Rank(t), Unflatten(Lead(t), r), j);
    SnocInShape(Lead(t), Rank(t), Unflatten(Lead(t), r), j);
    RowHolds(t.b, r, j);
  }

  lemma {:induction false} DotIsBatchDot(t: Lora, r: nat, unit: seq<nat>, c: nat, k: nat)
    requires Built(t) && InShape(Units(t), unit) && r < Size(Lead(t)) && c < Cols(t) && k <= Rank(t)
    requires HasBlock(Rows(t.a), Rank(t), Flatten(Units(t), unit))
    ensures BatchDot(t, Unflatten(Lead(t), r), unit, c, k) ==
            Dot(Rows(t.b).rows[r], Block(Rows(t.a), Rank(t), Flatten(Units(t), unit)), c, k)
  {
    hide Size, Flatten, Unflatten, Rows, Block;
    if k > 0 {
      DotIsBatchDot(t, r, unit, c, k - 1);
      ElementA(t, unit, k - 1, c);
      ElementB(t, r, k - 1);
    }
  }

  lemma UnitHasBlock(t: Lora, unit: seq<nat>)
    requires Built(t) && InShape(Units(t), unit)
    ensures HasBlock(Rows(t.a), Rank(t), Flatten(Units(t), unit))
  {
    hide Size, Flatten, Rows;
    assert LeadOf(t.a) == Units(t) + [Rank(t)];
    FlattenBound(Units(t), unit);
    SizeSnoc(Units(t), Rank(t));
    Bounds(Flatten(Units(t), unit), Size(Units(t)), Rank(t));
  }

  /** Row `q * len + s` is row `s` of the matrix at `q` of the batch. */
  lemma RowParts(t: Lora, q: nat, s: nat)
    requires Coherent(t) && q < Size(Batch(t)) && s < Len(t)
    ensures var r := q * Len(t) + s;
            r < Size(Lead(t)) && Unflatten(Lead(t), r) == Unflatten(Batch(t), q) + [s]
            && r < |Served(t)| && Served(t)[r] == UnitAt(Units(t), Batch(t), q)
  {
    hide Size, Unflatten, UnitAt;
    assert Lead(t) == Batch(t) + [Len(t)];
    UnflattenSnoc(Batch(t), Len(t), q, s);
    UnitRowIs(Units(t), Batch(t), Len(t), q, s);
  }

  lemma EntryIsDot(t: Lora, r: nat, c: nat)
    requires Coherent(t) && r < Size(Lead(t)) && c < Cols(t)
    ensures Blocks(Rows(t.a), Rows(t.b), Served(t)) && |Rows(t.b).rows| == Size(Lead(t))
    ensures var idx := Unflatten(Lead(t), r) + [c];
            && Broadcast(Batch(t), Units(t)) == Some(Batch(t))
            && InShape(Batch(t) + [Len(t), Cols(t)], idx)
            && Entry(t, Batch(t), idx) == BlockDense(Rows(t.a), Rows(t.b), Served(t)).rows[r][c]
  {
    hide Size, Flatten, Unflatten, Rows, Dot, BatchDot, Broadcast, Block, UnitRows;
    ServedBlocks(t);
    BroadcastPaired(Batch(t), Units(t));
    var q, s := Place(r, Size(Batch(t)), Len(t));
    RowParts(t, q, s);
    var m, at := Dims(t) - 2, Unflatten(Batch(t), q);
    var idx := at + [s] + [c];
    assert idx[..m] == at && Batch(t) + [Len(t), Cols(t)] == Batch(t) + [Len(t)] + [Cols(t)];
    ClipInside(at, Batch(t));
    ClipInShape(Units(t), Batch(t), at);
    UnitHasBlock(t, Clip(at, Units(t)));
    DotIsBatchDot(t, r, Clip(at, Units(t)), c, Rank(t));
  }

  lemma ProductElement(t: Lora, r: nat, c: nat)
    requires Coherent(t) && r < Size(Lead(t)) && c < Cols(t) && Product(t).Some?
    ensures Blocks(Rows(t.a), Rows(t.b), Served(t)) && |Rows(t.b).rows| == Size(Lead(t))
    ensures Holds(Product(t).value.data, r, Cols(t), c, BlockDense(Rows(t.a), Rows(t.b), Served(t)))
  {
    hide Size, Flatten, Unflatten, Rows, Entry, Broadcast, BlockDense, UnitRows;
    EntryIsDot(t, r, c);
    assert Batch(t) + [Len(t), Cols(t)] == Lead(t) + [Cols(t)];
    UnflattenSnoc(Lead(t), Cols(t), r, c);
  }

  /** Main result on the product: `matmul` with broadcasting, by rows. */
  lemma ProductByRows(t: Lora)
    requires Coherent(t)
    ensures Product(t) == Some(DenseOf(t))
  {
    hide Flatten, Unflatten, Rows, Entry, Broadcast, BlockDense, UnitRows;
    BroadcastPaired(Batch(t), Units(t));
    ServedBlocks(t);
    var p, d := Product(t).value, BlockDense(Rows(t.a), Rows(t.b), Served(t));
    assert Batch(t) + [Len(t), Cols(t)] == Lead(t) + [Cols(t)];
    SizeSnoc(Lead(t), Cols(t));
    forall r: nat, c: nat | r < |d.rows| && c < d.cols
      ensures Holds(p.data, r, d.cols, c, d)
    {
      ProductElement(t, r, c);
    }
    IsFromRows(p, Lead(t), d);
  }
}
