/** Low-rank weights kept as two factors (engine/convert_lora_to_gguf.py, `LoraTorchTensor`).

    A weight of shape `lead + [cols]` is the product `B @ A`: `B` has shape `lead + [rank]` and `A` has
    shape `units + [rank, cols]`, where `units` are axes in front that `matmul` broadcasts: each of
    length 1, or stacked like those of the weight. Every operation works on the flat storage of one
    factor or of both, as the source does it. */
module LoraFactors {
  import opened Common
  import opened Matrices
  import opened Shapes
  import opened UnitAxes
  import opened TensorOps
  import opened RowViews

  datatype Lora = Lora(a: Flat, b: Flat)

  /** What the constructor asserts. */
  ghost predicate Built(t: Lora) {
    && ValidFlat(t.a) && ValidFlat(t.b) && |t.a.shape| == |t.b.shape| >= 2
    && t.a.shape[|t.a.shape| - 2] == t.b.shape[|t.b.shape| - 1]
  }

  function Make(a: Option<Flat>, b: Option<Flat>): (r: Option<Lora>)
    requires (a.Some? ==> ValidFlat(a.value)) && (b.Some? ==> ValidFlat(b.value))
    ensures r.Some? ==> Built(r.value) && a == Some(r.value.a) && b == Some(r.value.b)
  {
    if a.None? || b.None? then None
    else
      var n := |a.value.shape|;
      if n == |b.value.shape| >= 2 && a.value.shape[n - 2] == b.value.shape[n - 1] then Some(Lora(a.value, b.value)) else None
  }

  function Dims(t: Lora): nat {
    |t.b.shape|
  }

  function Rank(t: Lora): nat
    requires Dims(t) >= 2
  {
    Width(t.b)
  }

  function Cols(t: Lora): nat
    requires |t.a.shape| >= 2
  {
    Width(t.a)
  }

  function Lead(t: Lora): seq<nat>
    requires Dims(t) >= 2
  {
    LeadOf(t.b)
  }

  function Units(t: Lora): seq<nat>
    requires |t.a.shape| >= 2
  {
    t.a.shape[..|t.a.shape| - 2]
  }

  /** The axes of the weight that `matmul` takes as a batch, and the one behind them. */
  function Batch(t: Lora): seq<nat>
    requires Dims(t) >= 2
  {
    t.b.shape[..Dims(t) - 2]
  }

  function Len(t: Lora): nat
    requires Dims(t) >= 2
  {
    t.b.shape[Dims(t) - 2]
  }

  // ---- The product ----

  function BatchDot(t: Lora, row: seq<nat>, unit: seq<nat>, c: nat, k: nat): real
    requires Built(t) && InShape(Lead(t), row) && InShape(Units(t), unit) && c < Cols(t) && k <= Rank(t)
  {
    if k == 0 then 0.0
    else
      FlattenBound(t.b.shape, row + [k - 1]);
      FlattenBound(t.a.shape, unit + [k - 1, c]);
      BatchDot(t, row, unit, c, k - 1)
      + t.b.data[Flatten(t.b.shape, row + [k - 1])] * t.a.data[Flatten(t.a.shape, unit + [k - 1, c])]
  }

  /** One element of the product. */
  function Entry(t: Lora, batch: seq<nat>, idx: seq<nat>): real
    requires Built(t) && Broadcast(Batch(t), Units(t)) == Some(batch)
    requires InShape(batch + [Len(t), Cols(t)], idx)
  {
    var m := Dims(t) - 2;
    ClipInShape(Batch(t), batch, idx[..m]);
    ClipInShape(Units(t), batch, idx[..m]);
    BatchDot(t, Clip(idx[..m], Batch(t)) + [idx[m]], Clip(idx[..m], Units(t)), idx[m + 1], Rank(t))
  }

  /** `B @ A` with broadcasting; `None` where `matmul` refuses. */
  function Product(t: Lora): (r: Option<Flat>)
    requires Built(t)
    ensures r.Some? ==> ValidFlat(r.value)
  {
    var batch := Broadcast(Batch(t), Units(t));
    if batch.None? then None
    else
      var shape := batch.value + [Len(t), Cols(t)];
      Some(Flat(shape, seq(Size(shape), f requires 0 <= f < Size(shape) => Entry(t, batch.value, Unflatten(shape, f)))))
  }

  // ---- The operations, as the source does them ----

  /** The index `A` gets for an index of the weight: a number modulo the length, a full slice for a slice. */
  function UnitIndex(ix: Index, n: nat): (r: Option<Index>)
    ensures r.Some? ==> (r.value.Item? <==> ix.Item?)
  {
    match ix
    case Item(i) => if n == 0 then None else Some(Item(i % n))
    case Range(_, _, _) => Some(Index.Range(Open, Open, 1))
  }

  function UnitIndices(ixs: seq<Index>, shape: seq<nat>): (r: Option<seq<Index>>)
    requires |ixs| == |shape|
    ensures r.Some? ==> |r.value| == |ixs| && forall i :: 0 <= i < |ixs| ==> UnitIndex(ixs[i], shape[i]) == Some(r.value[i])
  {
    if ixs == [] then Some([])
    else
      var head, tail := UnitIndex(ixs[0], shape[0]), UnitIndices(ixs[1..], shape[1..]);
      if head.None? || tail.None? then None else Some([head.value] + tail.value)
  }

  const FULL: Index := Index.Range(Open, Open, 1)

  function GetOne(t: Lora, ix: Index): (r: Option<Lora>)
    requires Built(t)
    ensures r.Some? ==> Built(r.value)
  {
    if Dims(t) > 2 then Make(IndexFlat(t.a, [ix]), IndexFlat(t.b, [ix]))
    else if ix.Item? then None
    else Make(Some(t.a), IndexFlat(t.b, [ix]))
  }

  function GetMany(t: Lora, ixs: seq<Index>): (r: Option<Lora>)
    requires Built(t)
    ensures r.Some? ==> Built(r.value)
  {
    var n := Dims(t);
    if ixs == [] || |ixs| > n then None
    else
      var all := Padded(ixs, n);
      var units := UnitIndices(all[..n - 2], Units(t));
      if units.None? then None
      else Make(IndexFlat(t.a, units.value + [FULL, all[n - 1]]), IndexFlat(t.b, all[..n - 1]))
  }

  function ReshapeLora(t: Lora, shape: seq<int>): (r: Option<Lora>)
    requires Built(t)
    ensures r.Some? ==> Built(r.value)
  {
    var s := Resolve(shape, Size(Lead(t)) * Cols(t));
    if |shape| < 2 || s.None? then None
    else
      var last := |shape| - 1;
      if s.value[last] != Cols(t) then None
      else
        Make(ReshapeTo(t.a, Ones(last - 1) + [Rank(t), Cols(t)]), ReshapeTo(t.b, s.value[..last] + [Rank(t)]))
  }

  function PermuteLora(t: Lora, dims: seq<int>): (r: Option<Lora>)
    requires Built(t)
    ensures r.Some? ==> Built(r.value)
  {
    var n := Dims(t);
    var p := Normal(dims, n);
    if p.None? then None
    else if p.value[n - 1] == n - 1 then
      if AllOnes(Units(t)) then Make(Some(t.a), Some(PermuteFlat(t.b, p.value))) else None
    else if n == 2 then Make(Some(PermuteFlat(t.b, p.value)), Some(PermuteFlat(t.a, p.value)))
    else None
  }

  function PieceLora(t: Lora, cut: Cut, d: nat, k: nat): (r: Option<Lora>)
    requires Built(t) && d < Dims(t)
    ensures r.Some? ==> Built(r.value)
  {
    var n := Dims(t);
    if d == n - 1 then Make(PieceFlat(t.a, cut, d, k), Some(t.b))
    else if d == n - 2 || t.a.shape[d] == 1 then Make(Some(t.a), PieceFlat(t.b, cut, d, k))
    else Make(PieceFlat(t.a, cut, d, k), PieceFlat(t.b, cut, d, k))
  }

  /** Only what scales rows: a number, or a tensor whose last axis has length 1. */
  function TimesLora(t: Lora, other: Flat): (r: Option<Lora>)
    requires Built(t)
    ensures r.Some? ==> Built(r.value)
  {
    if !ValidFlat(other) || !IsColumn(other) then None else Make(Some(t.a), MultiplyFlat(t.b, other))
  }

  /** `reshape`, `permute` and `reshape` on the columns of `A`. */
  function ReorderA(a: Flat, kHeads: nat, vPerK: nat, headDim: nat): (r: Option<Flat>)
    requires ValidFlat(a) && |a.shape| == 2
    ensures r.Some? ==> ValidFlat(r.value)
  {
    var rank := a.shape[0];
    var cut := ReshapeTo(a, [rank, kHeads, vPerK, headDim]);
    if cut.None? then None
    else
      FourPermutes(rank, kHeads, vPerK, headDim);
      ReshapeFlat(PermuteFlat(cut.value, [0, 2, 1, 3]), [rank as int, -1])
  }

  lemma FourPermutes(n: nat, kHeads: nat, vPerK: nat, headDim: nat)
    ensures Permutes([n, kHeads, vPerK, headDim], [0, 2, 1, 3])
  {
    ExchangePermutes(4, 1);
    assert Exchange(4, 1) == [0, 2, 1, 3];
  }

  function Apply(op: Op, t: Lora): (r: Option<Lora>)
    requires Built(t)
    ensures r.Some? ==> Built(r.value)
  {
    var n := Dims(t);
    match op
    case Get(ix) => GetOne(t, ix)
    case GetTuple(ixs) => GetMany(t, ixs)
    case Reshape(shape) => ReshapeLora(t, shape)
    case PermuteAxes(dims) => PermuteLora(t, dims)
    case SwapAxes(dim0, dim1) =>
      var dims := SwapDims(n, dim0, dim1);
      if dims.None? then None else PermuteLora(t, dims.value)
    case Piece(cut, dim, k) => if InRange(dim, n) then PieceLora(t, cut, FromFront(dim, n), k) else None
    case Times(other) => TimesLora(t, other)
    case ReorderVHeads(dim, kHeads, vPerK, headDim) =>
      var d := if dim < 0 then dim + n else dim;
      if n == 2 && d == 0 then Make(Some(t.a), ReorderFlat(t.b, 0, kHeads, vPerK, headDim))
      else if n == 2 && d == 1 then Make(ReorderA(t.a, kHeads, vPerK, headDim), Some(t.b))
      else None
  }

  // ---- Factors in order ----

  /** Each axis in front of `A` has length 1 or that of the weight. */
  ghost predicate Coherent(t: Lora) {
    Built(t) && Rank(t) > 0 && Paired(Units(t), Batch(t))
  }

  /** For every row of the weight, the matrix of `A` that serves it. */
  function Served(t: Lora): (us: seq<nat>)
    requires Coherent(t)
  {
    UnitRows(Units(t), Batch(t), Len(t))
  }

  lemma ServedBlocks(t: Lora)
    requires Coherent(t)
    ensures Blocks(Rows(t.a), Rows(t.b), Served(t)) && |Rows(t.b).rows| == Size(Lead(t)) == Size(Batch(t)) * Len(t)
    ensures |Rows(t.a).rows| == Size(Units(t)) * Rank(t)
  {
    hide Size, Rows, UnitAt;
    assert Lead(t) == Batch(t) + [Len(t)] && LeadOf(t.a) == Units(t) + [Rank(t)];
    SizeSnoc(Batch(t), Len(t));
    SizeSnoc(Units(t), Rank(t));
    var us := Served(t);
    forall i | 0 <= i < |us|
      ensures HasBlock(Rows(t.a), Rank(t), us[i])
    {
      Bounds(us[i], Size(Units(t)), Rank(t));
    }
  }

  /** The dense weight by rows: each row of `B` times the matrix of `A` that serves it. */
  function DenseOf(t: Lora): (r: Flat)
    requires Coherent(t)
    ensures ValidFlat(r) && r.shape == Lead(t) + [Cols(t)]
  {
    ServedBlocks(t);
    FromRows(Lead(t), BlockDense(Rows(t.a), Rows(t.b), Served(t)))
  }
}
