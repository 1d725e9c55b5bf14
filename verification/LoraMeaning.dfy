/** What transposing, reordering, joining and stacking do to single elements, of tensors and of the products of
    low-rank weights (engine/convert_lora_to_gguf.py). */
module LoraMeaning {
  import opened Common
  import opened Matrices
  import opened Shapes
  import opened TensorOps
  import opened TensorMeaning
  import opened RowViews
  import opened LoraFactors
  import opened LoraProduct
  import opened LoraSound
  import opened LoraIndex
  import opened LoraExact
  import opened LoraBreaks
  import opened LoraJoin
  import opened LoraProgram

  // ---- Transposing and permuting ----

  /** Transposing the factors, where that works, exchanges the two axes of the product: its lengths, and the
      coordinates of every element. */
  lemma SwapSound(t: Lora, dim0: int, dim1: int)
    requires Coherent(t) && Apply(SwapAxes(dim0, dim1), t).Some?
    ensures Product(t).Some? && Product(Apply(SwapAxes(dim0, dim1), t).value).Some?
    ensures var n := Dims(t);
            && 0 <= dim0 + n < 2 * n && 0 <= dim1 + n < 2 * n
            && IsExchange(Product(t).value, Product(Apply(SwapAxes(dim0, dim1), t).value).value, dim0 % n, dim1 % n)
  {
    hide Apply, ApplyDense, Product, DenseOf, Breaks, IsExchange, Coherent;
    CoherentParts(t);
    NoBreak(SwapAxes(dim0, dim1), t);
    ApplySound(SwapAxes(dim0, dim1), t);
    ProductByRows(t);
    ProductByRows(Apply(SwapAxes(dim0, dim1), t).value);
    DenseShape(t);
    SwapMeans(DenseOf(t), dim0, dim1);
  }

  lemma NoBreak(op: Op, t: Lora)
    requires Built(t) && (op.SwapAxes? || op.PermuteAxes?)
    ensures !Breaks(op, t)
  {
  }

  /** Permuting the factors, where that works, gives every length and every element of the product the place
      of its axis. */
  lemma PermuteElements(t: Lora, dims: seq<int>, idx: seq<nat>)
    requires Coherent(t) && Apply(PermuteAxes(dims), t).Some?
    ensures Product(t).Some? && Product(Apply(PermuteAxes(dims), t).value).Some? && NamesAxes(dims, Dims(t))
    ensures var p, r := Product(t).value, Product(Apply(PermuteAxes(dims), t).value).value;
            && |dims| == |p.shape| && r.shape == Named(p.shape, dims)
            && (InShape(p.shape, idx) ==>
                |idx| == |dims| && InShape(r.shape, Named(idx, dims)) && Elem(r, Named(idx, dims)) == Elem(p, idx))
  {
    hide Apply, PermuteBy, Product, DenseOf, Breaks, Coherent, Named, Elem, NamesAxes;
    CoherentParts(t);
    NoBreak(PermuteAxes(dims), t);
    ApplySound(PermuteAxes(dims), t);
    ProductByRows(t);
    ProductByRows(Apply(PermuteAxes(dims), t).value);
    DenseShape(t);
    PermuteMeans(DenseOf(t), dims);
  }

  // ---- Value heads ----

  lemma ElementAtTwo(m: Matrix, r: nat, c: nat)
    requires Valid(m) && r < |m.rows| && c < m.cols && Size([|m.rows|]) == |m.rows|
    ensures var t := FromRows([|m.rows|], m); InShape(t.shape, [r, c]) && Elem(t, [r, c]) == m.rows[r][c]
  {
    hide FromRows;
    var t := FromRows([|m.rows|], m);
    assert t.shape == [|m.rows|, m.cols];
    FlattenTwo(|m.rows|, m.cols, r, c);
    ElementOf([|m.rows|], m, r, c);
  }

  /** Where element `e` of value head `v` of key head `k` comes from, and where it goes. */
  function Grouped(vPerK: nat, headDim: nat, k: nat, v: nat, e: nat): nat {
    k * (vPerK * headDim) + v * headDim + e
  }

  function Tiled(kHeads: nat, headDim: nat, k: nat, v: nat, e: nat): nat {
    v * (kHeads * headDim) + k * headDim + e
  }

  lemma HeadSource(kHeads: nat, vPerK: nat, headDim: nat, k: nat, v: nat, e: nat)
    requires k < kHeads && v < vPerK && e < headDim
    ensures var ix := PermutedRows([kHeads, vPerK, headDim], KV_SWAP);
            && Permutes([kHeads, vPerK, headDim], KV_SWAP)
            && Tiled(kHeads, headDim, k, v, e) < |ix| && ix[Tiled(kHeads, headDim, k, v, e)] == Grouped(vPerK, headDim, k, v, e)
  {
    hide PermutedRows, Source, Axes, IsPermutation;
    VHeadSource(kHeads, vPerK, headDim, k, v, e);
  }

  lemma HeadOfRows(m: Matrix, kHeads: nat, vPerK: nat, headDim: nat, k: nat, v: nat, e: nat, j: nat)
    requires Valid(m) && Size([|m.rows|]) == |m.rows| && |m.rows| == kHeads * vPerK * headDim
    requires k < kHeads && v < vPerK && e < headDim && j < m.cols
    ensures var t, from, to := FromRows([|m.rows|], m), Grouped(vPerK, headDim, k, v, e), Tiled(kHeads, headDim, k, v, e);
            var r := ReorderFlat(t, 0, kHeads, vPerK, headDim);
            && r.Some? && r.value.shape == t.shape
            && InShape(t.shape, [to, j]) && InShape(t.shape, [from, j]) && Elem(r.value, [to, j]) == Elem(t, [from, j])
  {
    hide Size, FromRows, ReorderFlat, Elem, PermutedRows, Grouped, Tiled, IsPermutation, Axes;
    HeadSource(kHeads, vPerK, headDim, k, v, e);
    ReorderFirst(m, kHeads, vPerK, headDim);
    var g := GatherRows(m, PermutedRows([kHeads, vPerK, headDim], KV_SWAP));
    ElementAtTwo(g, Tiled(kHeads, headDim, k, v, e), j);
    ElementAtTwo(m, Grouped(vPerK, headDim, k, v, e), j);
  }

  lemma HeadOfCols(m: Matrix, kHeads: nat, vPerK: nat, headDim: nat, k: nat, v: nat, e: nat, j: nat)
    requires Valid(m) && Size([|m.rows|]) == |m.rows| && m.cols == kHeads * vPerK * headDim
    requires k < kHeads && v < vPerK && e < headDim && j < |m.rows|
    ensures var t, from, to := FromRows([|m.rows|], m), Grouped(vPerK, headDim, k, v, e), Tiled(kHeads, headDim, k, v, e);
            var r := ReorderFlat(t, 1, kHeads, vPerK, headDim);
            && r.Some? && r.value.shape == t.shape
            && InShape(t.shape, [j, to]) && InShape(t.shape, [j, from]) && Elem(r.value, [j, to]) == Elem(t, [j, from])
  {
    hide Size, FromRows, ReorderFlat, Elem, PermutedRows, Grouped, Tiled, IsPermutation, Axes;
    HeadSource(kHeads, vPerK, headDim, k, v, e);
    ReorderSecond(m, kHeads, vPerK, headDim);
    var g := GatherCols(m, PermutedRows([kHeads, vPerK, headDim], KV_SWAP));
    ElementAtTwo(g, j, Tiled(kHeads, headDim, k, v, e));
    ElementAtTwo(m, j, Grouped(vPerK, headDim, k, v, e));
  }

  /** Main result on the head reordering of a matrix, along either axis and counted from either end: the row or
      column of head `v` of group `k` moves from the grouped to the tiled place. */
  lemma ReorderMeans(t: Flat, dim: int, kHeads: nat, vPerK: nat, headDim: nat, k: nat, v: nat, e: nat, j: nat)
    requires ValidFlat(t) && |t.shape| == 2 && -2 <= dim < 2 && t.shape[dim % 2] == kHeads * vPerK * headDim
    requires k < kHeads && v < vPerK && e < headDim && j < t.shape[1 - dim % 2]
    ensures var r := ApplyDense(ReorderVHeads(dim, kHeads, vPerK, headDim), t);
            var from, to := Grouped(vPerK, headDim, k, v, e), Tiled(kHeads, headDim, k, v, e);
            var x, y := if dim % 2 == 0 then [to, j] else [j, to], if dim % 2 == 0 then [from, j] else [j, from];
            && r.Some? && r.value.shape == t.shape
            && InShape(r.value.shape, x) && InShape(t.shape, y) && Elem(r.value, x) == Elem(t, y)
  {
    hide Size, Rows, FromRows, ReorderFlat, Elem, Grouped, Tiled;
    var m := Rows(t);
    RowsBack(t);
    SizeOfOne(t.shape[0]);
    assert LeadOf(t) == [t.shape[0]];
    if dim % 2 == 0 {
      HeadOfRows(m, kHeads, vPerK, headDim, k, v, e, j);
    } else {
      HeadOfCols(m, kHeads, vPerK, headDim, k, v, e, j);
    }
  }

  // ---- torch.cat and torch.stack ----

  lemma {:induction false} PartData(ts: seq<Flat>, i: nat, f: nat)
    requires i < |ts| && f < |ts[i].data|
    ensures |AllData(ts[..i])| + f < |AllData(ts)| && AllData(ts)[|AllData(ts[..i])| + f] == ts[i].data[f]
  {
    if i == 0 {
      assert ts[..0] == [];
    } else {
      PartData(ts[1..], i - 1, f);
      assert ts[..i][1..] == ts[1..][..i - 1] && ts[..i][0] == ts[0];
      assert AllData(ts[..i]) == ts[0].data + AllData(ts[1..][..i - 1]);
    }
  }

  /** A place along the first axis, `start` further on. */
  lemma MovedOn(n: nat, total: nat, tail: seq<nat>, start: nat, x: nat, rest: seq<nat>)
    requires |rest| == |tail| && InShape([n] + tail, [x] + rest) && start + n <= total
    ensures InShape([total] + tail, [start + x] + rest)
    ensures Flatten([total] + tail, [start + x] + rest) == Spot(start, Size(tail), Flatten([n] + tail, [x] + rest))
  {
    hide Size, Flatten;
    InsideTail(n, tail, x, rest);
    FlattenCons(n, tail, x, rest);
    FlattenCons(total, tail, start + x, rest);
    AddTimes(start, x, Size(tail));
  }

  lemma InsideTail(n: nat, tail: seq<nat>, x: nat, rest: seq<nat>)
    requires |rest| == |tail| && InShape([n] + tail, [x] + rest)
    ensures x < n && InShape(tail, rest)
  {
    var s, idx := [n] + tail, [x] + rest;
    assert s[0] == n && idx[0] == x;
    assert forall j :: 0 <= j < |rest| ==> rest[j] == idx[j + 1] && tail[j] == s[j + 1];
  }

  ghost predicate SameTails(ts: seq<Flat>, tail: seq<nat>) {
    forall j :: 0 <= j < |ts| ==> ValidFlat(ts[j]) && ts[j].shape != [] && Tail(ts[j].shape) == tail
  }

  lemma CatParts(ts: seq<Flat>)
    requires (forall j :: 0 <= j < |ts| ==> ValidFlat(ts[j])) && CatFlat(ts).Some?
    ensures ts != [] && ts[0].shape != [] && SameTails(ts, Tail(ts[0].shape)) && forall j :: 0 <= j < |ts| ==> ts[j].shape != []
    ensures CatFlat(ts).value == Flat([FirstLengths(ts)] + Tail(ts[0].shape), AllData(ts))
  {
    hide Size, AllData, FirstLengths, Tail;
  }

  lemma TailSplits(shape: seq<nat>, tail: seq<nat>)
    requires shape != [] && Tail(shape) == tail
    ensures shape == [shape[0]] + tail
  {
  }

  lemma PartInside(ts: seq<Flat>, tail: seq<nat>, i: nat, x: nat, rest: seq<nat>)
    requires SameTails(ts, tail) && i < |ts| && InShape(ts[i].shape, [x] + rest)
    ensures ValidFlat(ts[i]) && ts[i].shape != [] && ts[i].shape == [ts[i].shape[0]] + tail && |rest| == |tail|
    ensures FirstLengths(ts[..i]) + ts[i].shape[0] <= FirstLengths(ts)
    ensures var f := Flatten(ts[i].shape, [x] + rest); var at := Spot(FirstLengths(ts[..i]), Size(tail), f);
            f < |ts[i].data| && at < |AllData(ts)| && AllData(ts)[at] == ts[i].data[f]
  {
    TailSplits(ts[i].shape, tail);
    FlattenBound(ts[i].shape, [x] + rest);
    hide Size, Flatten, AllData, FirstLengths, Tail;
    StartsInside(ts, i);
    AllDataSize(ts[..i], tail);
    PartData(ts, i, Flatten(ts[i].shape, [x] + rest));
  }

  /** Element `[x] + rest` of `t` stands `start` further on in `r`. */
  ghost predicate StandsAt(r: Flat, t: Flat, start: nat, x: nat, rest: seq<nat>) {
    && ValidFlat(r) && ValidFlat(t) && InShape(t.shape, [x] + rest) && InShape(r.shape, [start + x] + rest)
    && Elem(r, [start + x] + rest) == Elem(t, [x] + rest)
  }

  /** Main result on joining: the parts stand one after the other along the first axis. */
  lemma CatMeans(ts: seq<Flat>, i: nat, x: nat, rest: seq<nat>)
    requires (forall j :: 0 <= j < |ts| ==> ValidFlat(ts[j])) && CatFlat(ts).Some? && i < |ts| && InShape(ts[i].shape, [x] + rest)
    ensures forall j :: 0 <= j < |ts| ==> ts[j].shape != []
    ensures CatFlat(ts).value.shape == [FirstLengths(ts)] + Tail(ts[0].shape)
    ensures StandsAt(CatFlat(ts).value, ts[i], FirstLengths(ts[..i]), x, rest)
  {
    hide *;
    CatValid(ts);
    CatParts(ts);
    var tail, r := Tail(ts[0].shape), CatFlat(ts).value;
    PartInside(ts, tail, i, x, rest);
    StandsInside(r, ts[i], FirstLengths(ts), tail, FirstLengths(ts[..i]), x, rest);
  }

  lemma StandsInside(r: Flat, t: Flat, total: nat, tail: seq<nat>, start: nat, x: nat, rest: seq<nat>)
    requires ValidFlat(r) && ValidFlat(t) && t.shape != [] && t.shape == [t.shape[0]] + tail && r.shape == [total] + tail
    requires |rest| == |tail| && InShape(t.shape, [x] + rest) && start + t.shape[0] <= total
    requires var f := Flatten(t.shape, [x] + rest); var at := Spot(start, Size(tail), f);
             f < |t.data| && at < |r.data| && r.data[at] == t.data[f]
    ensures StandsAt(r, t, start, x, rest)
  {
    hide Size, Flatten, InShape, Spot, Elem;
    MovedOn(t.shape[0], total, tail, start, x, rest);
    ElementIs(r, [start + x] + rest);
    ElementIs(t, [x] + rest);
  }

  lemma ElementIs(t: Flat, idx: seq<nat>)
    requires ValidFlat(t) && InShape(t.shape, idx)
    ensures Flatten(t.shape, idx) < |t.data| && Elem(t, idx) == t.data[Flatten(t.shape, idx)]
  {
    FlattenBound(t.shape, idx);
  }

  lemma {:induction false} StartsInside(ts: seq<Flat>, i: nat)
    requires (forall j :: 0 <= j < |ts| ==> ts[j].shape != []) && i < |ts|
    ensures FirstLengths(ts[..i]) + ts[i].shape[0] <= FirstLengths(ts)
  {
    if i > 0 {
      StartsInside(ts[1..], i - 1);
      assert ts[..i][1..] == ts[1..][..i - 1];
    }
  }

  /** Main result on stacking: tensor `i` stands at place `i` of the new first axis. */
  lemma StackMeans(ts: seq<Flat>, i: nat, idx: seq<nat>)
    requires (forall j :: 0 <= j < |ts| ==> ValidFlat(ts[j])) && StackFlat(ts).Some? && i < |ts| && InShape(ts[i].shape, idx)
    ensures ValidFlat(StackFlat(ts).value) && StackFlat(ts).value.shape == [|ts|] + ts[0].shape
    ensures var r := StackFlat(ts).value; InShape(r.shape, [i] + idx) && Elem(r, [i] + idx) == Elem(ts[i], idx)
  {
    hide Size, Flatten, AllData;
    StackValid(ts);
    var shape := ts[0].shape;
    assert ts[i].shape == shape;
    FlattenBound(shape, idx);
    FlattenCons(|ts|, shape, i, idx);
    DataAt(ts, Size(shape), i, Flatten(shape, idx));
  }
}
