/** Tensors as flat row-major storage with a shape, and the operations PyTorch has on them, with their
    arguments and their refusals (engine/convert_lora_to_gguf.py uses them on factors; a dense weight
    has them all). */
module TensorOps {
  import opened Common
  import opened Matrices
  import opened Shapes
  import opened UnitAxes

  datatype Flat = Flat(shape: seq<nat>, data: seq<real>)

  predicate ValidFlat(t: Flat) {
    |t.data| == Size(t.shape)
  }

  // ---- Arguments as the source takes them ----

  datatype Bound = Open | At(i: int)

  /** `i` or `lo:hi:step`. */
  datatype Index = Item(i: int) | Range(lo: Bound, hi: Bound, step: int)

  /** A list of lengths or one length for all pieces. */
  datatype Cut = Every(size: nat) | Sizes(sizes: seq<nat>)

  datatype Op =
    | Get(i: Index)
    | GetTuple(ixs: seq<Index>)
    | Reshape(shape: seq<int>)
    | PermuteAxes(dims: seq<int>)
    | SwapAxes(dim0: int, dim1: int)
    | Piece(cut: Cut, dim: int, k: nat)
    | Times(other: Flat)      // a number is a tensor without axes
    | ReorderVHeads(dim: int, kHeads: nat, vPerK: nat, headDim: nat)

  function Clamp(b: Bound, n: nat, whole: nat): (r: nat)
    requires whole <= n
    ensures r <= n
  {
    match b
    case Open => whole
    case At(i) => if i + n < 0 then 0 else if i < 0 then i + n else if i < n then i else n
  }

  function Steps(lo: nat, hi: nat, step: nat): (r: seq<nat>)
    requires step > 0
    ensures forall i :: 0 <= i < |r| ==> lo <= r[i] < hi
    decreases if lo < hi then hi - lo else 0
  {
    if lo >= hi then [] else [lo] + Steps(lo + step, hi, step)
  }

  /** The positions an index selects along an axis of length `n`; `None` where Python raises. */
  function Positions(ix: Index, n: nat): (r: Option<seq<nat>>)
    ensures r.Some? ==> Indices(r.value, n)
  {
    match ix
    case Item(i) => if InRange(i, n) then Some([FromFront(i, n)]) else None
    case Range(lo, hi, step) =>
      if step <= 0 then None else Some(Steps(Clamp(lo, n, 0), Clamp(hi, n, n), step))
  }

  function AllPositions(ixs: seq<Index>, shape: seq<nat>): (r: Option<seq<seq<nat>>>)
    requires |ixs| == |shape|
    ensures r.Some? ==> GoodPicks(shape, r.value)
    ensures r.Some? ==> forall a :: 0 <= a < |ixs| ==> Positions(ixs[a], shape[a]) == Some(r.value[a])
  {
    if ixs == [] then Some([])
    else
      var head, tail := Positions(ixs[0], shape[0]), AllPositions(ixs[1..], shape[1..]);
      if head.None? || tail.None? then None else Some([head.value] + tail.value)
  }

  /** Axes indexed by a number disappear from the shape. */
  function KeptShape(ixs: seq<Index>, picks: seq<seq<nat>>): seq<nat>
    requires |ixs| == |picks|
  {
    if ixs == [] then []
    else (if ixs[0].Item? then [] else [|picks[0]|]) + KeptShape(ixs[1..], picks[1..])
  }

  function Full(n: nat): (r: seq<Index>)
    ensures |r| == n && forall i :: 0 <= i < n ==> r[i] == Range(Open, Open, 1)
  {
    seq(n, i => Range(Open, Open, 1))
  }

  lemma {:induction false} KeptSize(ixs: seq<Index>, shape: seq<nat>, picks: seq<seq<nat>>)
    requires |ixs| == |shape| && AllPositions(ixs, shape) == Some(picks)
    ensures Size(KeptShape(ixs, picks)) == Size(Counts(picks))
  {
    if ixs != [] {
      var kept := KeptShape(ixs[1..], picks[1..]);
      assert AllPositions(ixs[1..], shape[1..]) == Some(picks[1..]);
      KeptSize(ixs[1..], shape[1..], picks[1..]);
      assert Counts(picks)[1..] == Counts(picks[1..]);
      if ixs[0].Item? {
        assert [] + kept == kept;
      } else {
        assert ([|picks[0]|] + kept)[1..] == kept;
      }
    }
  }

  lemma {:induction false} AllPositionsSnoc(ixs: seq<Index>, shape: seq<nat>, ix: Index, n: nat)
    requires |ixs| == |shape|
    ensures var init, last := AllPositions(ixs, shape), Positions(ix, n);
            AllPositions(ixs + [ix], shape + [n]) ==
            if init.None? || last.None? then None else Some(init.value + [last.value])
  {
    if ixs == [] {
      assert ixs + [ix] == [ix] && shape + [n] == [n] && [ix][1..] == [] && [n][1..] == [];
      assert AllPositions([], []) == Some([]);
      var last := Positions(ix, n);
      if last.Some? {
        assert [last.value] + [] == [] + [last.value];
      }
    } else {
      AllPositionsSnoc(ixs[1..], shape[1..], ix, n);
      assert (ixs + [ix])[1..] == ixs[1..] + [ix] && (shape + [n])[1..] == shape[1..] + [n];
      var head, tail, last := Positions(ixs[0], shape[0]), AllPositions(ixs[1..], shape[1..]), Positions(ix, n);
      if head.Some? && tail.Some? && last.Some? {
        assert [head.value] + (tail.value + [last.value]) == ([head.value] + tail.value) + [last.value];
      }
    }
  }

  lemma {:induction false} KeptShapeSnoc(ixs: seq<Index>, picks: seq<seq<nat>>, ix: Index, last: seq<nat>)
    requires |ixs| == |picks|
    ensures KeptShape(ixs + [ix], picks + [last]) == KeptShape(ixs, picks) + if ix.Item? then [] else [|last|]
  {
    if ixs == [] {
      assert ixs + [ix] == [ix] && picks + [last] == [last] && [ix][1..] == [] && [last][1..] == [];
    } else {
      KeptShapeSnoc(ixs[1..], picks[1..], ix, last);
      assert (ixs + [ix])[1..] == ixs[1..] + [ix] && (picks + [last])[1..] == picks[1..] + [last];
      var head := if ixs[0].Item? then [] else [|picks[0]|];
      var end := if ix.Item? then [] else [|last|];
      assert head + (KeptShape(ixs[1..], picks[1..]) + end) == (head + KeptShape(ixs[1..], picks[1..])) + end;
    }
  }

  lemma {:induction false} StepsAre(lo: nat, hi: nat, step: nat, i: nat)
    requires step > 0
    ensures i < |Steps(lo, hi, step)| <==> lo + i * step < hi
    ensures i < |Steps(lo, hi, step)| ==> Steps(lo, hi, step)[i] == lo + i * step
    decreases if lo < hi then hi - lo else 0
  {
    if lo < hi {
      if i > 0 {
        StepsAre(lo + step, hi, step, i - 1);
        assert lo + step + (i - 1) * step == lo + i * step;
      }
    } else {
      assert i * step >= 0;
    }
  }

  lemma ConsecutiveSteps(lo: nat, hi: nat)
    requires lo <= hi
    ensures |Steps(lo, hi, 1)| == hi - lo
    ensures forall i :: 0 <= i < hi - lo ==> Steps(lo, hi, 1)[i] == lo + i
  {
    StepsAre(lo, hi, 1, |Steps(lo, hi, 1)|);
    forall i | 0 <= i < hi - lo
      ensures i < |Steps(lo, hi, 1)| && Steps(lo, hi, 1)[i] == lo + i
    {
      StepsAre(lo, hi, 1, i);
    }
    if |Steps(lo, hi, 1)| > 0 {
      StepsAre(lo, hi, 1, |Steps(lo, hi, 1)| - 1);
    }
  }

  /** A full slice takes everything. */
  lemma FullTakesAll(n: nat)
    ensures Positions(Range(Open, Open, 1), n) == Some(UpTo(n))
  {
    hide Steps;
    ConsecutiveSteps(0, n);
    assert Steps(0, n, 1) == UpTo(n);
  }

  /** Lengths of the pieces `split` makes of an axis of length `n`. */
  function PieceSizes(cut: Cut, n: nat): Option<seq<nat>> {
    match cut
    case Every(size) => if size > 0 then Some(Chunks(n, size)) else if n == 0 then Some([0]) else None
    case Sizes(sizes) => if Sum(sizes) == n then Some(sizes) else None
  }

  function Chunks(n: nat, size: nat): (r: seq<nat>)
    requires size > 0
    ensures Sum(r) == n
  {
    if n <= size then [n] else [size] + Chunks(n - size, size)
  }

  function Sum(s: seq<nat>): nat {
    if s == [] then 0 else s[0] + Sum(s[1..])
  }

  lemma {:induction false} SumPrefix(s: seq<nat>, k: nat)
    requires k < |s|
    ensures Sum(s[..k]) + s[k] <= Sum(s)
  {
    if k > 0 {
      SumPrefix(s[1..], k - 1);
      assert s[..k][1..] == s[1..][..k - 1];
    }
  }

  /** The positions of piece `k` along an axis of length `n`. */
  function PiecePositions(cut: Cut, n: nat, k: nat): (r: Option<seq<nat>>)
    ensures r.Some? ==> Indices(r.value, n)
  {
    var sizes := PieceSizes(cut, n);
    if sizes.None? || k >= |sizes.value| then None
    else
      SumPrefix(sizes.value, k);
      var start := Sum(sizes.value[..k]);
      Some(Steps(start, start + sizes.value[k], 1))
  }

  function AllTogether(s: seq<int>): int {
    if s == [] then 1 else s[0] * AllTogether(s[1..])
  }

  /** How many lengths are left open. */
  function Wild(shape: seq<int>): nat {
    if shape == [] then 0 else (if shape[0] == -1 then 1 else 0) + Wild(shape[1..])
  }

  /** The shape with every `-1` replaced, as the source expands it; `None` on a failed assertion or
      a negative length. */
  function Resolve(shape: seq<int>, total: nat): (r: Option<seq<nat>>)
    ensures r.Some? ==> |r.value| == |shape|
  {
    var known := AllTogether(Replace(shape, 1));
    if -1 !in shape then Naturals(shape)
    else if known == 0 || total % known != 0 then None
    else Naturals(Replace(shape, total / known))
  }

  function Replace(shape: seq<int>, fill: int): (r: seq<int>)
    ensures |r| == |shape|
  {
    seq(|shape|, i requires 0 <= i < |shape| => if shape[i] == -1 then fill else shape[i])
  }

  function Naturals(s: seq<int>): (r: Option<seq<nat>>)
    ensures r.Some? ==> |r.value| == |s|
  {
    if forall i :: 0 <= i < |s| ==> s[i] >= 0 then Some(seq(|s|, i requires 0 <= i < |s| && s[i] >= 0 => s[i] as nat)) else None
  }

  predicate InRange(dim: int, n: nat) {
    dim < n && dim + n >= 0
  }

  function FromFront(dim: int, n: nat): (r: nat)
    requires InRange(dim, n)
    ensures r < n
  {
    if dim < 0 then dim + n else dim
  }

  /** Axis numbers counted from the front, `None` unless they are a permutation of `n` axes. */
  function Normal(dims: seq<int>, n: nat): (r: Option<seq<nat>>)
    ensures r.Some? ==> |r.value| == n && IsPermutation(r.value)
  {
    if |dims| != n || exists i :: 0 <= i < n && !InRange(dims[i], n) then None
    else
      var p := seq(n, i requires 0 <= i < n && InRange(dims[i], n) => FromFront(dims[i], n));
      if IsPermutation(p) then Some(p) else None
  }

  function SwapDims(n: nat, dim0: int, dim1: int): (r: Option<seq<int>>) {
    if !(InRange(dim0, n) && InRange(dim1, n)) then None
    else
      var d0, d1 := FromFront(dim0, n), FromFront(dim1, n);
      Some(seq(n, i => if i == d0 then d1 else if i == d1 then d0 else i))
  }

  // ---- The operations ----

  /** Choose along every axis; `shape` is the shape the result is given. */
  function SelectFlat(t: Flat, picks: seq<seq<nat>>, shape: seq<nat>): (r: Flat)
    requires ValidFlat(t) && GoodPicks(t.shape, picks) && Size(shape) == Size(Counts(picks))
    ensures ValidFlat(r) && r.shape == shape
    ensures forall f :: 0 <= f < |r.data| ==> r.data[f] == t.data[SelectedRow(t.shape, picks, f)]
  {
    Flat(shape, seq(Size(shape), f requires 0 <= f < Size(shape) => t.data[SelectedRow(t.shape, picks, f)]))
  }

  function Padded(ixs: seq<Index>, n: nat): (r: seq<Index>)
    requires |ixs| <= n
    ensures |r| == n
  {
    ixs + Full(n - |ixs|)
  }

  /** `t[i, j, ...]`, missing indices filled up with full slices. */
  function IndexFlat(t: Flat, ixs: seq<Index>): (r: Option<Flat>)
    requires ValidFlat(t)
    ensures r.Some? ==> ValidFlat(r.value)
  {
    if |ixs| > |t.shape| then None
    else
      var all := Padded(ixs, |t.shape|);
      var picks := AllPositions(all, t.shape);
      if picks.None? then None
      else
        KeptSize(all, t.shape, picks.value);
        Some(SelectFlat(t, picks.value, KeptShape(all, picks.value)))
  }

  /** Piece `k` of a tensor split along axis `d`. */
  function PieceFlat(t: Flat, cut: Cut, d: nat, k: nat): (r: Option<Flat>)
    requires ValidFlat(t) && d < |t.shape|
    ensures r.Some? ==> ValidFlat(r.value) && |r.value.shape| == |t.shape|
  {
    var ix := PiecePositions(cut, t.shape[d], k);
    if ix.None? then None
    else
      var picks := Everything(t.shape)[d := ix.value];
      Some(SelectFlat(t, picks, Counts(picks)))
  }

  function PermuteFlat(t: Flat, p: seq<nat>): (r: Flat)
    requires ValidFlat(t) && Permutes(t.shape, p)
    ensures ValidFlat(r) && r.shape == Axes(t.shape, p)
    ensures forall f :: 0 <= f < |r.data| ==> r.data[f] == t.data[Source(t.shape, p, f)]
  {
    var shape := Axes(t.shape, p);
    Flat(shape, seq(Size(shape), f requires 0 <= f < Size(shape) => t.data[Source(t.shape, p, f)]))
  }

  function PermuteBy(t: Flat, dims: seq<int>): (r: Option<Flat>)
    requires ValidFlat(t)
    ensures r.Some? ==> ValidFlat(r.value)
  {
    var p := Normal(dims, |t.shape|);
    if p.None? then None else Some(PermuteFlat(t, p.value))
  }

  /** The same storage under another shape of the same size. */
  function ReshapeTo(t: Flat, shape: seq<nat>): (r: Option<Flat>)
    requires ValidFlat(t)
    ensures r.Some? ==> ValidFlat(r.value) && r.value == Flat(shape, t.data)
  {
    if Size(shape) == |t.data| then Some(Flat(shape, t.data)) else None
  }

  /** `reshape` with at most one length left open. */
  function ReshapeFlat(t: Flat, shape: seq<int>): (r: Option<Flat>)
    requires ValidFlat(t)
    ensures r.Some? ==> ValidFlat(r.value)
  {
    var s := Resolve(shape, |t.data|);
    if Wild(shape) > 1 || s.None? then None else ReshapeTo(t, s.value)
  }

  /** The length of the last axis, and of all before it together. */
  function Width(t: Flat): nat
    requires t.shape != []
  {
    t.shape[|t.shape| - 1]
  }

  function LeadOf(t: Flat): (lead: seq<nat>)
    requires t.shape != []
    ensures t.shape == lead + [Width(t)]
  {
    t.shape[..|t.shape| - 1]
  }

  /** `shape` with axes of length 1 in front, `n` axes in all. */
  function Pad(shape: seq<nat>, n: nat): (r: seq<nat>)
    requires |shape| <= n
    ensures |r| == n
  {
    Ones(n - |shape|) + shape
  }

  function Ones(n: nat): (r: seq<nat>)
    ensures |r| == n && forall i :: 0 <= i < n ==> r[i] == 1
  {
    seq(n, i => 1)
  }

  lemma {:induction false} PadSize(shape: seq<nat>, k: nat)
    ensures Size(Ones(k) + shape) == Size(shape)
    decreases k
  {
    if k == 0 {
      assert Ones(0) + shape == shape;
    } else {
      PadSize(shape, k - 1);
      assert (Ones(k) + shape)[1..] == Ones(k - 1) + shape;
    }
  }

  function TimesReal(x: real, y: real): real {
    x * y
  }

  /** Element by element, both operands stretched to a common shape. */
  function MultiplyFlat(t: Flat, other: Flat): (r: Option<Flat>)
    requires ValidFlat(t) && ValidFlat(other)
    ensures r.Some? ==> ValidFlat(r.value)
  {
    var n := if |t.shape| > |other.shape| then |t.shape| else |other.shape|;
    var x, y := Pad(t.shape, n), Pad(other.shape, n);
    var shape := Broadcast(x, y);
    if shape.None? then None
    else
      PadSize(t.shape, n - |t.shape|);
      PadSize(other.shape, n - |other.shape|);
      var s := shape.value;
      Some(Flat(s, seq(Size(s), f requires 0 <= f < Size(s) => TimesReal(t.data[UnitAt(x, s, f)], other.data[UnitAt(y, s, f)]))))
  }

  /** Value heads grouped by key head, put into tiled order: axis `d` is cut into three, the first two of
      them are exchanged, and the three are joined again. */
  function ReorderFlat(t: Flat, d: nat, kHeads: nat, vPerK: nat, headDim: nat): (r: Option<Flat>)
    requires ValidFlat(t) && d < |t.shape|
    ensures r.Some? ==> ValidFlat(r.value) && r.value.shape == t.shape
  {
    var cut := ReshapeTo(t, t.shape[..d] + [kHeads, vPerK, headDim] + t.shape[d + 1..]);
    if cut.None? then None
    else
      var p := Exchange(|cut.value.shape|, d);
      ExchangePermutes(|cut.value.shape|, d);
      ReshapeTo(PermuteFlat(cut.value, p), t.shape)
  }

  /** Axes `d` and `d + 1` exchanged. */
  function Exchange(n: nat, d: nat): (p: seq<nat>)
    requires d + 1 < n
    ensures |p| == n
  {
    seq(n, i requires 0 <= i => if i == d then d + 1 else if i == d + 1 then d else i)
  }

  lemma ExchangePermutes(n: nat, d: nat)
    requires d + 1 < n
    ensures IsPermutation(Exchange(n, d))
  {
    var p := Exchange(n, d);
    forall a: nat | a < n
      ensures a in p
    {
      assert p[if a == d then d + 1 else if a == d + 1 then d else a] == a;
    }
  }

  const KV_SWAP: seq<nat> := [1, 0, 2]

  lemma SwapPermutes()
    ensures IsPermutation(KV_SWAP)
  {
    assert KV_SWAP[0] == 1 && KV_SWAP[1] == 0 && KV_SWAP[2] == 2;
  }

  lemma SizeOfThree(x: nat, y: nat, z: nat)
    ensures Size([x, y, z]) == x * (y * z)
  {
    assert [x, y, z][1..] == [y, z] && [y, z][1..] == [z] && [z][1..] == [];
    assert Size([z]) == z * Size([]) && Size([y, z]) == y * Size([z]);
  }

  lemma SwappedSize(kHeads: nat, vPerK: nat, headDim: nat)
    ensures Permutes([kHeads, vPerK, headDim], KV_SWAP)
    ensures Axes([kHeads, vPerK, headDim], KV_SWAP) == [vPerK, kHeads, headDim]
    ensures Size([vPerK, kHeads, headDim]) == Size([kHeads, vPerK, headDim]) == kHeads * vPerK * headDim
  {
    SwapPermutes();
    SizeOfThree(kHeads, vPerK, headDim);
    SizeOfThree(vPerK, kHeads, headDim);
    MulReorder(kHeads, vPerK, headDim);
  }

  lemma MulReorder(x: nat, y: nat, z: nat)
    ensures x * (y * z) == y * (x * z) == x * y * z
  {
    calc {
      x * (y * z);
      (x * y) * z;
      (y * x) * z;
      y * (x * z);
    }
  }

  // ---- On a dense weight ----

  function ApplyDense(op: Op, t: Flat): (r: Option<Flat>)
    requires ValidFlat(t) && t.shape != []
    ensures r.Some? ==> ValidFlat(r.value)
  {
    var n := |t.shape|;
    match op
    case Get(ix) => IndexFlat(t, [ix])
    case GetTuple(ixs) => IndexFlat(t, ixs)
    case Reshape(shape) => ReshapeFlat(t, shape)
    case PermuteAxes(dims) => PermuteBy(t, dims)
    case SwapAxes(dim0, dim1) =>
      var dims := SwapDims(n, dim0, dim1);
      if dims.None? then None else PermuteBy(t, dims.value)
    case Piece(cut, dim, k) => if InRange(dim, n) then PieceFlat(t, cut, FromFront(dim, n), k) else None
    case Times(other) => if ValidFlat(other) then MultiplyFlat(t, other) else None
    case ReorderVHeads(dim, kHeads, vPerK, headDim) =>
      if InRange(dim, n) then ReorderFlat(t, FromFront(dim, n), kHeads, vPerK, headDim) else None
  }
}
