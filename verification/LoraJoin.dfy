/** `torch.cat` and `torch.stack` on low-rank weights (engine/convert_lora_to_gguf.py,
    `__torch_function__`). Above two dimensions both factors are joined along their first axes. */
module LoraJoin {
  import opened Common
  import opened Matrices
  import opened Shapes
  import opened UnitAxes
  import opened TensorOps
  import opened RowViews
  import opened LoraFactors
  import opened LoraProduct
  import opened LoraSound
  import opened LoraIndex
  import opened LoraExact
  import opened LoraSupport
  import opened LoraBreaks

  // ---- torch.cat along the first axis ----

  function AllData(ts: seq<Flat>): seq<real> {
    if ts == [] then [] else ts[0].data + AllData(ts[1..])
  }

  function FirstLengths(ts: seq<Flat>): nat
    requires forall i :: 0 <= i < |ts| ==> ts[i].shape != []
  {
    if ts == [] then 0 else ts[0].shape[0] + FirstLengths(ts[1..])
  }

  function Tail(shape: seq<nat>): seq<nat> {
    if shape == [] then [] else shape[1..]
  }

  /** Tensors of equal shape behind the first axis. */
  function CatFlat(ts: seq<Flat>): (r: Option<Flat>) {
    if ts == [] || (exists i :: 0 <= i < |ts| && (ts[i].shape == [] || Tail(ts[i].shape) != Tail(ts[0].shape))) then None
    else Some(Flat([FirstLengths(ts)] + Tail(ts[0].shape), AllData(ts)))
  }

  lemma {:induction false} AllDataSize(ts: seq<Flat>, tail: seq<nat>)
    requires forall i :: 0 <= i < |ts| ==> ValidFlat(ts[i]) && ts[i].shape != [] && Tail(ts[i].shape) == tail
    ensures |AllData(ts)| == FirstLengths(ts) * Size(tail)
  {
    if ts != [] {
      hide Size;
      AllDataSize(ts[1..], tail);
      assert ts[0].shape == [ts[0].shape[0]] + tail;
      SizeCons(ts[0].shape[0], tail);
      AddTimes(ts[0].shape[0], FirstLengths(ts[1..]), Size(tail));
    }
  }

  lemma AddTimes(x: nat, y: nat, z: nat)
    ensures (x + y) * z == x * z + y * z
  {
  }

  lemma CatValid(ts: seq<Flat>)
    requires (forall i :: 0 <= i < |ts| ==> ValidFlat(ts[i])) && CatFlat(ts).Some?
    ensures ValidFlat(CatFlat(ts).value)
  {
    hide Size;
    AllDataSize(ts, Tail(ts[0].shape));
    SizeCons(FirstLengths(ts), Tail(ts[0].shape));
  }

  /** `torch.stack`: tensors of one shape, along a new first axis. */
  function StackFlat(ts: seq<Flat>): (r: Option<Flat>) {
    if ts == [] || (exists i :: 0 <= i < |ts| && ts[i].shape != ts[0].shape) then None
    else Some(Flat([|ts|] + ts[0].shape, AllData(ts)))
  }

  /** A new first axis of length 1. */
  function Lift(t: Flat): (r: Flat)
    ensures ValidFlat(t) ==> ValidFlat(r)
  {
    Flat([1] + t.shape, t.data)
  }

  function Lifted(ts: seq<Flat>): (r: seq<Flat>)
    ensures |r| == |ts| && forall i :: 0 <= i < |ts| ==> r[i] == Lift(ts[i])
  {
    seq(|ts|, i requires 0 <= i < |ts| => Lift(ts[i]))
  }

  lemma {:induction false} LiftedParts(ts: seq<Flat>)
    ensures FirstLengths(Lifted(ts)) == |ts| && AllData(Lifted(ts)) == AllData(ts)
  {
    if ts != [] {
      LiftedParts(ts[1..]);
      assert Lifted(ts)[1..] == Lifted(ts[1..]);
    }
  }

  /** Stacking is joining along the new axis. */
  lemma StackIsCat(ts: seq<Flat>)
    ensures StackFlat(ts) == CatFlat(Lifted(ts))
  {
    LiftedParts(ts);
    var ls := Lifted(ts);
    assert forall i :: 0 <= i < |ts| ==> Tail(ls[i].shape) == ts[i].shape;
    if ts != [] && !(forall i :: 0 <= i < |ts| ==> ts[i].shape == ts[0].shape) {
      var i :| 0 <= i < |ts| && ts[i].shape != ts[0].shape;
      assert Tail(ls[i].shape) != Tail(ls[0].shape);
    }
  }

  lemma StackValid(ts: seq<Flat>)
    requires (forall i :: 0 <= i < |ts| ==> ValidFlat(ts[i])) && StackFlat(ts).Some?
    ensures ValidFlat(StackFlat(ts).value)
  {
    StackIsCat(ts);
    CatValid(Lifted(ts));
  }

  // ---- On weights ----

  function Bs(ts: seq<Lora>): (r: seq<Flat>)
    ensures |r| == |ts| && forall i :: 0 <= i < |ts| ==> r[i] == ts[i].b
  {
    seq(|ts|, i requires 0 <= i < |ts| => ts[i].b)
  }

  function As(ts: seq<Lora>): (r: seq<Flat>)
    ensures |r| == |ts| && forall i :: 0 <= i < |ts| ==> r[i] == ts[i].a
  {
    seq(|ts|, i requires 0 <= i < |ts| => ts[i].a)
  }

  ghost predicate AllBuilt(ts: seq<Lora>) {
    forall i :: 0 <= i < |ts| ==> Built(ts[i])
  }

  function CatBoth(ts: seq<Lora>): (r: Option<Lora>)
    requires AllBuilt(ts)
    ensures r.Some? ==> Built(r.value)
  {
    var a, b := CatFlat(As(ts)), CatFlat(Bs(ts));
    if a.None? || b.None? then None
    else
      CatValid(As(ts));
      CatValid(Bs(ts));
      Make(a, b)
  }

  /** Above two dimensions both factors are joined. Matrices that share `A` are joined by joining their
      `B`s; other matrices are refused. */
  function Cat(ts: seq<Lora>): (r: Option<Lora>)
    requires AllBuilt(ts)
    ensures r.Some? ==> Built(r.value)
  {
    if ts == [] then None
    else if Dims(ts[0]) > 2 then CatBoth(ts)
    else if exists i :: 0 <= i < |ts| && ts[i].a != ts[0].a then None
    else
      var b := CatFlat(Bs(ts));
      if b.None? then None
      else
        CatValid(Bs(ts));
        Make(Some(ts[0].a), b)
  }

  function StackLora(ts: seq<Lora>): (r: Option<Lora>)
    requires AllBuilt(ts)
    ensures r.Some? ==> Built(r.value)
  {
    var a, b := StackFlat(As(ts)), StackFlat(Bs(ts));
    if a.None? || b.None? then None
    else
      StackValid(As(ts));
      StackValid(Bs(ts));
      Make(a, b)
  }

  ghost predicate AllCoherent(ts: seq<Lora>) {
    forall i :: 0 <= i < |ts| ==> Coherent(ts[i])
  }

  lemma CoherentBuilt(ts: seq<Lora>)
    requires AllCoherent(ts)
    ensures AllBuilt(ts)
  {
  }

  function DenseOfAll(ts: seq<Lora>): (r: seq<Flat>)
    requires AllCoherent(ts)
    ensures |r| == |ts| && forall i :: 0 <= i < |ts| ==> r[i] == DenseOf(ts[i]) && ValidFlat(r[i])
  {
    seq(|ts|, i requires 0 <= i < |ts| => DenseOf(ts[i]))
  }

  // ---- Two tensors, by rows ----

  function JoinTwo(x: Flat, y: Flat): Flat
    requires x.shape != [] && y.shape != []
  {
    Flat([x.shape[0] + y.shape[0]] + Tail(x.shape), x.data + y.data)
  }

  /** Joining a list joins its first tensor and the rest joined. */
  lemma CatCons(ts: seq<Flat>)
    requires |ts| > 1
    ensures var rest := CatFlat(ts[1..]);
            && (rest.Some? ==> rest.value.shape != [])
            && CatFlat(ts) ==
               if rest.Some? && ts[0].shape != [] && Tail(ts[0].shape) == Tail(rest.value.shape) then Some(JoinTwo(ts[0], rest.value))
               else None
  {
    hide AllData;
    var rest := ts[1..];
    assert forall i :: 0 <= i < |rest| ==> rest[i] == ts[i + 1];
    assert forall i :: 1 <= i < |ts| ==> ts[i] == rest[i - 1];
    DataCons(ts);
  }

  lemma DataCons(ts: seq<Flat>)
    requires ts != []
    ensures AllData(ts) == ts[0].data + AllData(ts[1..])
  {
  }

  lemma CatOne(t: Flat)
    requires t.shape != []
    ensures CatFlat([t]) == Some(t)
  {
    var ts := [t];
    assert ts[1..] == [] && ts[0] == t;
    assert AllData(ts) == t.data + AllData([]) == t.data;
    assert FirstLengths(ts) == t.shape[0] + FirstLengths([]);
    assert t.shape == [FirstLengths(ts)] + Tail(ts[0].shape);
  }

  lemma JoinSizes(n: nat, m: nat, rest: seq<nat>, x: Matrix, y: Matrix)
    requires |x.rows| == Size([n] + rest) && |y.rows| == Size([m] + rest) && x.cols == y.cols
    ensures Size([n + m] + rest) == |x.rows| + |y.rows|
    ensures |x.rows| * x.cols + |y.rows| * y.cols == (|x.rows| + |y.rows|) * x.cols
  {
    hide Size;
    SizeCons(n, rest);
    SizeCons(m, rest);
    SizeCons(n + m, rest);
    AddTimes(n, m, Size(rest));
    AddTimes(|x.rows|, |y.rows|, x.cols);
  }

  lemma JoinShape(n: nat, m: nat, rest: seq<nat>, cols: nat, s: Flat, t: Flat)
    requires s.shape == [n] + rest + [cols] && t.shape == [m] + rest + [cols]
    ensures s.shape != [] && t.shape != [] && Tail(s.shape) == Tail(t.shape) == rest + [cols]
    ensures JoinTwo(s, t).shape == [n + m] + rest + [cols]
  {
    assert s.shape == [n] + (rest + [cols]) && t.shape == [m] + (rest + [cols]);
  }

  /** The storage of stacked matrices is one after the other. */
  lemma JoinRows(n: nat, m: nat, rest: seq<nat>, x: Matrix, y: Matrix)
    requires Valid(x) && Valid(y) && x.cols == y.cols && |x.rows| == Size([n] + rest) && |y.rows| == Size([m] + rest)
    ensures Size([n + m] + rest) == |x.rows| + |y.rows|
    ensures var s, t := FromRows([n] + rest, x), FromRows([m] + rest, y);
            && s.shape != [] && t.shape != [] && Tail(s.shape) == Tail(t.shape) == rest + [x.cols]
            && JoinTwo(s, t) == FromRows([n + m] + rest, Stack(x, y))
  {
    hide Size, FromRows, Holds, Tail;
    JoinSizes(n, m, rest, x, y);
    var s, t, g := FromRows([n] + rest, x), FromRows([m] + rest, y), Stack(x, y);
    JoinShape(n, m, rest, x.cols, s, t);
    forall r: nat, c: nat | r < |g.rows| && c < g.cols
      ensures Holds(s.data + t.data, r, x.cols, c, g)
    {
      JoinedElement([n] + rest, [m] + rest, x, y, r, c);
    }
    IsFromRows(JoinTwo(s, t), [n + m] + rest, g);
  }

  lemma JoinedElement(lead: seq<nat>, lead': seq<nat>, x: Matrix, y: Matrix, r: nat, c: nat)
    requires Valid(x) && Valid(y) && x.cols == y.cols && |x.rows| == Size(lead) && |y.rows| == Size(lead')
    requires r < |x.rows| + |y.rows| && c < x.cols
    ensures Holds(FromRows(lead, x).data + FromRows(lead', y).data, r, x.cols, c, Stack(x, y))
  {
    hide Size, FromRows;
    var k := |x.rows|;
    if r < k {
      ElementOf(lead, x, r, c);
    } else {
      ElementOf(lead', y, r - k, c);
      AddTimes(r - k, k, x.cols);
    }
  }

  // ---- Blocks of stacked matrices ----

  function Shifted(us: seq<nat>, k: nat): (r: seq<nat>)
    ensures |r| == |us| && forall i :: 0 <= i < |us| ==> r[i] == us[i] + k
  {
    seq(|us|, i requires 0 <= i < |us| => us[i] + k)
  }

  lemma BlockOfFirst(x: Matrix, y: Matrix, r: nat, u: nat)
    requires Valid(x) && Valid(y) && x.cols == y.cols && HasBlock(x, r, u)
    ensures HasBlock(Stack(x, y), r, u) && Block(Stack(x, y), r, u) == Block(x, r, u)
  {
    assert (x.rows + y.rows)[u * r..u * r + r] == x.rows[u * r..u * r + r];
  }

  lemma BlockOfSecond(x: Matrix, y: Matrix, r: nat, u: nat, k: nat)
    requires Valid(x) && Valid(y) && x.cols == y.cols && HasBlock(y, r, u) && |x.rows| == k * r
    ensures HasBlock(Stack(x, y), r, u + k) && Block(Stack(x, y), r, u + k) == Block(y, r, u)
  {
    AddTimes(u, k, r);
    var p := u * r;
    assert (u + k) * r == |x.rows| + p;
    assert (x.rows + y.rows)[|x.rows| + p..|x.rows| + p + r] == y.rows[p..p + r];
  }

  /** The blocks of the stacked matrices are those of the one or of the other. */
  lemma StackedBlocks(a: Matrix, us: seq<nat>, a': Matrix, us': seq<nat>, r: nat, k: nat)
    requires Valid(a) && Valid(a') && a.cols == a'.cols && |a.rows| == k * r
    requires (forall i :: 0 <= i < |us| ==> HasBlock(a, r, us[i])) && forall i :: 0 <= i < |us'| ==> HasBlock(a', r, us'[i])
    ensures var vs, x := us + Shifted(us', k), Stack(a, a');
            && (forall i :: 0 <= i < |us| ==> HasBlock(x, r, vs[i]) && HasBlock(a, r, us[i]) && Block(x, r, vs[i]) == Block(a, r, us[i]))
            && (forall i :: |us| <= i < |vs| ==> HasBlock(x, r, vs[i]) && HasBlock(a', r, us'[i - |us|]) && Block(x, r, vs[i]) == Block(a', r, us'[i - |us|]))
  {
    hide Block;
    var vs, x := us + Shifted(us', k), Stack(a, a');
    forall i | 0 <= i < |us|
      ensures HasBlock(x, r, vs[i]) && HasBlock(a, r, us[i]) && Block(x, r, vs[i]) == Block(a, r, us[i])
    {
      BlockOfFirst(a, a', r, us[i]);
    }
    forall i | |us| <= i < |vs|
      ensures HasBlock(x, r, vs[i]) && HasBlock(a', r, us'[i - |us|]) && Block(x, r, vs[i]) == Block(a', r, us'[i - |us|])
    {
      BlockOfSecond(a, a', r, us'[i - |us|], k);
    }
  }

  /** Stacked rows, each with its own block of the stacked matrices. */
  lemma BlockDenseStack(a: Matrix, b: Matrix, us: seq<nat>, a': Matrix, b': Matrix, us': seq<nat>, k: nat)
    requires Blocks(a, b, us) && Blocks(a', b', us') && a.cols == a'.cols && b.cols == b'.cols && |a.rows| == k * b.cols
    ensures var vs := us + Shifted(us', k);
            && Blocks(Stack(a, a'), Stack(b, b'), vs)
            && BlockDense(Stack(a, a'), Stack(b, b'), vs) == Stack(BlockDense(a, b, us), BlockDense(a', b', us'))
  {
    hide Block, ProductRow;
    var vs, x, y := us + Shifted(us', k), Stack(a, a'), Stack(b, b');
    StackedBlocks(a, us, a', us', b.cols, k);
    var d, e, f := BlockDense(x, y, vs), BlockDense(a, b, us), BlockDense(a', b', us');
    forall i | 0 <= i < |vs|
      ensures d.rows[i] == (e.rows + f.rows)[i]
    {
      assert y.rows[i] == if i < |us| then b.rows[i] else b'.rows[i - |us|];
    }
    assert d.rows == e.rows + f.rows;
  }

  // ---- Which matrix serves which row of a joined weight ----

  /** Place `q` of the `i`-th of equal parts of `n` places. */
  function Spot(i: nat, n: nat, q: nat): nat {
    i * n + q
  }

  /** The first axis is stacked: its position leads straight to that of `A`. */
  lemma UnitAtCons(n: nat, units: seq<nat>, batch: seq<nat>, i: nat, q: nat)
    requires Paired(units, batch) && i < n && q < Size(batch)
    ensures Paired([n] + units, [n] + batch) && Spot(i, Size(batch), q) < Size([n] + batch)
    ensures UnitAt([n] + units, [n] + batch, Spot(i, Size(batch), q)) == Spot(i, Size(units), UnitAt(units, batch, q))
  {
    hide Flatten, Unflatten, Size;
    var idx := Unflatten(batch, q);
    FlattenUnflatten(batch, q);
    FlattenCons(n, batch, i, idx);
    UnflattenFlatten([n] + batch, [i] + idx);
    assert Clip([i] + idx, [n] + units) == [i] + Clip(idx, units);
    FlattenCons(n, units, i, Clip(idx, units));
  }

  lemma UnitRowSpot(units: seq<nat>, batch: seq<nat>, len: nat, q: nat, s: nat)
    requires Paired(units, batch) && q < Size(batch) && s < len
    ensures Spot(q, len, s) < |UnitRows(units, batch, len)|
    ensures UnitRows(units, batch, len)[Spot(q, len, s)] == UnitAt(units, batch, q)
  {
    hide Size, UnitAt, UnitRows;
    UnitRowIs(units, batch, len, q, s);
  }

  /** Row `r` of a weight, as place of the first axis, of the others, and behind them. */
  lemma UnitRowCons(n: nat, units: seq<nat>, batch: seq<nat>, len: nat, i: nat, q: nat, h: nat, s: nat, r: nat)
    requires Paired(units, batch) && Paired([n] + units, [n] + batch) && i < n && q < Size(batch) && s < len
    requires h == Spot(i, Size(batch), q) && r == Spot(h, len, s)
    ensures r < |UnitRows([n] + units, [n] + batch, len)|
    ensures UnitRows([n] + units, [n] + batch, len)[r] == Spot(i, Size(units), UnitAt(units, batch, q))
  {
    hide *;
    UnitAtCons(n, units, batch, i, q);
    UnitRowSpot([n] + units, [n] + batch, len, h, s);
  }

  lemma SpotShift(i: nat, n: nat, k: nat, q: nat)
    ensures Spot(i + n, k, q) == Spot(i, k, q) + n * k
  {
  }

  lemma PairedCons(n: nat, units: seq<nat>, batch: seq<nat>)
    requires Paired(units, batch)
    ensures Paired([n] + units, [n] + batch)
  {
  }

  lemma RowCount(n: nat, units: seq<nat>, batch: seq<nat>, len: nat)
    requires Paired([n] + units, [n] + batch)
    ensures |UnitRows([n] + units, [n] + batch, len)| == n * Size(batch) * len
  {
    hide Size;
    SizeCons(n, batch);
  }

  lemma FindSpot(r: nat, rows: nat, n: nat) returns (i: nat, q: nat)
    requires r < rows * n
    ensures i < rows && q < n && r == Spot(i, n, q)
  {
    i, q := Place(r, rows, n);
  }

  lemma RowOfFirst(n: nat, m: nat, units: seq<nat>, batch: seq<nat>, len: nat, r: nat)
    requires Paired(units, batch) && Paired([n] + units, [n] + batch) && Paired([n + m] + units, [n + m] + batch)
    requires r < n * Size(batch) * len
    ensures r < |UnitRows([n] + units, [n] + batch, len)| && r < |UnitRows([n + m] + units, [n + m] + batch, len)|
    ensures UnitRows([n + m] + units, [n + m] + batch, len)[r] == UnitRows([n] + units, [n] + batch, len)[r]
  {
    hide *;
    var h, s := FindSpot(r, n * Size(batch), len);
    var i, q := FindSpot(h, n, Size(batch));
    UnitRowCons(n, units, batch, len, i, q, h, s, r);
    UnitRowCons(n + m, units, batch, len, i, q, h, s, r);
  }

  lemma RowOfSecond(n: nat, m: nat, units: seq<nat>, batch: seq<nat>, len: nat, r: nat, r': nat)
    requires Paired(units, batch) && Paired([m] + units, [m] + batch) && Paired([n + m] + units, [n + m] + batch)
    requires r < m * Size(batch) * len && r' == r + n * Size(batch) * len
    ensures r < |UnitRows([m] + units, [m] + batch, len)| && r' < |UnitRows([n + m] + units, [n + m] + batch, len)|
    ensures UnitRows([n + m] + units, [n + m] + batch, len)[r'] == UnitRows([m] + units, [m] + batch, len)[r] + n * Size(units)
  {
    hide *;
    var h, s := FindSpot(r, m * Size(batch), len);
    var i, q := FindSpot(h, m, Size(batch));
    UnitRowCons(m, units, batch, len, i, q, h, s, r);
    SpotShift(i, n, Size(batch), q);
    SpotShift(h, n * Size(batch), len, s);
    SpotShift(i, n, Size(units), UnitAt(units, batch, q));
    UnitRowCons(n + m, units, batch, len, i + n, q, h + n * Size(batch), s, r');
  }

  /** Rows of the second weight come behind those of the first, and so do its matrices. */
  lemma UnitRowsJoined(n: nat, m: nat, units: seq<nat>, batch: seq<nat>, len: nat)
    requires Paired(units, batch)
    ensures Paired([n] + units, [n] + batch) && Paired([m] + units, [m] + batch) && Paired([n + m] + units, [n + m] + batch)
    ensures UnitRows([n + m] + units, [n + m] + batch, len) ==
            UnitRows([n] + units, [n] + batch, len) + Shifted(UnitRows([m] + units, [m] + batch, len), n * Size(units))
  {
    hide *;
    PairedCons(n, units, batch);
    PairedCons(m, units, batch);
    PairedCons(n + m, units, batch);
    var w := UnitRows([n + m] + units, [n + m] + batch, len);
    var v, v' := UnitRows([n] + units, [n] + batch, len), UnitRows([m] + units, [m] + batch, len);
    RowCountsAdd(n, m, units, batch, len);
    forall r | 0 <= r < |v|
      ensures w[r] == v[r]
    {
      RowOfFirst(n, m, units, batch, len, r);
    }
    forall r | 0 <= r < |v'|
      ensures w[|v| + r] == v'[r] + n * Size(units)
    {
      RowOfSecond(n, m, units, batch, len, r, |v| + r);
    }
    assert w == v + Shifted(v', n * Size(units));
  }

  lemma RowCountsAdd(n: nat, m: nat, units: seq<nat>, batch: seq<nat>, len: nat)
    requires Paired([n] + units, [n] + batch) && Paired([m] + units, [m] + batch) && Paired([n + m] + units, [n + m] + batch)
    ensures |UnitRows([n] + units, [n] + batch, len)| == n * Size(batch) * len
    ensures |UnitRows([m] + units, [m] + batch, len)| == m * Size(batch) * len
    ensures |UnitRows([n + m] + units, [n + m] + batch, len)| == n * Size(batch) * len + m * Size(batch) * len
  {
    RowCount(n, units, batch, len);
    RowCount(m, units, batch, len);
    RowCount(n + m, units, batch, len);
    hide *;
    AddTimes(n, m, Size(batch));
    AddTimes(n * Size(batch), m * Size(batch), len);
  }

  // ---- Joining above two dimensions ----

  /** `A` is stacked like the weight along the first axis. */
  predicate Stacked(t: Lora)
    requires Built(t)
  {
    Dims(t) > 2 && Units(t)[0] == Batch(t)[0]
  }

  lemma TailParts(t: Lora)
    requires Built(t) && Dims(t) > 2
    ensures Units(t) == [Units(t)[0]] + Units(t)[1..] && Batch(t) == [Batch(t)[0]] + Batch(t)[1..]
    ensures Tail(t.a.shape) == Units(t)[1..] + [Rank(t), Cols(t)] && Tail(t.b.shape) == Batch(t)[1..] + [Len(t), Rank(t)]
  {
  }

  lemma SplitTails(x: seq<nat>, m: nat, n: nat, y: seq<nat>, k: nat, l: nat)
    requires x + [m, n] == y + [k, l]
    ensures x == y && m == k && n == l
  {
    var s := x + [m, n];
    assert |x| == |y| && s[..|x|] == x && s[..|y|] == y && s[|x|] == m && s[|y|] == k && s[|x| + 1] == n && s[|y| + 1] == l;
  }

  /** Weights of equal shape behind the first axis. */
  lemma SameBehind(x: Lora, y: Lora)
    requires Built(x) && Built(y) && Dims(x) > 2 && Tail(x.a.shape) == Tail(y.a.shape) && Tail(x.b.shape) == Tail(y.b.shape)
    ensures Dims(y) == Dims(x) && Units(y)[1..] == Units(x)[1..] && Batch(y)[1..] == Batch(x)[1..]
    ensures Len(y) == Len(x) && Rank(y) == Rank(x) && Cols(y) == Cols(x)
  {
    TailParts(x);
    TailParts(y);
    SplitTails(Units(x)[1..], Rank(x), Cols(x), Units(y)[1..], Rank(y), Cols(y));
    SplitTails(Batch(x)[1..], Len(x), Rank(x), Batch(y)[1..], Len(y), Rank(y));
  }

  /** Two stacked weights joined along the first axis. */
  lemma TwoAbove(x: Lora, y: Lora)
    requires Coherent(x) && Coherent(y) && Stacked(x) && Stacked(y)
    requires Tail(x.a.shape) == Tail(y.a.shape) && Tail(x.b.shape) == Tail(y.b.shape)
    ensures var r := Lora(JoinTwo(x.a, y.a), JoinTwo(x.b, y.b));
            && Coherent(r) && Rank(r) == Rank(x) && Stacked(r)
            && DenseOf(x).shape != [] && DenseOf(y).shape != [] && Tail(DenseOf(x).shape) == Tail(DenseOf(y).shape)
            && DenseOf(r) == JoinTwo(DenseOf(x), DenseOf(y))
  {
    hide Size, Rows, FromRows, BlockDense, UnitRows, UnitAt, Tail, JoinTwo;
    CoherentParts(x);
    SameBehind(x, y);
    TailParts(x);
    TailParts(y);
    FactorsByRows(x);
    FactorsByRows(y);
    ServedBlocks(x);
    ServedBlocks(y);
    var n, m, ut, bt, len, rank := Units(x)[0], Units(y)[0], Units(x)[1..], Batch(x)[1..], Len(x), Rank(x);
    PairedTail(n, ut, bt);
    assert [n] + ut + [rank] == [n] + (ut + [rank]) && [m] + ut + [rank] == [m] + (ut + [rank]);
    assert [n] + bt + [len] == [n] + (bt + [len]) && [m] + bt + [len] == [m] + (bt + [len]);
    assert [n + m] + ut + [rank] == [n + m] + (ut + [rank]) && [n + m] + bt + [len] == [n + m] + (bt + [len]);
    JoinRows(n, m, ut + [rank], Rows(x.a), Rows(y.a));
    JoinRows(n, m, bt + [len], Rows(x.b), Rows(y.b));
    JoinRows(n, m, bt + [len], DenseRows(x), DenseRows(y));
    UnitRowsJoined(n, m, ut, bt, len);
    SizeCons(n, ut);
    BlockDenseStack(Rows(x.a), Rows(x.b), Served(x), Rows(y.a), Rows(y.b), Served(y), n * Size(ut));
    var r := Lora(JoinTwo(x.a, y.a), JoinTwo(x.b, y.b));
    ByRowsMeans(r, [n + m] + ut, [n + m] + bt, len, Stack(Rows(x.a), Rows(y.a)), Stack(Rows(x.b), Rows(y.b)));
  }

  lemma PairedTail(n: nat, units: seq<nat>, batch: seq<nat>)
    requires Paired([n] + units, [n] + batch)
    ensures Paired(units, batch)
  {
    assert forall i :: 0 <= i < |units| ==> units[i] == ([n] + units)[i + 1] && batch[i] == ([n] + batch)[i + 1];
  }

  predicate AllStacked(ts: seq<Lora>)
    requires AllBuilt(ts)
  {
    forall i :: 0 <= i < |ts| ==> Stacked(ts[i])
  }

  /** The parts of a joined list. */
  lemma CatBothCons(ts: seq<Lora>)
    requires AllBuilt(ts) && |ts| > 1 && CatBoth(ts).Some? && Dims(ts[0]) > 2
    ensures AllBuilt(ts[1..])
    ensures var rest := CatBoth(ts[1..]);
            && rest.Some? && Tail(ts[0].a.shape) == Tail(rest.value.a.shape) && Tail(ts[0].b.shape) == Tail(rest.value.b.shape)
            && CatBoth(ts).value == Lora(JoinTwo(ts[0].a, rest.value.a), JoinTwo(ts[0].b, rest.value.b))
  {
    hide CatFlat, Tail;
    CatCons(As(ts));
    CatCons(Bs(ts));
    assert As(ts)[1..] == As(ts[1..]) && Bs(ts)[1..] == Bs(ts[1..]);
    var a, b := CatFlat(As(ts[1..])).value, CatFlat(Bs(ts[1..])).value;
    TailFits(ts[0].a.shape, a.shape);
    TailFits(ts[0].b.shape, b.shape);
    AllValid(ts[1..]);
    CatValid(As(ts[1..]));
    CatValid(Bs(ts[1..]));
  }

  lemma AllValid(ts: seq<Lora>)
    requires AllBuilt(ts)
    ensures forall i :: 0 <= i < |ts| ==> ValidFlat(As(ts)[i]) && ValidFlat(Bs(ts)[i])
  {
  }

  lemma TailFits(x: seq<nat>, y: seq<nat>)
    requires x != [] && y != [] && Tail(x) == Tail(y)
    ensures |x| == |y| && forall i :: 1 <= i < |x| ==> x[i] == y[i]
  {
    assert forall i :: 1 <= i < |x| ==> x[i] == Tail(x)[i - 1] && y[i] == Tail(y)[i - 1];
  }

  lemma {:induction false} CatBothSound(ts: seq<Lora>)
    requires AllCoherent(ts) && AllBuilt(ts) && AllStacked(ts) && ts != [] && CatBoth(ts).Some?
    ensures var r := CatBoth(ts).value;
            && Coherent(r) && Stacked(r) && Rank(r) == Rank(ts[0])
            && CatFlat(DenseOfAll(ts)) == Some(DenseOf(r))
  {
    hide CatFlat, DenseOf, Coherent, Stacked, CatBoth, Tail;
    if |ts| == 1 {
      OneJoined(ts);
    } else {
      CoherentBuilt(ts);
      StackedDims(ts[0]);
      CatBothCons(ts);
      CatBothSound(ts[1..]);
      TwoAbove(ts[0], CatBoth(ts[1..]).value);
      DenseTail(ts);
      CatCons(DenseOfAll(ts));
    }
  }

  lemma StackedDims(t: Lora)
    requires Built(t) && Stacked(t)
    ensures Dims(t) > 2
  {
  }

  lemma DenseTail(ts: seq<Lora>)
    requires AllCoherent(ts) && ts != []
    ensures AllCoherent(ts[1..]) && DenseOfAll(ts)[1..] == DenseOfAll(ts[1..]) && DenseOfAll(ts)[0] == DenseOf(ts[0])
  {
    hide Coherent, DenseOf;
  }

  /** A list of one. */
  lemma OneJoined(ts: seq<Lora>)
    requires AllCoherent(ts) && AllBuilt(ts) && |ts| == 1
    ensures CatBoth(ts) == Some(ts[0]) && Coherent(ts[0])
    ensures CatFlat(DenseOfAll(ts)) == Some(DenseOf(ts[0]))
  {
    hide CatFlat, DenseOf;
    DenseShape(ts[0]);
    assert As(ts) == [ts[0].a] && Bs(ts) == [ts[0].b] && DenseOfAll(ts) == [DenseOf(ts[0])];
    CatOne(ts[0].a);
    CatOne(ts[0].b);
    CatOne(DenseOf(ts[0]));
  }

  // ---- Stacking ----

  function LiftLora(t: Lora): (r: Lora)
    requires Built(t)
    ensures Built(r)
  {
    Lora(Lift(t.a), Lift(t.b))
  }

  function LiftLoras(ts: seq<Lora>): (r: seq<Lora>)
    requires AllBuilt(ts)
    ensures |r| == |ts| && AllBuilt(r) && forall i :: 0 <= i < |ts| ==> r[i] == LiftLora(ts[i])
  {
    seq(|ts|, i requires 0 <= i < |ts| => LiftLora(ts[i]))
  }

  lemma LiftRows(lead: seq<nat>, m: Matrix)
    requires Valid(m) && |m.rows| == Size(lead)
    ensures Size([1] + lead) == |m.rows| && Lift(FromRows(lead, m)) == FromRows([1] + lead, m)
  {
    hide Size;
    SizeCons(1, lead);
    assert [1] + (lead + [m.cols]) == [1] + lead + [m.cols];
  }

  /** With a new first axis the same matrices serve the same rows. */
  lemma LiftedRows(units: seq<nat>, batch: seq<nat>, len: nat)
    requires Paired(units, batch)
    ensures Paired([1] + units, [1] + batch) && UnitRows([1] + units, [1] + batch, len) == UnitRows(units, batch, len)
  {
    hide Size, UnitAt, UnitRows;
    PairedCons(1, units, batch);
    RowCount(1, units, batch, len);
    var v, w := UnitRows(units, batch, len), UnitRows([1] + units, [1] + batch, len);
    forall r | 0 <= r < |v|
      ensures w[r] == v[r]
    {
      var q, s := Place(r, Size(batch), len);
      UnitRowIs(units, batch, len, q, s);
      UnitRowCons(1, units, batch, len, 0, q, q, s, r);
    }
    assert w == v;
  }

  lemma LiftSound(t: Lora)
    requires Coherent(t)
    ensures var r := LiftLora(t); Coherent(r) && Stacked(r) && Rank(r) == Rank(t) && DenseOf(r) == Lift(DenseOf(t))
  {
    hide Size, Rows, FromRows, BlockDense, UnitRows, UnitAt, Lift;
    CoherentParts(t);
    FactorsByRows(t);
    ServedBlocks(t);
    LiftRows(Units(t) + [Rank(t)], Rows(t.a));
    LiftRows(Batch(t) + [Len(t)], Rows(t.b));
    LiftRows(Batch(t) + [Len(t)], DenseRows(t));
    LiftedRows(Units(t), Batch(t), Len(t));
    assert [1] + Units(t) + [Rank(t)] == [1] + (Units(t) + [Rank(t)]) && [1] + Batch(t) + [Len(t)] == [1] + (Batch(t) + [Len(t)]);
    ByRowsMeans(LiftLora(t), [1] + Units(t), [1] + Batch(t), Len(t), Rows(t.a), Rows(t.b));
  }

  /** Main result on `torch.stack`: whatever the axes in front of `A`, the stacked factors multiply out to
      the stacked weights. */
  lemma StackSound(ts: seq<Lora>)
    requires AllCoherent(ts) && AllBuilt(ts) && StackLora(ts).Some?
    ensures var r := StackLora(ts).value;
            && ts != [] && Coherent(r) && Stacked(r) && Rank(r) == Rank(ts[0])
            && StackFlat(DenseOfAll(ts)) == Some(DenseOf(r))
  {
    hide CatFlat, StackFlat, DenseOf, Coherent, Stacked, Lift;
    SomeStacked(ts);
    var ls := LiftLoras(ts);
    StackIsCat(As(ts));
    StackIsCat(Bs(ts));
    StackIsCat(DenseOfAll(ts));
    assert Lifted(As(ts)) == As(ls) && Lifted(Bs(ts)) == Bs(ls);
    forall i | 0 <= i < |ts|
      ensures Coherent(ls[i]) && Stacked(ls[i]) && Rank(ls[i]) == Rank(ts[i]) && DenseOf(ls[i]) == Lift(DenseOf(ts[i]))
    {
      LiftSound(ts[i]);
    }
    CatBothSound(ls);
    assert Lifted(DenseOfAll(ts)) == DenseOfAll(ls);
  }

  lemma SomeStacked(ts: seq<Lora>)
    requires AllBuilt(ts) && StackLora(ts).Some?
    ensures ts != []
  {
  }

  // ---- Where joining above two dimensions fails ----

  /** Whether all are stacked, first and rest. */
  lemma StackedCons(ts: seq<Lora>)
    requires AllBuilt(ts) && ts != []
    ensures AllBuilt(ts[1..]) && (AllStacked(ts) <==> Stacked(ts[0]) && AllStacked(ts[1..]))
  {
    hide Stacked, Built;
    var rest := ts[1..];
    assert forall i :: 1 <= i < |ts| ==> ts[i] == rest[i - 1];
    assert forall i :: 0 <= i < |rest| ==> rest[i] == ts[i + 1];
  }

  /** A weight above two dimensions that is not empty along its first axis. */
  predicate Filled(t: Lora)
    requires Built(t)
  {
    Dims(t) > 2 && Batch(t)[0] > 0
  }

  lemma FilledLengths(t: Lora)
    requires Coherent(t) && Filled(t)
    ensures t.a.shape != [] && t.b.shape != [] && 1 <= t.a.shape[0] <= t.b.shape[0]
    ensures t.a.shape[0] == t.b.shape[0] <==> Stacked(t)
  {
  }

  lemma {:induction false} FirstLengthsBelow(ts: seq<Lora>)
    requires AllCoherent(ts) && AllBuilt(ts) && forall i :: 0 <= i < |ts| ==> Filled(ts[i])
    ensures (forall i :: 0 <= i < |ts| ==> As(ts)[i].shape != [] && Bs(ts)[i].shape != [])
    ensures |ts| <= FirstLengths(As(ts)) <= FirstLengths(Bs(ts))
    ensures FirstLengths(As(ts)) == FirstLengths(Bs(ts)) <==> AllStacked(ts)
  {
    hide Stacked, Filled, Coherent, AllStacked;
    forall i | 0 <= i < |ts|
      ensures As(ts)[i].shape != [] && Bs(ts)[i].shape != []
    {
      FilledLengths(ts[i]);
    }
    if ts == [] {
      NoneStacked();
    } else {
      var rest := ts[1..];
      FirstLengthsBelow(rest);
      assert As(ts)[1..] == As(rest) && Bs(ts)[1..] == Bs(rest);
      FilledLengths(ts[0]);
      StackedCons(ts);
    }
  }

  lemma NoneStacked()
    ensures AllBuilt([]) && AllStacked([])
  {
  }

  /** Main result on `torch.cat` above two dimensions, for parts that are not empty: the joined factors
      multiply out to the joined weights if and only if every `A` is stacked along the first axis, or
      there is one part. */
  lemma CatAboveExactly(ts: seq<Lora>)
    requires AllCoherent(ts) && AllBuilt(ts) && Cat(ts).Some? && Dims(ts[0]) > 2
    requires forall i :: 0 <= i < |ts| ==> Filled(ts[i])
    ensures Product(Cat(ts).value) == CatFlat(DenseOfAll(ts)) <==> |ts| == 1 || AllStacked(ts)
  {
    hide DenseOf, Coherent, CatBoth, Stacked, Product, CatFlat;
    if |ts| == 1 {
      OneJoined(ts);
      ProductByRows(ts[0]);
    } else if AllStacked(ts) {
      CatBothSound(ts);
      ProductByRows(Cat(ts).value);
    } else {
      UnstackedDiffers(ts);
    }
  }

  /** The dense weights can be joined, and to what length. */
  lemma DenseJoins(ts: seq<Lora>)
    requires AllCoherent(ts) && AllBuilt(ts) && ts != [] && CatBoth(ts).Some? && Dims(ts[0]) > 2
    ensures var d := CatFlat(DenseOfAll(ts)); d.Some? && d.value.shape != [] && d.value.shape[0] == FirstLengths(Bs(ts))
  {
    hide DenseOf, AllData, FirstLengths, Coherent;
    var ds, xs, ys := DenseOfAll(ts), As(ts), Bs(ts);
    forall i | 0 <= i < |ts|
      ensures ds[i].shape != [] && Tail(ds[i].shape) == Tail(ds[0].shape) && ds[i].shape[0] == ys[i].shape[0]
    {
      assert Tail(xs[i].shape) == Tail(xs[0].shape) && Tail(ys[i].shape) == Tail(ys[0].shape);
      DenseTails(ts[0], ts[i]);
    }
    SameLengths(ds, ys);
  }

  lemma DenseTails(x: Lora, y: Lora)
    requires Coherent(x) && Coherent(y) && Dims(x) > 2 && Tail(x.a.shape) == Tail(y.a.shape) && Tail(x.b.shape) == Tail(y.b.shape)
    ensures DenseOf(x).shape != [] && DenseOf(y).shape != [] && Tail(DenseOf(y).shape) == Tail(DenseOf(x).shape)
    ensures DenseOf(y).shape[0] == y.b.shape[0]
  {
    hide DenseOf, Tail;
    CoherentParts(x);
    SameBehind(x, y);
    DenseTailOf(x);
    DenseTailOf(y);
  }

  lemma DenseTailOf(t: Lora)
    requires Coherent(t) && Dims(t) > 2
    ensures DenseOf(t).shape != [] && DenseOf(t).shape[0] == t.b.shape[0] && Tail(DenseOf(t).shape) == Batch(t)[1..] + [Len(t), Cols(t)]
  {
    hide DenseOf;
    DenseShape(t);
    assert DenseOf(t).shape == [t.b.shape[0]] + (Batch(t)[1..] + [Len(t), Cols(t)]);
  }

  lemma {:induction false} SameLengths(xs: seq<Flat>, ys: seq<Flat>)
    requires |xs| == |ys| && forall i :: 0 <= i < |xs| ==> xs[i].shape != [] && ys[i].shape != [] && xs[i].shape[0] == ys[i].shape[0]
    ensures FirstLengths(xs) == FirstLengths(ys)
  {
    if xs != [] {
      SameLengths(xs[1..], ys[1..]);
    }
  }

  lemma UnstackedDiffers(ts: seq<Lora>)
    requires AllCoherent(ts) && AllBuilt(ts) && |ts| > 1 && CatBoth(ts).Some?
    requires forall i :: 0 <= i < |ts| ==> Filled(ts[i])
    requires !AllStacked(ts)
    ensures Product(CatBoth(ts).value) != CatFlat(DenseOfAll(ts))
  {
    hide DenseOf, Coherent, Product, AllStacked, DenseOfAll;
    FirstLengthsBelow(ts);
    DenseJoins(ts);
    JoinedFirst(ts);
    var r, d := CatBoth(ts).value, CatFlat(DenseOfAll(ts)).value;
    if Product(r) == Some(d) {
      ProductFirst(r);
    }
  }

  lemma JoinedFirst(ts: seq<Lora>)
    requires AllBuilt(ts) && ts != [] && CatBoth(ts).Some? && Dims(ts[0]) > 2
    requires forall i :: 0 <= i < |ts| ==> As(ts)[i].shape != [] && Bs(ts)[i].shape != []
    ensures var r := CatBoth(ts).value; Dims(r) > 2 && Units(r)[0] == FirstLengths(As(ts))
  {
    hide FirstLengths, AllData;
  }

  /** The first axis of a product is one that the first of `A` serves. */
  lemma ProductFirst(r: Lora)
    requires Built(r) && Dims(r) > 2 && Product(r).Some?
    ensures Product(r).value.shape != [] && (Units(r)[0] == 1 || Units(r)[0] == Product(r).value.shape[0])
  {
    hide Entry, Size, Unflatten, Broadcast;
    var batch := Broadcast(Batch(r), Units(r)).value;
    assert batch[0] == Product(r).value.shape[0];
  }

  // ---- Joining matrices ----

  /** Two matrices that share `A`. */
  lemma TwoShared(x: Lora, y: Lora)
    requires Coherent(x) && Coherent(y) && Dims(x) == Dims(y) == 2 && x.a == y.a
    ensures var r := Lora(x.a, JoinTwo(x.b, y.b));
            && Coherent(r) && Rank(r) == Rank(x) && Dims(r) == 2
            && DenseOf(x).shape != [] && DenseOf(y).shape != [] && Tail(DenseOf(x).shape) == Tail(DenseOf(y).shape)
            && DenseOf(r) == JoinTwo(DenseOf(x), DenseOf(y))
  {
    hide Size, Rows, FromRows, Dense, DenseOf, DenseRows, Coherent, Tail, JoinTwo;
    CoherentParts(x);
    CoherentParts(y);
    MatrixLead(x);
    MatrixLead(y);
    MatrixProduct(x);
    MatrixProduct(y);
    var a, b, c := Rows(x.a), Rows(x.b), Rows(y.b);
    assert [Len(x)] + [] == [Len(x)] && [Len(y)] + [] == [Len(y)] && [Len(x) + Len(y)] + [] == [Len(x) + Len(y)];
    JoinRows(Len(x), Len(y), [], b, c);
    JoinRows(Len(x), Len(y), [], Dense(a, b), Dense(a, c));
    DenseStack(a, b, c);
    TwoMatrices(Lora(x.a, JoinTwo(x.b, y.b)), a, Stack(b, c));
  }

  /** All matrices share `A`. */
  ghost predicate Shared(ts: seq<Lora>) {
    AllCoherent(ts) && AllBuilt(ts) && ts != [] && forall i :: 0 <= i < |ts| ==> Dims(ts[i]) == 2 && ts[i].a == ts[0].a
  }

  lemma SharedTail(ts: seq<Lora>)
    requires Shared(ts) && |ts| > 1
    ensures Shared(ts[1..]) && ts[1..][0].a == ts[0].a && Bs(ts)[1..] == Bs(ts[1..])
    ensures Coherent(ts[0]) && Dims(ts[0]) == 2
  {
    hide Coherent;
  }

  lemma {:induction false} CatSharedSound(ts: seq<Lora>)
    requires Shared(ts)
    ensures CatFlat(Bs(ts)).Some?
    ensures var r := Lora(ts[0].a, CatFlat(Bs(ts)).value);
            && Coherent(r) && Dims(r) == 2 && Rank(r) == Rank(ts[0]) && CatFlat(DenseOfAll(ts)) == Some(DenseOf(r))
  {
    hide CatFlat, DenseOf, Coherent, Tail, Rank;
    if |ts| == 1 {
      OneShared(ts);
    } else {
      SharedTail(ts);
      CatSharedSound(ts[1..]);
      var rest := Lora(ts[0].a, CatFlat(Bs(ts[1..])).value);
      TwoShared(ts[0], rest);
      CatCons(Bs(ts));
      DenseTail(ts);
      CatCons(DenseOfAll(ts));
      MatrixTail(ts[0], rest);
    }
  }

  lemma MatrixTail(x: Lora, y: Lora)
    requires Coherent(x) && Coherent(y) && Dims(x) == Dims(y) == 2 && x.a == y.a
    ensures x.b.shape != [] && y.b.shape != [] && Tail(x.b.shape) == Tail(y.b.shape)
  {
    assert Tail(x.b.shape) == [Rank(x)] && Tail(y.b.shape) == [Rank(y)];
  }

  lemma OneShared(ts: seq<Lora>)
    requires Shared(ts) && |ts| == 1
    ensures CatFlat(Bs(ts)) == Some(ts[0].b) && CatFlat(DenseOfAll(ts)) == Some(DenseOf(ts[0])) && Coherent(ts[0]) && Dims(ts[0]) == 2
  {
    hide CatFlat, DenseOf;
    DenseShape(ts[0]);
    assert Bs(ts) == [ts[0].b] && DenseOfAll(ts) == [DenseOf(ts[0])];
    CatOne(ts[0].b);
    CatOne(DenseOf(ts[0]));
  }

  /** An unstacked `A` above two dimensions, and a second part. */
  predicate Mixes(ts: seq<Lora>)
    requires AllBuilt(ts)
  {
    |ts| > 1 && Dims(ts[0]) > 2 && !AllStacked(ts)
  }

  /** Main result on `torch.cat`. */
  lemma CatSound(ts: seq<Lora>)
    requires AllCoherent(ts) && AllBuilt(ts) && Cat(ts).Some? && !Mixes(ts)
    ensures var r := Cat(ts).value;
            && ts != [] && Coherent(r) && Rank(r) == Rank(ts[0])
            && CatFlat(DenseOfAll(ts)) == Some(DenseOf(r))
  {
    hide CatFlat, DenseOf, Coherent, Rank, AllStacked, CatBoth;
    CatSome(ts);
    CoherentParts(ts[0]);
    if Dims(ts[0]) > 2 {
      if |ts| == 1 {
        OneJoined(ts);
      } else {
        CatBothSound(ts);
      }
    } else {
      SameA(ts);
      CatSharedSound(ts);
    }
  }

  lemma CatSome(ts: seq<Lora>)
    requires AllBuilt(ts) && Cat(ts).Some?
    ensures ts != []
    ensures Dims(ts[0]) > 2 ==> Cat(ts) == CatBoth(ts)
    ensures Dims(ts[0]) <= 2 ==>
              (forall i :: 0 <= i < |ts| ==> ts[i].a == ts[0].a) && CatFlat(Bs(ts)).Some? && Cat(ts).value == Lora(ts[0].a, CatFlat(Bs(ts)).value)
  {
    hide CatFlat, CatBoth;
  }

  lemma SameA(ts: seq<Lora>)
    requires AllCoherent(ts) && AllBuilt(ts) && ts != [] && Dims(ts[0]) == 2 && forall i :: 0 <= i < |ts| ==> ts[i].a == ts[0].a
    ensures Shared(ts)
  {
    forall i | 0 <= i < |ts|
      ensures Dims(ts[i]) == 2
    {
      assert Built(ts[i]) && Built(ts[0]) && ts[i].a == ts[0].a;
    }
  }

  // ---- Stacking and taking out again ----

  lemma {:induction false} DataAt(ts: seq<Flat>, n: nat, i: nat, f: nat)
    requires (forall j :: 0 <= j < |ts| ==> |ts[j].data| == n) && i < |ts| && f < n
    ensures i * n + f < |AllData(ts)| == |ts| * n && AllData(ts)[i * n + f] == ts[i].data[f]
  {
    var rest := ts[1..];
    DataLength(rest, n);
    MulBound(i, |ts|, f, n);
    AddTimes(1, |rest|, n);
    if i > 0 {
      DataAt(rest, n, i - 1, f);
      AddTimes(1, i - 1, n);
    }
  }

  lemma {:induction false} DataLength(ts: seq<Flat>, n: nat)
    requires forall j :: 0 <= j < |ts| ==> |ts[j].data| == n
    ensures |AllData(ts)| == |ts| * n
  {
    if ts != [] {
      DataLength(ts[1..], n);
      AddTimes(1, |ts| - 1, n);
    }
  }

  lemma PositionsCons(ix: Index, ixs: seq<Index>, n: nat, shape: seq<nat>)
    requires |ixs| == |shape|
    ensures var head, tail := Positions(ix, n), AllPositions(ixs, shape);
            AllPositions([ix] + ixs, [n] + shape) == if head.None? || tail.None? then None else Some([head.value] + tail.value)
  {
    hide Positions;
    assert ([ix] + ixs)[1..] == ixs && ([n] + shape)[1..] == shape;
  }

  lemma KeptShapeCons(ix: Index, ixs: seq<Index>, pick: seq<nat>, picks: seq<seq<nat>>)
    requires |ixs| == |picks|
    ensures KeptShape([ix] + ixs, [pick] + picks) == (if ix.Item? then [] else [|pick|]) + KeptShape(ixs, picks)
  {
    assert ([ix] + ixs)[1..] == ixs && ([pick] + picks)[1..] == picks;
  }

  lemma {:induction false} FullKept(ixs: seq<Index>, shape: seq<nat>)
    requires |ixs| == |shape| && forall i :: 0 <= i < |ixs| ==> ixs[i] == FULL
    ensures AllPositions(ixs, shape) == Some(Everything(shape)) && KeptShape(ixs, Everything(shape)) == shape
  {
    hide *;
    if ixs == [] {
      NoAxesKept();
      assert shape == [];
    } else {
      FullKept(ixs[1..], shape[1..]);
      FullPicks(shape[0]);
      EverythingFirst(shape);
      PositionsCons(FULL, ixs[1..], shape[0], shape[1..]);
      KeptShapeCons(FULL, ixs[1..], UpTo(shape[0]), Everything(shape[1..]));
      assert [FULL] + ixs[1..] == ixs && [shape[0]] + shape[1..] == shape;
    }
  }

  lemma FullPicks(n: nat)
    ensures Positions(FULL, n) == Some(UpTo(n)) && FULL.Range?
  {
    FullTakesAll(n);
  }

  lemma NoAxesKept()
    ensures AllPositions([], []) == Some(Everything([])) && KeptShape([], Everything([])) == []
  {
  }

  lemma EverythingFirst(shape: seq<nat>)
    requires shape != []
    ensures Everything(shape) == [UpTo(shape[0])] + Everything(shape[1..])
  {
  }

  lemma EverythingCons(shape: seq<nat>, k: nat)
    ensures |Everything(shape)| == |shape| && Counts([[k]] + Everything(shape)) == [1] + shape
  {
  }

  /** A number picks one of the parts along the first axis. */
  lemma ItemPositions(n: nat, shape: seq<nat>, i: int)
    requires InRange(i, n)
    ensures var picks := [[FromFront(i, n)]] + Everything(shape); var all := [Index.Item(i)] + Full(|shape|);
            && AllPositions(all, [n] + shape) == Some(picks) && |all| == |picks|
            && KeptShape(all, picks) == shape && Counts(picks) == [1] + shape
  {
    EverythingCons(shape, FromFront(i, n));
    FullKept(Full(|shape|), shape);
    assert Positions(Index.Item(i), n) == Some([FromFront(i, n)]);
    hide *;
    PositionsCons(Index.Item(i), Full(|shape|), n, shape);
    KeptShapeCons(Index.Item(i), Full(|shape|), [FromFront(i, n)], Everything(shape));
    assert [] + shape == shape;
  }

  lemma ItemRow(n: nat, shape: seq<nat>, k: nat, f: nat)
    requires k < n && f < Size(shape)
    ensures var picks := [[k]] + Everything(shape);
            && GoodPicks([n] + shape, picks) && Counts(picks) == [1] + shape && Size([1] + shape) == Size(shape)
            && SelectedRow([n] + shape, picks, f) == k * Size(shape) + f
  {
    hide Size, Flatten, Unflatten;
    var picks, idx := [[k]] + Everything(shape), Unflatten(shape, f);
    assert Counts(picks) == [1] + shape;
    FlattenUnflatten(shape, f);
    FlattenCons(1, shape, 0, idx);
    UnflattenFlatten([1] + shape, [0] + idx);
    assert Chosen(picks, [0] + idx) == [k] + idx;
    FlattenCons(n, shape, k, idx);
  }

  lemma StackItem(ts: seq<Flat>, i: int)
    requires (forall j :: 0 <= j < |ts| ==> ValidFlat(ts[j])) && StackFlat(ts).Some? && InRange(i, |ts|)
    ensures ValidFlat(StackFlat(ts).value) && IndexFlat(StackFlat(ts).value, [Index.Item(i)]) == Some(ts[FromFront(i, |ts|)])
  {
    hide Size, AllPositions, KeptShape, Everything, SelectedRow, AllData;
    StackValid(ts);
    var s, shape, k := StackFlat(ts).value, ts[0].shape, FromFront(i, |ts|);
    ItemPositions(|ts|, shape, i);
    assert Padded([Index.Item(i)], |s.shape|) == [Index.Item(i)] + Full(|shape|);
    var r := IndexFlat(s, [Index.Item(i)]).value;
    forall f: nat | f < Size(shape)
      ensures r.data[f] == ts[k].data[f]
    {
      ItemRow(|ts|, shape, k, f);
      DataAt(ts, Size(shape), k, f);
    }
    assert r.data == ts[k].data;
  }

  /** Main result on stacked weights: `torch.stack(ts)[i]` is `ts[i]`, factors and all. */
  lemma StackThenIndex(ts: seq<Lora>, i: int)
    requires AllBuilt(ts) && StackLora(ts).Some? && InRange(i, |ts|)
    ensures Apply(Get(Index.Item(i)), StackLora(ts).value) == Some(ts[FromFront(i, |ts|)])
  {
    hide StackFlat, IndexFlat;
    AllValid(ts);
    StackDims(ts);
    StackItem(As(ts), i);
    StackItem(Bs(ts), i);
  }

  lemma StackDims(ts: seq<Lora>)
    requires AllBuilt(ts) && StackLora(ts).Some?
    ensures ts != [] && Dims(StackLora(ts).value) > 2
    ensures StackFlat(As(ts)) == Some(StackLora(ts).value.a) && StackFlat(Bs(ts)) == Some(StackLora(ts).value.b)
  {
    hide AllData;
    assert StackFlat(Bs(ts)).value.shape == [|ts|] + ts[0].b.shape;
  }

  /** Of a stacked weight every number within reach and every slice can be taken, and means what it means
      on the dense weight. */
  lemma StackedIndexing(t: Lora, ix: Index)
    requires Coherent(t) && Stacked(t)
    ensures Apply(Get(ix), t).Some? <==> Positions(ix, Lead(t)[0]).Some?
    ensures Apply(Get(ix), t).Some? ==> Product(Apply(Get(ix), t).value) == ApplyDense(Get(ix), DenseOf(t))
  {
    hide DenseOf, IndexFlat, Product, Positions;
    DenseShape(t);
    assert Batch(t)[0] == Lead(t)[0] == DenseOf(t).shape[0];
    FirstPosition(DenseOf(t), ix);
    DefinedExactly(Get(ix), t);
    if Apply(Get(ix), t).Some? {
      ApplyExactly(Get(ix), t);
    }
  }
}
