/** Whole programs over low-rank weights, splitting and joining again, and the head reordering in closed
    form (engine/convert_lora_to_gguf.py). */
module LoraProgram {
  import opened Common
  import opened Matrices
  import opened Shapes
  import opened UnitAxes
  import opened TensorOps
  import opened RowViews
  import opened LoraFactors
  import opened LoraProduct
  import opened LoraSound
  import opened LoraIndex
  import opened LoraExact
  import opened LoraSupport
  import opened LoraBreaks
  import opened LoraJoin

  // ---- Programs ----

  /** An expression over input weights, as a model class builds it. */
  datatype Expr = Input(k: nat) | Do(op: Op, arg: Expr) | CatOf(parts: seq<Expr>) | StackOf(parts: seq<Expr>)

  function Eval(e: Expr, ts: seq<Lora>): (r: Option<Lora>)
    requires AllBuilt(ts)
    ensures r.Some? ==> Built(r.value)
    decreases e, 1
  {
    match e
    case Input(k) => if k < |ts| then Some(ts[k]) else None
    case Do(op, arg) =>
      var x := Eval(arg, ts);
      if x.None? then None else Apply(op, x.value)
    case CatOf(parts) =>
      var xs := EvalAll(parts, ts);
      if xs.None? then None else Cat(xs.value)
    case StackOf(parts) =>
      var xs := EvalAll(parts, ts);
      if xs.None? then None else StackLora(xs.value)
  }

  function EvalAll(es: seq<Expr>, ts: seq<Lora>): (r: Option<seq<Lora>>)
    requires AllBuilt(ts)
    ensures r.Some? ==> |r.value| == |es| && AllBuilt(r.value)
    decreases es, 0
  {
    if es == [] then Some([])
    else
      var x, xs := Eval(es[0], ts), EvalAll(es[1..], ts);
      if x.None? || xs.None? then None else Some([x.value] + xs.value)
  }

  ghost predicate AllValid(ts: seq<Flat>) {
    forall i :: 0 <= i < |ts| ==> ValidFlat(ts[i])
  }

  function EvalDense(e: Expr, ts: seq<Flat>): (r: Option<Flat>)
    requires AllValid(ts)
    ensures r.Some? ==> ValidFlat(r.value)
    decreases e, 1
  {
    match e
    case Input(k) => if k < |ts| then Some(ts[k]) else None
    case Do(op, arg) =>
      var x := EvalDense(arg, ts);
      if x.None? || x.value.shape == [] then None else ApplyDense(op, x.value)
    case CatOf(parts) =>
      var xs := EvalAllDense(parts, ts);
      if xs.None? || CatFlat(xs.value).None? then None
      else
        CatValid(xs.value);
        CatFlat(xs.value)
    case StackOf(parts) =>
      var xs := EvalAllDense(parts, ts);
      if xs.None? || StackFlat(xs.value).None? then None
      else
        StackValid(xs.value);
        StackFlat(xs.value)
  }

  function EvalAllDense(es: seq<Expr>, ts: seq<Flat>): (r: Option<seq<Flat>>)
    requires AllValid(ts)
    ensures r.Some? ==> |r.value| == |es| && AllValid(r.value)
    decreases es, 0
  {
    if es == [] then Some([])
    else
      var x, xs := EvalDense(es[0], ts), EvalAllDense(es[1..], ts);
      if x.None? || xs.None? then None else Some([x.value] + xs.value)
  }

  /** No call of the program is one of those that break. */
  ghost predicate Steady(e: Expr, ts: seq<Lora>)
    requires AllBuilt(ts)
    decreases e, 1
  {
    match e
    case Input(_) => true
    case Do(op, arg) => Steady(arg, ts) && (Eval(arg, ts).Some? ==> !Breaks(op, Eval(arg, ts).value))
    case CatOf(parts) => AllSteady(parts, ts) && (EvalAll(parts, ts).Some? ==> !Mixes(EvalAll(parts, ts).value))
    case StackOf(parts) => AllSteady(parts, ts)
  }

  ghost predicate AllSteady(es: seq<Expr>, ts: seq<Lora>)
    requires AllBuilt(ts)
    decreases es, 0
  {
    es == [] || (Steady(es[0], ts) && AllSteady(es[1..], ts))
  }

  /** The inputs have factors in order. */
  ghost predicate Inputs(ts: seq<Lora>) {
    AllCoherent(ts) && AllBuilt(ts)
  }

  lemma DenseInputs(ts: seq<Lora>)
    requires Inputs(ts)
    ensures AllCoherent(ts) && AllBuilt(ts) && AllValid(DenseOfAll(ts)) && |DenseOfAll(ts)| == |ts|
    ensures forall k :: 0 <= k < |ts| ==> Coherent(ts[k]) && DenseOfAll(ts)[k] == DenseOf(ts[k])
  {
    hide Coherent, DenseOf;
  }

  ghost predicate OfRank(ts: seq<Lora>, rank: nat)
    requires AllBuilt(ts)
  {
    forall i :: 0 <= i < |ts| ==> Rank(ts[i]) == rank
  }

  lemma {:induction false} EvalSound(e: Expr, ts: seq<Lora>, rank: nat)
    requires Inputs(ts) && AllBuilt(ts) && AllCoherent(ts) && Steady(e, ts) && Eval(e, ts).Some?
    ensures var r := Eval(e, ts).value;
            && AllValid(DenseOfAll(ts)) && Coherent(r) && EvalDense(e, DenseOfAll(ts)) == Some(DenseOf(r))
            && (OfRank(ts, rank) ==> Rank(r) == rank)
    decreases e, 1
  {
    hide Apply, ApplyDense, Cat, StackLora, CatFlat, StackFlat, DenseOf, DenseOfAll, Coherent, Breaks, Mixes, Inputs;
    DenseInputs(ts);
    match e
    case Input(k) =>
    case Do(op, arg) =>
      EvalSound(arg, ts, rank);
      DenseShape(Eval(arg, ts).value);
      ApplySound(op, Eval(arg, ts).value);
    case CatOf(parts) =>
      EvalAllSound(parts, ts, rank);
      CatSound(EvalAll(parts, ts).value);
    case StackOf(parts) =>
      EvalAllSound(parts, ts, rank);
      StackSound(EvalAll(parts, ts).value);
  }

  lemma {:induction false} EvalAllSound(es: seq<Expr>, ts: seq<Lora>, rank: nat)
    requires Inputs(ts) && AllBuilt(ts) && AllCoherent(ts) && AllSteady(es, ts) && EvalAll(es, ts).Some?
    ensures var xs := EvalAll(es, ts).value;
            && AllValid(DenseOfAll(ts)) && AllCoherent(xs) && EvalAllDense(es, DenseOfAll(ts)) == Some(DenseOfAll(xs))
            && (OfRank(ts, rank) ==> OfRank(xs, rank))
    decreases es, 0
  {
    hide DenseOf, Coherent, Eval, EvalDense, DenseOfAll, Steady, Inputs;
    DenseInputs(ts);
    if es == [] {
      NoneDense();
    } else {
      EvalSound(es[0], ts, rank);
      EvalAllSound(es[1..], ts, rank);
      OneMoreDense(Eval(es[0], ts).value, EvalAll(es[1..], ts).value);
    }
  }

  lemma NoneDense()
    ensures AllCoherent([]) && DenseOfAll([]) == []
  {
  }

  lemma OneMoreDense(x: Lora, xs: seq<Lora>)
    requires Coherent(x) && AllCoherent(xs)
    ensures AllCoherent([x] + xs) && DenseOfAll([x] + xs) == [DenseOf(x)] + DenseOfAll(xs)
  {
    hide DenseOf, Coherent;
  }

  /** What `matmul` makes of each input. */
  ghost predicate Products(ts: seq<Lora>, ds: seq<Flat>)
    requires AllBuilt(ts)
  {
    |ds| == |ts| && forall i :: 0 <= i < |ts| ==> Product(ts[i]) == Some(ds[i])
  }

  /** Main result: running any program on the factors and multiplying out gives what the program gives on
      the products of the inputs. Where these have one rank, the result has it too. */
  lemma ProgramSound(e: Expr, ts: seq<Lora>, ds: seq<Flat>, rank: nat)
    requires AllCoherent(ts) && AllBuilt(ts) && Products(ts, ds) && Steady(e, ts) && Eval(e, ts).Some?
    ensures AllValid(ds) && Product(Eval(e, ts).value) == EvalDense(e, ds)
    ensures OfRank(ts, rank) ==> Rank(Eval(e, ts).value) == rank
  {
    hide DenseOf, Coherent, Eval, EvalDense, Product, Steady;
    EvalSound(e, ts, rank);
    ProductByRows(Eval(e, ts).value);
    forall i | 0 <= i < |ts|
      ensures ds[i] == DenseOf(ts[i])
    {
      ProductByRows(ts[i]);
    }
    assert ds == DenseOfAll(ts);
  }

  /** Every input has a product, so the program has something to run on. */
  lemma ProductsExist(ts: seq<Lora>)
    requires AllCoherent(ts) && AllBuilt(ts)
    ensures Products(ts, DenseOfAll(ts))
  {
    hide DenseOf, Coherent, Product;
    forall i | 0 <= i < |ts|
      ensures Product(ts[i]) == Some(DenseOfAll(ts)[i])
    {
      ProductByRows(ts[i]);
    }
  }

  // ---- A plain slice above two dimensions ----

  lemma FirstLength(t: Flat, ix: Index)
    requires ValidFlat(t) && t.shape != [] && ix.Range? && IndexFlat(t, [ix]).Some?
    ensures Positions(ix, t.shape[0]).Some?
    ensures var r := IndexFlat(t, [ix]).value; |r.shape| == |t.shape| && r.shape[0] == |Positions(ix, t.shape[0]).value|
  {
    hide Size, Positions, SelectFlat;
    var all := Padded([ix], |t.shape|);
    var picks := AllPositions(all, t.shape).value;
    KeptLength(all, picks);
    AllRanges(all);
  }

  lemma {:induction false} AllRanges(ixs: seq<Index>)
    requires forall i :: 0 <= i < |ixs| ==> ixs[i].Range?
    ensures Ranges(ixs) == |ixs|
  {
    if ixs != [] {
      AllRanges(ixs[1..]);
    }
  }

  /** What `t[lo:hi:step]` builds there, and when it is right: both factors are cut, the shape is always that
      of the slice, and the product is the slice if and only if the first axis of `A` kept a position or
      the slice is empty, as always where `A` is stacked. */
  lemma SliceExactly(t: Lora, ix: Index)
    requires Coherent(t) && Dims(t) > 2 && ix.Range? && ix.step > 0
    ensures Positions(ix, Units(t)[0]).Some? && Positions(ix, Lead(t)[0]).Some? && Apply(Get(ix), t).Some?
    ensures var r := Apply(Get(ix), t).value;
            var kept, rows := Positions(ix, Units(t)[0]).value, Positions(ix, Lead(t)[0]).value;
            && Dims(r) == Dims(t) && Units(r)[0] == |kept| && Lead(r)[0] == |rows|
            && (Product(r) == ApplyDense(Get(ix), DenseOf(t)) <==> kept != [] || rows == [])
  {
    hide DenseOf, IndexFlat, Product, Steps;
    FirstPosition(t.a, ix);
    FirstPosition(t.b, ix);
    GetFits(t, ix);
    FirstLength(t.a, ix);
    FirstLength(t.b, ix);
    ApplyExactly(Get(ix), t);
  }

  // ---- Splitting and joining again ----

  lemma FlattenOne(n: nat, i: nat)
    ensures Flatten([n], [i]) == i && Size([n]) == n
  {
    assert [n][1..] == [] && [i][1..] == [];
    assert Size([n]) == n * Size([]);
    assert Flatten([n], [i]) == i * Size([]) + Flatten([], []);
  }

  lemma SelectOneAxis(n: nat, ix: seq<nat>)
    requires Indices(ix, n)
    ensures GoodPicks([n], [ix]) && SelectedRows([n], [ix]) == ix
  {
    assert Counts([ix]) == [|ix|];
    FlattenOne(|ix|, 0);
    forall f: nat | f < |ix|
      ensures SelectedRows([n], [ix])[f] == ix[f]
    {
      FlattenOne(|ix|, f);
      FlattenOne(n, ix[f]);
      SelectMeaning([n], [ix], [f]);
      assert Chosen([ix], [f]) == [ix[f]];
    }
  }

  /** A piece of a matrix along its rows gathers its positions. */
  lemma PieceOfMatrix(b: Matrix, cut: Cut, k: nat)
    requires Valid(b) && Size([|b.rows|]) == |b.rows| && PiecePositions(cut, |b.rows|, k).Some?
    ensures var ix := PiecePositions(cut, |b.rows|, k).value;
            && Size([|ix|]) == |ix| && Indices(ix, |b.rows|)
            && PieceFlat(FromRows([|b.rows|], b), cut, 0, k) == Some(FromRows([|ix|], GatherRows(b, ix)))
  {
    hide Size, FromRows, PiecePositions, SelectedRows, PieceFlat, GatherRows;
    var n := |b.rows|;
    var ix := PiecePositions(cut, n, k).value;
    SizeOfOne(|ix|);
    PieceRows([n], b, cut, 0, k);
    assert Everything([n])[0 := ix] == [ix] && Counts([ix]) == [|ix|];
    SelectOneAxis(n, ix);
  }

  /** A piece along the rows gathers its positions from `B`. */
  lemma PieceGathers(t: Lora, cut: Cut, k: nat)
    requires Coherent(t) && Dims(t) == 2 && PiecePositions(cut, Lead(t)[0], k).Some?
    ensures var ix, b := PiecePositions(cut, Lead(t)[0], k).value, Rows(t.b);
            && Size([|ix|]) == |ix| && Indices(ix, |b.rows|)
            && Apply(Piece(cut, 0, k), t) == Some(Lora(t.a, FromRows([|ix|], GatherRows(b, ix))))
  {
    hide Size, Rows, FromRows, PiecePositions, PieceFlat, GatherRows;
    MatrixLead(t);
    PieceOfMatrix(Rows(t.b), cut, k);
  }

  /** The rows from `lo` on, `n` of them. */
  ghost predicate IsBlock(t: Lora, part: Lora, lo: nat, n: nat)
    requires Built(t)
  {
    var b := Rows(t.b);
    && Built(part) && Dims(part) == 2 && part.a == t.a && lo + n <= |b.rows|
    && Rows(part.b) == Matrix(b.cols, b.rows[lo..lo + n])
  }

  /** Piece `k` of a matrix cut along its rows is the block of rows after the pieces before it. */
  lemma PieceIsBlock(t: Lora, cut: Cut, k: nat)
    requires Coherent(t) && Dims(t) == 2
    requires PieceSizes(cut, Lead(t)[0]).Some? && k < |PieceSizes(cut, Lead(t)[0]).value|
    ensures var sizes, r := PieceSizes(cut, Lead(t)[0]).value, Apply(Piece(cut, 0, k), t);
            r.Some? && IsBlock(t, r.value, Sum(sizes[..k]), sizes[k])
  {
    hide Apply, Sum, Steps, PieceSizes, PiecePositions, GatherRows, Rows, FromRows, IsBlock;
    var n, sizes := Lead(t)[0], PieceSizes(cut, Lead(t)[0]).value;
    MatrixLead(t);
    PiecePlace(cut, n, k);
    PieceGathers(t, cut, k);
    BlockIsBlock(t, Apply(Piece(cut, 0, k), t).value, Sum(sizes[..k]), sizes[k]);
  }

  lemma BlockIsBlock(t: Lora, part: Lora, lo: nat, n: nat)
    requires Built(t) && Built(part) && lo + n <= |Rows(t.b).rows| && part.a == t.a && Dims(t) == 2
    requires var ix := Steps(lo, lo + n, 1);
             && Size([|ix|]) == |ix| && Indices(ix, |Rows(t.b).rows|)
             && part.b == FromRows([|ix|], GatherRows(Rows(t.b), ix))
    ensures IsBlock(t, part, lo, n)
  {
    hide Size, Steps, Rows, FromRows, GatherRows;
    BlockOfRows(Rows(t.b), lo, lo + n);
  }

  lemma PiecePlace(cut: Cut, n: nat, k: nat)
    requires PieceSizes(cut, n).Some? && k < |PieceSizes(cut, n).value|
    ensures var sizes := PieceSizes(cut, n).value;
            var lo := Sum(sizes[..k]);
            lo + sizes[k] <= n && PiecePositions(cut, n, k) == Some(Steps(lo, lo + sizes[k], 1))
  {
    hide PieceSizes, Sum, Steps;
    CutSum(cut, n);
    SumPrefix(PieceSizes(cut, n).value, k);
  }

  lemma BlockOfRows(b: Matrix, lo: nat, hi: nat)
    requires Valid(b) && lo <= hi <= |b.rows|
    ensures var ix := Steps(lo, hi, 1);
            && Size([|ix|]) == |ix| && Indices(ix, |b.rows|)
            && Rows(FromRows([|ix|], GatherRows(b, ix))) == Matrix(b.cols, b.rows[lo..hi])
  {
    hide Steps, Size, Rows, FromRows;
    var ix := Steps(lo, hi, 1);
    SizeOfOne(|ix|);
    GatherBlock(b, lo, hi);
    RowsOf([|ix|], GatherRows(b, ix));
  }

  lemma GatherBlock(m: Matrix, lo: nat, hi: nat)
    requires Valid(m) && lo <= hi <= |m.rows|
    ensures Indices(Steps(lo, hi, 1), |m.rows|)
    ensures GatherRows(m, Steps(lo, hi, 1)).rows == m.rows[lo..hi]
  {
    ConsecutiveSteps(lo, hi);
  }

  lemma {:induction false} SumStep(s: seq<nat>, k: nat)
    requires k < |s|
    ensures Sum(s[..k + 1]) == Sum(s[..k]) + s[k]
  {
    if k == 0 {
      assert s[..1] == [s[0]] && s[..0] == [];
    } else {
      SumStep(s[1..], k - 1);
      assert s[..k + 1][1..] == s[1..][..k] && s[..k][1..] == s[1..][..k - 1];
    }
  }

  function Pieces(t: Lora, cut: Cut, m: nat): (r: seq<Option<Lora>>)
    requires Built(t)
    ensures |r| == m && forall k :: 0 <= k < m ==> r[k] == Apply(Piece(cut, 0, k), t)
  {
    seq(m, k requires 0 <= k => Apply(Piece(cut, 0, k), t))
  }

  /** What is left of the rows from piece `k` on. */
  ghost predicate LeftOver(t: Lora, sizes: seq<nat>, k: nat, f: Flat)
    requires k <= |sizes|
    requires Built(t)
  {
    var b, lo := Rows(t.b), Sum(sizes[..k]);
    && lo <= |b.rows| && Size([|b.rows| - lo]) == |b.rows| - lo
    && f == FromRows([|b.rows| - lo], Matrix(b.cols, b.rows[lo..]))
  }

  lemma PieceIsLeftOver(t: Lora, part: Lora, sizes: seq<nat>, k: nat)
    requires Built(t) && k < |sizes| && IsBlock(t, part, Sum(sizes[..k]), sizes[k]) && Sum(sizes[..k]) + sizes[k] == |Rows(t.b).rows|
    ensures LeftOver(t, sizes, k, part.b)
  {
    hide Rows, FromRows, Size, Sum;
    var b, lo := Rows(t.b), Sum(sizes[..k]);
    SizeOfOne(|b.rows| - lo);
    MatrixLead(part);
    assert b.rows[lo..lo + sizes[k]] == b.rows[lo..];
  }

  /** A block and what is left behind it. */
  lemma BlockAndRest(t: Lora, part: Lora, sizes: seq<nat>, k: nat, rest: Flat)
    requires Built(t) && k < |sizes| && IsBlock(t, part, Sum(sizes[..k]), sizes[k]) && LeftOver(t, sizes, k + 1, rest)
    ensures part.b.shape != [] && rest.shape != [] && Tail(part.b.shape) == Tail(rest.shape)
    ensures LeftOver(t, sizes, k, JoinTwo(part.b, rest))
  {
    hide Rows, FromRows, Size, Sum, Tail, JoinTwo;
    SumStep(sizes, k);
    MatrixLead(part);
    var b, lo, hi := Rows(t.b), Sum(sizes[..k]), Sum(sizes[..k]) + sizes[k];
    var x, y := Matrix(b.cols, b.rows[lo..hi]), Matrix(b.cols, b.rows[hi..]);
    assert [hi - lo] + [] == [hi - lo] && [|b.rows| - hi] + [] == [|b.rows| - hi] && [|b.rows| - lo] + [] == [|b.rows| - lo];
    JoinRows(hi - lo, |b.rows| - hi, [], x, y);
    assert hi - lo + (|b.rows| - hi) == |b.rows| - lo;
    assert Stack(x, y).rows == b.rows[lo..];
  }

  lemma {:induction false} JoinFrom(t: Lora, parts: seq<Lora>, sizes: seq<nat>, k: nat)
    requires Built(t) && |parts| == |sizes| && k < |parts| && Sum(sizes) == |Rows(t.b).rows|
    requires forall i :: 0 <= i < |parts| ==> IsBlock(t, parts[i], Sum(sizes[..i]), sizes[i])
    ensures CatFlat(Bs(parts[k..])).Some? && LeftOver(t, sizes, k, CatFlat(Bs(parts[k..])).value)
    decreases |parts| - k
  {
    hide IsBlock, LeftOver, CatFlat, Sum, Rows, Tail, JoinTwo;
    assert IsBlock(t, parts[k], Sum(sizes[..k]), sizes[k]);
    SumStep(sizes, k);
    if k == |parts| - 1 {
      assert sizes[..k + 1] == sizes;
      PieceIsLeftOver(t, parts[k], sizes, k);
      assert Bs(parts[k..]) == [parts[k].b];
      BlockShape(t, parts[k], Sum(sizes[..k]), sizes[k]);
      CatOne(parts[k].b);
    } else {
      JoinFrom(t, parts, sizes, k + 1);
      assert Bs(parts[k..])[1..] == Bs(parts[k + 1..]) && Bs(parts[k..])[0] == parts[k].b;
      CatCons(Bs(parts[k..]));
      BlockAndRest(t, parts[k], sizes, k, CatFlat(Bs(parts[k + 1..])).value);
    }
  }

  lemma BlockShape(t: Lora, part: Lora, lo: nat, n: nat)
    requires Built(t) && IsBlock(t, part, lo, n)
    ensures Built(part) && part.b.shape != [] && Dims(part) == 2 && part.a == t.a
  {
    hide Rows;
  }

  lemma BlocksBuilt(t: Lora, parts: seq<Lora>, sizes: seq<nat>)
    requires Built(t) && |parts| == |sizes| && forall i :: 0 <= i < |parts| ==> IsBlock(t, parts[i], Sum(sizes[..i]), sizes[i])
    ensures AllBuilt(parts) && forall i :: 0 <= i < |parts| ==> Dims(parts[i]) == 2 && parts[i].a == t.a
  {
    hide IsBlock, Built, Sum;
    forall i | 0 <= i < |parts|
      ensures Built(parts[i]) && Dims(parts[i]) == 2 && parts[i].a == t.a
    {
      assert IsBlock(t, parts[i], Sum(sizes[..i]), sizes[i]);
      BlockShape(t, parts[i], Sum(sizes[..i]), sizes[i]);
    }
  }

  /** Splitting a matrix along its rows and joining all pieces gives the matrix back. */
  lemma SplitThenCat(t: Lora, cut: Cut, parts: seq<Lora>)
    requires Coherent(t) && Dims(t) == 2
    requires PieceSizes(cut, Lead(t)[0]).Some? && |parts| == |PieceSizes(cut, Lead(t)[0]).value| > 0
    requires forall k :: 0 <= k < |parts| ==> Pieces(t, cut, |parts|)[k] == Some(parts[k])
    ensures AllBuilt(parts) && Cat(parts) == Some(t)
  {
    hide Apply, PieceSizes, Sum, Rows, FromRows, Size, CatFlat, IsBlock;
    var sizes := PieceSizes(cut, Lead(t)[0]).value;
    MatrixLead(t);
    CutSum(cut, Lead(t)[0]);
    forall k | 0 <= k < |parts|
      ensures IsBlock(t, parts[k], Sum(sizes[..k]), sizes[k])
    {
      assert Pieces(t, cut, |parts|)[k] == Some(parts[k]);
      PieceIsBlock(t, cut, k);
    }
    BlocksBuilt(t, parts, sizes);
    JoinFrom(t, parts, sizes, 0);
    assert parts[0..] == parts;
    AllLeft(t, sizes, CatFlat(Bs(parts)).value);
    JoinedWhole(t, parts);
  }

  lemma AllLeft(t: Lora, sizes: seq<nat>, f: Flat)
    requires Built(t) && Dims(t) == 2 && LeftOver(t, sizes, 0, f)
    ensures f == t.b
  {
    hide Rows, FromRows, Size;
    assert sizes[..0] == [] && Sum([]) == 0;
    MatrixLead(t);
    var b := Rows(t.b);
    assert b.rows[0..] == b.rows;
  }

  lemma JoinedWhole(t: Lora, parts: seq<Lora>)
    requires Built(t) && Dims(t) == 2 && AllBuilt(parts) && parts != [] && CatFlat(Bs(parts)) == Some(t.b)
    requires forall i :: 0 <= i < |parts| ==> Dims(parts[i]) == 2 && parts[i].a == t.a
    ensures Cat(parts) == Some(t)
  {
    hide CatFlat;
  }

  lemma CutSum(cut: Cut, n: nat)
    ensures PieceSizes(cut, n).Some? ==> Sum(PieceSizes(cut, n).value) == n
  {
  }

  // ---- Value heads ----

  /** In tiled order, head `v` of group `k` sits at `v * kHeads + k`; it comes from `k * vPerK + v`. */
  lemma VHeadSource(kHeads: nat, vPerK: nat, headDim: nat, k: nat, v: nat, d: nat)
    requires k < kHeads && v < vPerK && d < headDim
    ensures var ix := PermutedRows([kHeads, vPerK, headDim], KV_SWAP);
            var c := v * (kHeads * headDim) + k * headDim + d;
            && Permutes([kHeads, vPerK, headDim], KV_SWAP)
            && c < |ix| && ix[c] == k * (vPerK * headDim) + v * headDim + d
  {
    hide Source, Axes;
    var heads := [kHeads, vPerK, headDim];
    SwappedSize(kHeads, vPerK, headDim);
    FlattenThree(heads, [k, v, d]);
    FlattenThree([vPerK, kHeads, headDim], [v, k, d]);
    assert Axes([k, v, d], KV_SWAP) == [v, k, d];
    PermuteMeaning(heads, KV_SWAP, [k, v, d]);
  }

  lemma FlattenThree(shape: seq<nat>, idx: seq<nat>)
    requires |shape| == |idx| == 3
    ensures Flatten(shape, idx) == idx[0] * (shape[1] * shape[2]) + idx[1] * shape[2] + idx[2]
  {
    assert shape[1..][1..] == [shape[2]] && idx[1..][1..] == [idx[2]];
    assert Size([shape[2]]) == shape[2] * Size([]);
    assert Size(shape[1..]) == shape[1] * Size([shape[2]]);
    assert Flatten([shape[2]], [idx[2]]) == idx[2] * Size([]) + Flatten([], []);
    assert Flatten(shape[1..], idx[1..]) == idx[1] * Size([shape[2]]) + Flatten([shape[2]], [idx[2]]);
  }

  /** For every rank and every head layout the reordering moves each column to exactly one place and
      back: reordering with the roles of `kHeads` and `vPerK` exchanged undoes it. */
  lemma ReorderIsBijection(kHeads: nat, vPerK: nat, headDim: nat)
    ensures var n := kHeads * vPerK * headDim;
            var ix := PermutedRows([kHeads, vPerK, headDim], KV_SWAP);
            var back := PermutedRows([vPerK, kHeads, headDim], KV_SWAP);
            && Permutes([kHeads, vPerK, headDim], KV_SWAP) && Permutes([vPerK, kHeads, headDim], KV_SWAP)
            && |ix| == |back| == n
            && (forall c :: 0 <= c < n ==> ix[c] < n && back[ix[c]] == c)
            && (forall c :: 0 <= c < n ==> back[c] < n && ix[back[c]] == c)
  {
    SwappedSize(kHeads, vPerK, headDim);
    SwappedSize(vPerK, kHeads, headDim);
    MulReorder(kHeads, vPerK, headDim);
    forall c: nat | c < kHeads * vPerK * headDim
      ensures PermutedRows([vPerK, kHeads, headDim], KV_SWAP)[Source([kHeads, vPerK, headDim], KV_SWAP, c)] == c
    {
      ThereAndBack(kHeads, vPerK, headDim, c);
    }
    forall c: nat | c < kHeads * vPerK * headDim
      ensures PermutedRows([kHeads, vPerK, headDim], KV_SWAP)[Source([vPerK, kHeads, headDim], KV_SWAP, c)] == c
    {
      ThereAndBack(vPerK, kHeads, headDim, c);
    }
  }

  lemma SwapOfThree(x: nat, y: nat, z: nat)
    ensures IsPermutation(KV_SWAP) && Axes([x, y, z], KV_SWAP) == [y, x, z]
  {
    SwapPermutes();
  }

  lemma ThereAndBack(kHeads: nat, vPerK: nat, headDim: nat, c: nat)
    requires c < kHeads * vPerK * headDim
    ensures var there, back := [kHeads, vPerK, headDim], [vPerK, kHeads, headDim];
            && Permutes(there, KV_SWAP) && Permutes(back, KV_SWAP)
            && c < Size(Axes(there, KV_SWAP)) && Source(there, KV_SWAP, c) < Size(Axes(back, KV_SWAP))
            && Source(back, KV_SWAP, Source(there, KV_SWAP, c)) == c
  {
    hide Size, Flatten, Unflatten, Axes, Source, IsPermutation;
    SwapPermutes();
    SwappedSize(kHeads, vPerK, headDim);
    SwappedSize(vPerK, kHeads, headDim);
    var there, back := [kHeads, vPerK, headDim], [vPerK, kHeads, headDim];
    var idx := Unflatten(back, c);
    assert idx == [idx[0], idx[1], idx[2]];
    var swapped := [idx[1], idx[0], idx[2]];
    SwapOfThree(idx[0], idx[1], idx[2]);
    SwapOfThree(idx[1], idx[0], idx[2]);
    FlattenUnflatten(back, c);
    PermuteMeaning(there, KV_SWAP, swapped);
    PermuteMeaning(back, KV_SWAP, idx);
  }

  /** Reordering the columns of `A` moves the columns of the dense weight by that same bijection. */
  lemma ReorderMovesColumns(t: Lora, kHeads: nat, vPerK: nat, headDim: nat)
    requires Coherent(t) && Dims(t) == 2 && Cols(t) == kHeads * vPerK * headDim
    ensures Permutes([kHeads, vPerK, headDim], KV_SWAP)
    ensures var ix, r := PermutedRows([kHeads, vPerK, headDim], KV_SWAP), Apply(ReorderVHeads(1, kHeads, vPerK, headDim), t);
            && Indices(ix, Cols(t))
            && r.Some? && Rows(DenseOf(r.value)) == GatherCols(Rows(DenseOf(t)), ix)
            && r.value.b == t.b && Rows(r.value.a) == GatherCols(Rows(t.a), ix)
  {
    hide Size, Rows, FromRows, Dense, GatherCols, PermutedRows, ReorderFlat, ReorderA, IsPermutation, Axes, DenseOf, DenseRows;
    var a, b := Rows(t.a), Rows(t.b);
    SwappedSize(kHeads, vPerK, headDim);
    var ix := PermutedRows([kHeads, vPerK, headDim], KV_SWAP);
    MatrixLead(t);
    MatrixProduct(t);
    ReorderColsSound(t, kHeads, vPerK, headDim);
    ReorderAMoves(t, kHeads, vPerK, headDim);
    ReorderSecond(Dense(a, b), kHeads, vPerK, headDim);
    RowsOf([Len(t)], Dense(a, b));
    RowsOf([Len(t)], GatherCols(Dense(a, b), ix));
    RowsOf([Rank(t)], GatherCols(a, ix));
  }
}
