/** A tensor seen as a matrix: one row for every position of the leading axes. What an operation on flat
    storage does to the leading axes, it does to whole rows, and what it does to the last axis, it does
    to whole columns. */
module RowViews {
  import opened Common
  import opened Matrices
  import opened Shapes
  import opened UnitAxes
  import opened TensorOps

  function ElementAt(m: Matrix, f: nat): real
    requires Valid(m) && f < |m.rows| * m.cols
  {
    DivBound(f, |m.rows|, m.cols);
    m.rows[f / m.cols][f % m.cols]
  }

  /** The tensor of shape `lead + [m.cols]` with these rows. */
  function FromRows(lead: seq<nat>, m: Matrix): (t: Flat)
    requires Valid(m) && |m.rows| == Size(lead)
    ensures ValidFlat(t) && t.shape == lead + [m.cols] && |t.data| == |m.rows| * m.cols
  {
    SizeSnoc(lead, m.cols);
    Flat(lead + [m.cols], seq(|m.rows| * m.cols, f requires 0 <= f < |m.rows| * m.cols => ElementAt(m, f)))
  }

  /** The rows of a tensor. */
  function Rows(t: Flat): (m: Matrix)
    requires ValidFlat(t) && t.shape != []
    ensures Valid(m) && |m.rows| == Size(LeadOf(t)) && m.cols == Width(t)
  {
    var n, k := Width(t), Size(LeadOf(t));
    SizeSnoc(LeadOf(t), n);
    Matrix(n, seq(k, r requires 0 <= r < k => Row(t.data, r, k, n)))
  }

  function Row(data: seq<real>, r: nat, rows: nat, n: nat): (row: seq<real>)
    requires |data| == rows * n && r < rows
    ensures |row| == n
  {
    Bounds(r, rows, n);
    data[r * n..r * n + n]
  }

  lemma Bounds(r: nat, rows: nat, n: nat)
    requires r < rows
    ensures r * n + n <= rows * n
  {
    MulMono(r + 1, rows, n);
  }

  lemma ElementOf(lead: seq<nat>, m: Matrix, r: nat, c: nat)
    requires Valid(m) && |m.rows| == Size(lead) && r < |m.rows| && c < m.cols
    ensures r * m.cols + c < |FromRows(lead, m).data| && FromRows(lead, m).data[r * m.cols + c] == m.rows[r][c]
  {
    MulBound(r, |m.rows|, c, m.cols);
    DivMod(r, c, m.cols);
  }

  /** Storage that holds every element at its place is the storage of the rows. */
  lemma IsFromRows(t: Flat, lead: seq<nat>, m: Matrix)
    requires Valid(m) && |m.rows| == Size(lead) && t.shape == lead + [m.cols] && |t.data| == |m.rows| * m.cols
    requires forall r: nat, c: nat :: r < |m.rows| && c < m.cols ==> Holds(t.data, r, m.cols, c, m)
    ensures t == FromRows(lead, m)
  {
    hide Size, ElementAt, FromRows;
    forall f: nat | f < |t.data|
      ensures t.data[f] == FromRows(lead, m).data[f]
    {
      var r, c := Place(f, |m.rows|, m.cols);
      assert Holds(t.data, r, m.cols, c, m);
      ElementOf(lead, m, r, c);
    }
  }

  lemma Place(f: nat, rows: nat, n: nat) returns (r: nat, c: nat)
    requires f < rows * n
    ensures r < rows && c < n && f == r * n + c
  {
    DivBound(f, rows, n);
    r, c := f / n, f % n;
  }

  ghost predicate Holds(data: seq<real>, r: nat, n: nat, c: nat, m: Matrix)
    requires Valid(m) && r < |m.rows| && c < n == m.cols
  {
    r * n + c < |data| && data[r * n + c] == m.rows[r][c]
  }

  lemma RowsBack(t: Flat)
    requires ValidFlat(t) && t.shape != []
    ensures FromRows(LeadOf(t), Rows(t)) == t
  {
    hide Size, Rows, Holds;
    var lead, m := LeadOf(t), Rows(t);
    SizeSnoc(lead, m.cols);
    forall r: nat, c: nat | r < |m.rows| && c < m.cols
      ensures Holds(t.data, r, m.cols, c, m)
    {
      RowHolds(t, r, c);
    }
    IsFromRows(t, lead, m);
  }

  lemma RowHolds(t: Flat, r: nat, c: nat)
    requires ValidFlat(t) && t.shape != [] && r < Size(LeadOf(t)) && c < Width(t)
    ensures Holds(t.data, r, Width(t), c, Rows(t))
  {
    hide Size, Rows;
    RowIs(t, r);
    Bounds(r, Size(LeadOf(t)), Width(t));
  }

  lemma RowIs(t: Flat, r: nat)
    requires ValidFlat(t) && t.shape != [] && r < Size(LeadOf(t))
    ensures |t.data| == Size(LeadOf(t)) * Width(t) && Rows(t).rows[r] == Row(t.data, r, Size(LeadOf(t)), Width(t))
  {
    SizeSnoc(LeadOf(t), Width(t));
  }

  lemma RowsOf(lead: seq<nat>, m: Matrix)
    requires Valid(m) && |m.rows| == Size(lead)
    ensures Rows(FromRows(lead, m)) == m
  {
    hide Size, ElementAt, Row, Rows;
    var t := FromRows(lead, m);
    assert LeadOf(t) == lead;
    forall i, j | 0 <= i < |m.rows| && 0 <= j < m.cols
      ensures Rows(t).rows[i][j] == m.rows[i][j]
    {
      ElementOf(lead, m, i, j);
      RowHolds(t, i, j);
    }
    SameMatrix(Rows(t), m);
  }

  // ---- Choosing ----

  /** Choosing along the leading axes and the last one gathers rows and columns. */
  lemma SelectRowsCols(lead: seq<nat>, m: Matrix, picks: seq<seq<nat>>, last: seq<nat>, lead': seq<nat>)
    requires Valid(m) && |m.rows| == Size(lead) && GoodPicks(lead, picks) && Indices(last, m.cols)
    requires Size(lead') == Size(Counts(picks))
    ensures GoodPicks(lead + [m.cols], picks + [last]) && Size(lead' + [|last|]) == Size(Counts(picks + [last]))
    ensures SelectFlat(FromRows(lead, m), picks + [last], lead' + [|last|]) ==
            FromRows(lead', GatherCols(GatherRows(m, SelectedRows(lead, picks)), last))
  {
    hide Size, SelectedRow, ElementAt;
    CountsSnoc(picks, last);
    SizeSnoc(lead', |last|);
    SizeSnoc(Counts(picks), |last|);
    assert GoodPicks(lead + [m.cols], picks + [last]);
    var t := FromRows(lead, m);
    var s := SelectFlat(t, picks + [last], lead' + [|last|]);
    var g := GatherCols(GatherRows(m, SelectedRows(lead, picks)), last);
    forall r: nat, c: nat | r < |g.rows| && c < g.cols
      ensures Holds(s.data, r, g.cols, c, g)
    {
      SelectedSnoc(lead, m.cols, picks, last, r, c);
      ElementOf(lead, m, SelectedRow(lead, picks, r), last[c]);
    }
    IsFromRows(s, lead', g);
  }

  lemma GatherAllRows(m: Matrix)
    requires Valid(m)
    ensures GatherRows(m, UpTo(|m.rows|)) == m
  {
    assert GatherRows(m, UpTo(|m.rows|)).rows == m.rows;
  }

  lemma GatherAllCols(m: Matrix)
    requires Valid(m)
    ensures GatherCols(m, UpTo(m.cols)) == m
  {
    SameMatrix(GatherCols(m, UpTo(m.cols)), m);
  }

  /** Indexing every axis: the leading indices gather rows, a slice in the last place gathers columns. */
  lemma IndexRows(lead: seq<nat>, m: Matrix, ixs: seq<Index>, last: Index)
    requires Valid(m) && |m.rows| == Size(lead) && |ixs| == |lead| && last.Range?
    ensures var rows, cols := AllPositions(ixs, lead), Positions(last, m.cols);
            IndexFlat(FromRows(lead, m), ixs + [last]) ==
            if rows.None? || cols.None? then None
            else Some(FromRows(KeptRows(ixs, lead, rows.value),
                               GatherCols(GatherRows(m, SelectedRows(lead, rows.value)), cols.value)))
  {
    hide Size, SelectedRow, SelectedRows, SelectFlat, FromRows, AllPositions, KeptShape, Positions;
    var t := FromRows(lead, m);
    var rows, cols := AllPositions(ixs, lead), Positions(last, m.cols);
    AllPositionsSnoc(ixs, lead, last, m.cols);
    assert Padded(ixs + [last], |lead| + 1) == ixs + [last];
    if rows.Some? && cols.Some? {
      KeptShapeSnoc(ixs, rows.value, last, cols.value);
      SelectRowsCols(lead, m, rows.value, cols.value, KeptRows(ixs, lead, rows.value));
    }
  }

  /** The leading shape after indexing. */
  function KeptRows(ixs: seq<Index>, lead: seq<nat>, picks: seq<seq<nat>>): (r: seq<nat>)
    requires |ixs| == |lead| && AllPositions(ixs, lead) == Some(picks)
    ensures Size(r) == Size(Counts(picks))
  {
    KeptSize(ixs, lead, picks);
    KeptShape(ixs, picks)
  }

  lemma IndexPadded(t: Flat, ixs: seq<Index>)
    requires ValidFlat(t) && |ixs| <= |t.shape|
    ensures IndexFlat(t, ixs) == IndexFlat(t, Padded(ixs, |t.shape|))
  {
    assert Padded(Padded(ixs, |t.shape|), |t.shape|) == Padded(ixs, |t.shape|);
  }

  /** A piece along a leading axis gathers rows. */
  lemma PieceRows(lead: seq<nat>, m: Matrix, cut: Cut, d: nat, k: nat)
    requires Valid(m) && |m.rows| == Size(lead) && d < |lead|
    ensures var ix := PiecePositions(cut, lead[d], k);
            PieceFlat(FromRows(lead, m), cut, d, k) ==
            if ix.None? then None
            else
              var picks := Everything(lead)[d := ix.value];
              Some(FromRows(Counts(picks), GatherRows(m, SelectedRows(lead, picks))))
  {
    hide Size, SelectedRow, SelectedRows, SelectFlat, FromRows, PiecePositions;
    var t := FromRows(lead, m);
    var ix := PiecePositions(cut, lead[d], k);
    assert t.shape[d] == lead[d];
    if ix.Some? {
      var picks := Everything(lead)[d := ix.value];
      EverythingSnoc(lead, m.cols);
      assert Everything(t.shape)[d := ix.value] == picks + [UpTo(m.cols)];
      CountsSnoc(picks, UpTo(m.cols));
      SelectRowsCols(lead, m, picks, UpTo(m.cols), Counts(picks));
      GatherAllCols(GatherRows(m, SelectedRows(lead, picks)));
    }
  }

  /** A piece along the last axis gathers columns. */
  lemma PieceCols(lead: seq<nat>, m: Matrix, cut: Cut, k: nat)
    requires Valid(m) && |m.rows| == Size(lead)
    ensures var ix := PiecePositions(cut, m.cols, k);
            PieceFlat(FromRows(lead, m), cut, |lead|, k) ==
            if ix.None? then None else Some(FromRows(lead, GatherCols(m, ix.value)))
  {
    hide Size, SelectedRow, SelectFlat, FromRows, PiecePositions;
    var t := FromRows(lead, m);
    var ix := PiecePositions(cut, m.cols, k);
    if ix.Some? {
      EverythingSnoc(lead, m.cols);
      assert Everything(t.shape)[|lead| := ix.value] == Everything(lead) + [ix.value];
      CountsSnoc(Everything(lead), ix.value);
      SelectRowsCols(lead, m, Everything(lead), ix.value, lead);
      SelectedEverything(lead);
      GatherAllRows(m);
    }
  }

  lemma EverythingSnoc(shape: seq<nat>, n: nat)
    ensures Everything(shape + [n]) == Everything(shape) + [UpTo(n)]
  {
  }

  // ---- Permuting ----

  /** A permutation that leaves the last axis alone gathers rows. */
  lemma PermuteRows(lead: seq<nat>, m: Matrix, p: seq<nat>)
    requires Valid(m) && |m.rows| == Size(lead) && Permutes(lead, p)
    ensures Permutes(lead + [m.cols], Over(p))
    ensures PermuteFlat(FromRows(lead, m), Over(p)) ==
            FromRows(Axes(lead, p), GatherRows(m, PermutedRows(lead, p)))
  {
    hide Size, Source, ElementAt, Over, Axes, Distinct, Covers;
    OverPermutes(lead, p, m.cols);
    var t := FromRows(lead, m);
    var s, g := PermuteFlat(t, Over(p)), GatherRows(m, PermutedRows(lead, p));
    SizeSnoc(Axes(lead, p), m.cols);
    forall r: nat, c: nat | r < |g.rows| && c < g.cols
      ensures Holds(s.data, r, g.cols, c, g)
    {
      SourceOver(lead, p, m.cols, r, c);
      ElementOf(lead, m, Source(lead, p, r), c);
    }
    IsFromRows(s, Axes(lead, p), g);
  }

  /** Exchanging the two axes of a matrix transposes it. */
  lemma PermuteTwo(m: Matrix)
    requires Valid(m)
    ensures Size([|m.rows|]) == |m.rows| && Size([m.cols]) == m.cols
    ensures Permutes([|m.rows|, m.cols], SWAP)
    ensures PermuteFlat(FromRows([|m.rows|], m), SWAP) == FromRows([m.cols], Transpose(m))
  {
    SizeOfOne(|m.rows|);
    SizeOfOne(m.cols);
    SwapIsPermutation();
    hide Size, FromRows, PermuteFlat, Holds, IsPermutation, Transpose;
    var n, k := |m.rows|, m.cols;
    assert [n] + [k] == [n, k] && [k] + [n] == [k, n];
    assert Axes([n, k], SWAP) == [k, n];
    var s, g := PermuteFlat(FromRows([n], m), SWAP), Transpose(m);
    SizeSnoc([k], n);
    forall r: nat, c: nat | r < |g.rows| && c < g.cols
      ensures Holds(s.data, r, g.cols, c, g)
    {
      TransposedAt(m, s, r, c);
    }
    IsFromRows(s, [k], g);
  }

  lemma TransposedAt(m: Matrix, s: Flat, r: nat, c: nat)
    requires Valid(m) && Size([|m.rows|]) == |m.rows| && Permutes([|m.rows|, m.cols], SWAP)
    requires s == PermuteFlat(FromRows([|m.rows|], m), SWAP) && r < m.cols && c < |m.rows|
    ensures Holds(s.data, r, |m.rows|, c, Transpose(m))
  {
    hide Size, Source, FromRows, IsPermutation;
    assert [|m.rows|] + [m.cols] == [|m.rows|, m.cols];
    SourceSwap(|m.rows|, m.cols, c, r);
    ElementOf([|m.rows|], m, c, r);
  }

  lemma SizeOfOne(n: nat)
    ensures Size([n]) == n
  {
    assert [n][1..] == [] && Size([n]) == n * Size([]);
  }

  // ---- Reshaping and scaling ----

  /** Another shape of the leading axes leaves the rows alone. */
  lemma ReshapeRows(lead: seq<nat>, m: Matrix, lead': seq<nat>)
    requires Valid(m) && |m.rows| == Size(lead) == Size(lead')
    ensures ReshapeTo(FromRows(lead, m), lead' + [m.cols]) == Some(FromRows(lead', m))
  {
    SizeSnoc(lead', m.cols);
  }

  /** Where each position of a stretched shape comes from. */
  function Stretch(x: seq<nat>, s: seq<nat>): (ix: seq<nat>)
    requires Paired(x, s)
    ensures |ix| == Size(s) && Indices(ix, Size(x)) && forall r :: 0 <= r < |ix| ==> ix[r] == UnitAt(x, s, r)
  {
    seq(Size(s), r requires 0 <= r < Size(s) => UnitAt(x, s, r))
  }

  /** A factor for every row. */
  function Factors(data: seq<real>, f: seq<nat>, s: seq<nat>): (ks: seq<real>)
    requires Paired(f, s) && |data| == Size(f)
    ensures |ks| == Size(s) && forall r :: 0 <= r < |ks| ==> ks[r] == data[UnitAt(f, s, r)]
  {
    seq(Size(s), r requires 0 <= r < Size(s) => data[UnitAt(f, s, r)])
  }

  /** A tensor whose last axis has length 1, or which has no axes. */
  predicate IsColumn(other: Flat) {
    other.shape == [] || other.shape[|other.shape| - 1] == 1
  }

  /** Its other axes, as many as asked for. */
  function ColumnLead(other: Flat, n: nat): (f: seq<nat>)
    requires IsColumn(other) && |other.shape| <= n + 1
    ensures |f| == n && Pad(other.shape, n + 1) == f + [1]
  {
    var p := Pad(other.shape, n + 1);
    assert p == p[..n] + [p[n]];
    p[..n]
  }

  lemma ColumnSize(other: Flat, n: nat)
    requires IsColumn(other) && |other.shape| <= n + 1 && ValidFlat(other)
    ensures |other.data| == Size(ColumnLead(other, n))
  {
    PadSize(other.shape, n + 1 - |other.shape|);
    SizeSnoc(ColumnLead(other, n), 1);
  }

  /** Multiplying by a column stretches and scales whole rows, whatever their length. */
  lemma MultiplyRows(lead: seq<nat>, m: Matrix, other: Flat)
    requires Valid(m) && |m.rows| == Size(lead) && ValidFlat(other) && IsColumn(other) && |other.shape| <= |lead| + 1
    ensures var f := ColumnLead(other, |lead|);
            var s := Broadcast(lead, f);
            && |other.data| == Size(f)
            && MultiplyFlat(FromRows(lead, m), other) ==
               if s.None? then None
               else Some(FromRows(s.value, ScaleRows(GatherRows(m, Stretch(lead, s.value)), Factors(other.data, f, s.value))))
  {
    hide Size, FromRows, Broadcast, UnitAt, ScaleRows, GatherRows, Pad;
    var f, t := ColumnLead(other, |lead|), FromRows(lead, m);
    ColumnSize(other, |lead|);
    var s := Broadcast(lead, f);
    BroadcastSnoc(lead, m.cols, f, 1);
    NoPad(t.shape);
    if s.Some? {
      var g := ScaleRows(GatherRows(m, Stretch(lead, s.value)), Factors(other.data, f, s.value));
      var p := MultiplyFlat(t, other).value;
      assert (if m.cols == 1 then 1 else m.cols) == m.cols;
      SizeSnoc(s.value, m.cols);
      forall r: nat, c: nat | r < |g.rows| && c < g.cols
        ensures Holds(p.data, r, g.cols, c, g)
      {
        MultipliedAt(lead, m, other, f, s.value, p, g, r, c);
      }
      IsFromRows(p, s.value, g);
    }
  }

  lemma NoPad(shape: seq<nat>)
    ensures Pad(shape, |shape|) == shape
  {
  }

  lemma MultipliedAt(lead: seq<nat>, m: Matrix, other: Flat, f: seq<nat>, s: seq<nat>, p: Flat, g: Matrix, r: nat, c: nat)
    requires Valid(m) && |m.rows| == Size(lead) && ValidFlat(other) && |other.shape| <= |lead| + 1 && |f| == |lead|
    requires Pad(other.shape, |lead| + 1) == f + [1] && Pad(lead + [m.cols], |lead| + 1) == lead + [m.cols]
    requires Paired(lead, s) && Paired(f, s) && |other.data| == Size(f)
    requires Broadcast(lead + [m.cols], f + [1]) == Some(s + [m.cols]) && MultiplyFlat(FromRows(lead, m), other) == Some(p)
    requires g == ScaleRows(GatherRows(m, Stretch(lead, s)), Factors(other.data, f, s))
    requires r < Size(s) && c < m.cols
    ensures Holds(p.data, r, m.cols, c, g)
  {
    hide *;
    SourcesAt(lead, f, s, m.cols, r, c);
    var t, i := FromRows(lead, m), r * m.cols + c;
    ProductAt(t, other, lead + [m.cols], f + [1], s + [m.cols], i);
    ElementOf(lead, m, UnitAt(lead, s, r), c);
    ScaledElement(m, Stretch(lead, s), Factors(other.data, f, s), r, c);
    HeldAt(p.data, r, m.cols, c, g);
  }

  lemma HeldAt(data: seq<real>, r: nat, n: nat, c: nat, m: Matrix)
    requires Valid(m) && r < |m.rows| && c < n == m.cols && r * n + c < |data| && data[r * n + c] == m.rows[r][c]
    ensures Holds(data, r, n, c, m)
  {
  }

  /** Where an element of the result comes from in both operands. */
  lemma SourcesAt(lead: seq<nat>, f: seq<nat>, s: seq<nat>, cols: nat, r: nat, c: nat)
    requires Paired(lead, s) && Paired(f, s) && r < Size(s) && c < cols
    ensures Paired(lead + [cols], s + [cols]) && Paired(f + [1], s + [cols]) && 0 <= r * cols + c < Size(s + [cols])
    ensures UnitAt(lead + [cols], s + [cols], r * cols + c) == UnitAt(lead, s, r) * cols + c
    ensures UnitAt(f + [1], s + [cols], r * cols + c) == UnitAt(f, s, r)
  {
    hide Size, UnitAt;
    UnitAtSnoc(lead, cols, s, cols, r, c);
    UnitAtSnoc(f, 1, s, cols, r, c);
  }

  lemma ProductAt(t: Flat, other: Flat, x: seq<nat>, y: seq<nat>, s: seq<nat>, i: nat)
    requires ValidFlat(t) && ValidFlat(other) && |other.shape| <= |t.shape| && x == t.shape == Pad(t.shape, |t.shape|)
    requires y == Pad(other.shape, |t.shape|) && Broadcast(x, y) == Some(s) && i < Size(s)
    ensures Size(x) == |t.data| && Size(y) == |other.data| && MultiplyFlat(t, other).Some?
    ensures var p := MultiplyFlat(t, other).value;
            p.shape == s && |p.data| == Size(s) && p.data[i] == TimesReal(t.data[UnitAt(x, s, i)], other.data[UnitAt(y, s, i)])
  {
    hide Size, Broadcast, UnitAt, TimesReal;
    PadSize(other.shape, |t.shape| - |other.shape|);
  }

  lemma ScaledElement(m: Matrix, ix: seq<nat>, ks: seq<real>, r: nat, c: nat)
    requires Valid(m) && Indices(ix, |m.rows|) && |ks| == |ix| && r < |ix| && c < m.cols
    ensures var g := ScaleRows(GatherRows(m, ix), ks);
            r < |g.rows| && c < |g.rows[r]| && g.rows[r][c] == TimesReal(m.rows[ix[r]][c], ks[r])
  {
  }

  // ---- Value heads ----

  /** Reordering the first axis of a matrix gathers rows. */
  lemma ReorderFirst(m: Matrix, kHeads: nat, vPerK: nat, headDim: nat)
    requires Valid(m) && |m.rows| == kHeads * vPerK * headDim
    ensures Size([|m.rows|]) == |m.rows| && Permutes([kHeads, vPerK, headDim], KV_SWAP)
    ensures var ix := PermutedRows([kHeads, vPerK, headDim], KV_SWAP);
            && Indices(ix, |m.rows|) && |ix| == |m.rows|
            && ReorderFlat(FromRows([|m.rows|], m), 0, kHeads, vPerK, headDim) == Some(FromRows([|m.rows|], GatherRows(m, ix)))
  {
    SizeOfOne(|m.rows|);
    SwappedSize(kHeads, vPerK, headDim);
    hide Size, FromRows, PermuteFlat, Source, IsPermutation, Axes;
    var heads, n := [kHeads, vPerK, headDim], |m.rows|;
    var ix := PermutedRows(heads, KV_SWAP);
    var t := FromRows([n], m);
    assert t.shape[..0] + heads + t.shape[1..] == heads + [m.cols];
    ReshapeRows([n], m, heads);
    assert Exchange(4, 0) == Over(KV_SWAP);
    PermuteRows(heads, m, KV_SWAP);
    ReshapeRows([vPerK, kHeads, headDim], GatherRows(m, ix), [n]);
  }

  /** Reordering the last axis of a matrix gathers columns: in every row, the element of column `c` comes
      from where the exchange of the four axes takes it. */
  lemma ReorderLast(m: Matrix, kHeads: nat, vPerK: nat, headDim: nat)
    requires Valid(m) && m.cols == kHeads * vPerK * headDim
    ensures Size([|m.rows|]) == |m.rows| && Permutes([kHeads, vPerK, headDim], KV_SWAP)
    ensures Permutes([|m.rows|, kHeads, vPerK, headDim], [0, 2, 1, 3])
    ensures var ix := PermutedRows([kHeads, vPerK, headDim], KV_SWAP);
            var four := Flat([|m.rows|, kHeads, vPerK, headDim], FromRows([|m.rows|], m).data);
            && Indices(ix, m.cols) && |ix| == m.cols && ValidFlat(four)
            && PermuteFlat(four, [0, 2, 1, 3]).data == FromRows([|m.rows|], GatherCols(m, ix)).data
  {
    SizeOfOne(|m.rows|);
    SwappedSize(kHeads, vPerK, headDim);
    UnderSwap();
    hide Size, FromRows, PermuteFlat, Under, IsPermutation, Axes;
    var heads := [kHeads, vPerK, headDim];
    assert [|m.rows|] + heads == [|m.rows|, kHeads, vPerK, headDim];
    PermuteCols(m, heads, KV_SWAP);
  }

  /** Permuting axes that the columns are cut into moves whole columns. */
  lemma PermuteCols(m: Matrix, shape: seq<nat>, p: seq<nat>)
    requires Valid(m) && Size([|m.rows|]) == |m.rows| && Permutes(shape, p) && m.cols == Size(shape) == Size(Axes(shape, p))
    ensures var n, ix := |m.rows|, PermutedRows(shape, p);
            var cut := Flat([n] + shape, FromRows([n], m).data);
            && Permutes([n] + shape, Under(p)) && ValidFlat(cut)
            && PermuteFlat(cut, Under(p)).data == FromRows([n], GatherCols(m, ix)).data
  {
    hide *;
    var n, ix := |m.rows|, PermutedRows(shape, p);
    CutStorage(m, shape, p);
    var s := PermuteFlat(Flat([n] + shape, FromRows([n], m).data), Under(p));
    var g := GatherCols(m, ix);
    forall r: nat, c: nat | r < |g.rows| && c < g.cols
      ensures Holds(s.data, r, g.cols, c, g)
    {
      ColumnMoves(m, shape, p, s, r, c);
    }
    IsFromRows(Flat([n] + [g.cols], s.data), [n], g);
  }

  lemma CutStorage(m: Matrix, shape: seq<nat>, p: seq<nat>)
    requires Valid(m) && Size([|m.rows|]) == |m.rows| && Permutes(shape, p) && m.cols == Size(shape) == Size(Axes(shape, p))
    ensures Permutes([|m.rows|] + shape, Under(p)) && Indices(PermutedRows(shape, p), m.cols)
    ensures |PermutedRows(shape, p)| == m.cols
    ensures var cut := Flat([|m.rows|] + shape, FromRows([|m.rows|], m).data);
            ValidFlat(cut) && |PermuteFlat(cut, Under(p)).data| == |m.rows| * m.cols
  {
    UnderPermutes(shape, p, |m.rows|);
    SizeCons(|m.rows|, shape);
    SizeCons(|m.rows|, Axes(shape, p));
    hide Size, FromRows, Source, Under, IsPermutation, Axes;
  }

  lemma ColumnMoves(m: Matrix, shape: seq<nat>, p: seq<nat>, s: Flat, r: nat, c: nat)
    requires Valid(m) && Size([|m.rows|]) == |m.rows| && Permutes(shape, p) && m.cols == Size(shape) == Size(Axes(shape, p))
    requires var cut := Flat([|m.rows|] + shape, FromRows([|m.rows|], m).data);
             Permutes(cut.shape, Under(p)) && ValidFlat(cut) && s == PermuteFlat(cut, Under(p))
    requires r < |m.rows| && c < m.cols
    ensures Holds(s.data, r, m.cols, c, GatherCols(m, PermutedRows(shape, p)))
  {
    hide Size, FromRows, Source, Under, IsPermutation, Axes;
    PermuteUnder(shape, p, |m.rows|, r, c);
    ElementOf([|m.rows|], m, r, Source(shape, p, c));
  }

  lemma UnderSwap()
    ensures Under(KV_SWAP) == [0, 2, 1, 3]
  {
  }

  lemma SizeCons(n: nat, shape: seq<nat>)
    ensures Size([n] + shape) == n * Size(shape)
  {
    assert ([n] + shape)[1..] == shape;
  }

  /** The same through the generic reordering of a tensor. */
  lemma ReorderSecond(m: Matrix, kHeads: nat, vPerK: nat, headDim: nat)
    requires Valid(m) && m.cols == kHeads * vPerK * headDim
    ensures Size([|m.rows|]) == |m.rows| && Permutes([kHeads, vPerK, headDim], KV_SWAP)
    ensures var ix := PermutedRows([kHeads, vPerK, headDim], KV_SWAP);
            && Indices(ix, m.cols) && |ix| == m.cols
            && ReorderFlat(FromRows([|m.rows|], m), 1, kHeads, vPerK, headDim) == Some(FromRows([|m.rows|], GatherCols(m, ix)))
  {
    ReorderLast(m, kHeads, vPerK, headDim);
    FourSize(|m.rows|, kHeads, vPerK, headDim);
    hide Size, FromRows, PermuteFlat, IsPermutation, Axes;
    var n := |m.rows|;
    var t := FromRows([n], m);
    assert t.shape[..1] + [kHeads, vPerK, headDim] + t.shape[2..] == [n, kHeads, vPerK, headDim];
    assert Exchange(4, 1) == [0, 2, 1, 3];
  }

  lemma FourSize(n: nat, kHeads: nat, vPerK: nat, headDim: nat)
    ensures Size([n, kHeads, vPerK, headDim]) == n * (kHeads * vPerK * headDim)
  {
    SwappedSize(kHeads, vPerK, headDim);
    SizeCons(n, [kHeads, vPerK, headDim]);
    assert [n] + [kHeads, vPerK, headDim] == [n, kHeads, vPerK, headDim];
  }
}
