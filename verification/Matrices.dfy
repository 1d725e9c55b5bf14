/** Real matrices and the operations a tensor library offers on them, as far as
    engine/convert_lora_to_gguf.py uses them on the factors of a weight. */
module Matrices {

  /** Rows of equal length; the width is kept so that a matrix without rows has one. */
  datatype Matrix = Matrix(cols: nat, rows: seq<seq<real>>)

  ghost predicate Valid(m: Matrix) {
    forall i :: 0 <= i < |m.rows| ==> |m.rows[i]| == m.cols
  }

  ghost predicate Indices(ix: seq<nat>, n: nat) {
    forall i :: 0 <= i < |ix| ==> ix[i] < n
  }

  function Pick(row: seq<real>, ix: seq<nat>): (r: seq<real>)
    requires forall i :: 0 <= i < |ix| ==> ix[i] < |row|
    ensures |r| == |ix| && forall i :: 0 <= i < |ix| ==> r[i] == row[ix[i]]
  {
    seq(|ix|, i requires 0 <= i < |ix| => row[ix[i]])
  }

  /** Row `i` of the result is row `ix[i]` of `m`. */
  function GatherRows(m: Matrix, ix: seq<nat>): (g: Matrix)
    requires Valid(m) && Indices(ix, |m.rows|)
    ensures Valid(g) && g.cols == m.cols && |g.rows| == |ix|
    ensures forall i :: 0 <= i < |ix| ==> g.rows[i] == m.rows[ix[i]]
  {
    Matrix(m.cols, seq(|ix|, i requires 0 <= i < |ix| => m.rows[ix[i]]))
  }

  /** Column `j` of the result is column `ix[j]` of `m`. */
  function GatherCols(m: Matrix, ix: seq<nat>): (g: Matrix)
    requires Valid(m) && Indices(ix, m.cols)
    ensures Valid(g) && g.cols == |ix| && |g.rows| == |m.rows|
    ensures forall i, j :: 0 <= i < |m.rows| && 0 <= j < |ix| ==> g.rows[i][j] == m.rows[i][ix[j]]
  {
    Matrix(|ix|, seq(|m.rows|, i requires 0 <= i < |m.rows| => Pick(m.rows[i], ix)))
  }

  function Column(m: Matrix, j: nat): (c: seq<real>)
    requires Valid(m) && j < m.cols
    ensures |c| == |m.rows| && forall i :: 0 <= i < |c| ==> c[i] == m.rows[i][j]
  {
    seq(|m.rows|, i requires 0 <= i < |m.rows| => m.rows[i][j])
  }

  function Transpose(m: Matrix): (t: Matrix)
    requires Valid(m)
    ensures Valid(t) && t.cols == |m.rows| && |t.rows| == m.cols
    ensures forall i, j :: 0 <= i < m.cols && 0 <= j < |m.rows| ==> t.rows[i][j] == m.rows[j][i]
  {
    Matrix(|m.rows|, seq(m.cols, j requires 0 <= j < m.cols => Column(m, j)))
  }

  function Scale(row: seq<real>, k: real): (r: seq<real>)
    ensures |r| == |row| && forall i :: 0 <= i < |row| ==> r[i] == row[i] * k
  {
    seq(|row|, i requires 0 <= i < |row| => row[i] * k)
  }

  /** Multiplication by a column of scalars, one for each row. */
  function ScaleRows(m: Matrix, ks: seq<real>): (s: Matrix)
    requires Valid(m) && |ks| == |m.rows|
    ensures Valid(s) && s.cols == m.cols && |s.rows| == |m.rows|
    ensures forall i :: 0 <= i < |ks| ==> s.rows[i] == Scale(m.rows[i], ks[i])
  {
    Matrix(m.cols, seq(|m.rows|, i requires 0 <= i < |m.rows| => Scale(m.rows[i], ks[i])))
  }

  function Stack(m: Matrix, n: Matrix): (s: Matrix)
    requires Valid(m) && Valid(n) && m.cols == n.cols
    ensures Valid(s) && s.cols == m.cols && s.rows == m.rows + n.rows
  {
    Matrix(m.cols, m.rows + n.rows)
  }

  // ---- The product ----

  /** Sum of `b[t] * a.rows[t][j]` over `t < k`. */
  function Dot(b: seq<real>, a: Matrix, j: nat, k: nat): real
    requires Valid(a) && k <= |b| && k <= |a.rows| && j < a.cols
  {
    if k == 0 then 0.0 else Dot(b, a, j, k - 1) + b[k - 1] * a.rows[k - 1][j]
  }

  function ProductRow(b: seq<real>, a: Matrix): (r: seq<real>)
    requires Valid(a) && |b| == |a.rows|
    ensures |r| == a.cols && forall j :: 0 <= j < a.cols ==> r[j] == Dot(b, a, j, |b|)
  {
    seq(a.cols, j requires 0 <= j < a.cols => Dot(b, a, j, |b|))
  }

  /** The dense weight `B @ A`. */
  function Dense(a: Matrix, b: Matrix): (d: Matrix)
    requires Valid(a) && Valid(b) && b.cols == |a.rows|
    ensures Valid(d) && d.cols == a.cols && |d.rows| == |b.rows|
    ensures forall i :: 0 <= i < |b.rows| ==> d.rows[i] == ProductRow(b.rows[i], a)
  {
    Matrix(a.cols, seq(|b.rows|, i requires 0 <= i < |b.rows| => ProductRow(b.rows[i], a)))
  }

  lemma SameMatrix(m: Matrix, n: Matrix)
    requires Valid(m) && Valid(n) && m.cols == n.cols && |m.rows| == |n.rows|
    requires forall i, j :: 0 <= i < |m.rows| && 0 <= j < m.cols ==> m.rows[i][j] == n.rows[i][j]
    ensures m == n
  {
    forall i | 0 <= i < |m.rows|
      ensures m.rows[i] == n.rows[i]
    {
    }
  }

  // ---- Each operation on one factor is the operation on the product ----

  lemma DenseGatherRows(a: Matrix, b: Matrix, ix: seq<nat>)
    requires Valid(a) && Valid(b) && b.cols == |a.rows| && Indices(ix, |b.rows|)
    ensures Dense(a, GatherRows(b, ix)) == GatherRows(Dense(a, b), ix)
  {
  }

  lemma {:induction false} DotGatherCols(b: seq<real>, a: Matrix, ix: seq<nat>, j: nat, k: nat)
    requires Valid(a) && Indices(ix, a.cols) && j < |ix| && k <= |b| && k <= |a.rows|
    ensures Dot(b, GatherCols(a, ix), j, k) == Dot(b, a, ix[j], k)
  {
    if k > 0 {
      DotGatherCols(b, a, ix, j, k - 1);
    }
  }

  lemma DenseGatherCols(a: Matrix, b: Matrix, ix: seq<nat>)
    requires Valid(a) && Valid(b) && b.cols == |a.rows| && Indices(ix, a.cols)
    ensures Dense(GatherCols(a, ix), b) == GatherCols(Dense(a, b), ix)
  {
    var m, n := Dense(GatherCols(a, ix), b), GatherCols(Dense(a, b), ix);
    forall i, j | 0 <= i < |m.rows| && 0 <= j < m.cols
      ensures m.rows[i][j] == n.rows[i][j]
    {
      DotGatherCols(b.rows[i], a, ix, j, b.cols);
    }
    SameMatrix(m, n);
  }

  lemma {:induction false} DotTranspose(a: Matrix, b: Matrix, i: nat, j: nat, k: nat)
    requires Valid(a) && Valid(b) && b.cols == |a.rows| && i < |b.rows| && j < a.cols && k <= b.cols
    ensures Dot(b.rows[i], a, j, k) == Dot(Transpose(a).rows[j], Transpose(b), i, k)
  {
    if k > 0 {
      DotTranspose(a, b, i, j, k - 1);
    }
  }

  /** Swapping and transposing the factors transposes the product. */
  lemma DenseTranspose(a: Matrix, b: Matrix)
    requires Valid(a) && Valid(b) && b.cols == |a.rows|
    ensures Dense(Transpose(b), Transpose(a)) == Transpose(Dense(a, b))
  {
    var m, n := Dense(Transpose(b), Transpose(a)), Transpose(Dense(a, b));
    forall j, i | 0 <= j < |m.rows| && 0 <= i < m.cols
      ensures m.rows[j][i] == n.rows[j][i]
    {
      DotTranspose(a, b, i, j, b.cols);
    }
    SameMatrix(m, n);
  }

  lemma {:induction false} DotScale(b: seq<real>, a: Matrix, x: real, j: nat, k: nat)
    requires Valid(a) && j < a.cols && k <= |b| && k <= |a.rows|
    ensures Dot(Scale(b, x), a, j, k) == Dot(b, a, j, k) * x
  {
    if k > 0 {
      DotScale(b, a, x, j, k - 1);
    }
  }

  lemma DenseStack(a: Matrix, b: Matrix, c: Matrix)
    requires Valid(a) && Valid(b) && Valid(c) && b.cols == c.cols == |a.rows|
    ensures Dense(a, Stack(b, c)) == Stack(Dense(a, b), Dense(a, c))
  {
    assert forall i :: 0 <= i < |c.rows| ==> Stack(b, c).rows[|b.rows| + i] == c.rows[i];
  }

  // ---- Products with a matrix of their own for every row ----

  /** Block `u` of the matrices of `r` rows that are stacked in `a`. */
  function Block(a: Matrix, r: nat, u: nat): (m: Matrix)
    requires Valid(a) && u * r + r <= |a.rows|
    ensures Valid(m) && m.cols == a.cols && |m.rows| == r
  {
    Matrix(a.cols, a.rows[u * r..u * r + r])
  }

  ghost predicate HasBlock(a: Matrix, r: nat, u: nat) {
    u * r + r <= |a.rows|
  }

  /** `us` names a block of `a` for every row of `b`. */
  ghost predicate Blocks(a: Matrix, b: Matrix, us: seq<nat>) {
    Valid(a) && Valid(b) && |us| == |b.rows| && forall i :: 0 <= i < |us| ==> HasBlock(a, b.cols, us[i])
  }

  /** Each row of `b` times its block of `a`. */
  function BlockDense(a: Matrix, b: Matrix, us: seq<nat>): (d: Matrix)
    requires Blocks(a, b, us)
    ensures Valid(d) && d.cols == a.cols && |d.rows| == |b.rows|
    ensures forall i :: 0 <= i < |us| ==> HasBlock(a, b.cols, us[i]) && d.rows[i] == ProductRow(b.rows[i], Block(a, b.cols, us[i]))
  {
    Matrix(a.cols, seq(|b.rows|, i requires 0 <= i < |b.rows| => assert HasBlock(a, b.cols, us[i]); ProductRow(b.rows[i], Block(a, b.cols, us[i]))))
  }

  /** The same rows with the same blocks have the same product. */
  lemma SameBlocks(a: Matrix, b: Matrix, us: seq<nat>, a': Matrix, us': seq<nat>)
    requires Blocks(a, b, us) && Blocks(a', b, us') && a.cols == a'.cols
    requires forall i :: 0 <= i < |us| ==>
               HasBlock(a, b.cols, us[i]) && HasBlock(a', b.cols, us'[i]) && Block(a, b.cols, us[i]) == Block(a', b.cols, us'[i])
    ensures BlockDense(a, b, us) == BlockDense(a', b, us')
  {
    hide Block;
    assert BlockDense(a, b, us).rows == BlockDense(a', b, us').rows;
  }

  function PickNats(us: seq<nat>, ix: seq<nat>): (r: seq<nat>)
    requires Indices(ix, |us|)
    ensures |r| == |ix| && forall i :: 0 <= i < |ix| ==> r[i] == us[ix[i]]
  {
    seq(|ix|, i requires 0 <= i < |ix| => us[ix[i]])
  }

  lemma BlockDenseRows(a: Matrix, b: Matrix, us: seq<nat>, ix: seq<nat>)
    requires Blocks(a, b, us) && Indices(ix, |b.rows|)
    ensures Blocks(a, GatherRows(b, ix), PickNats(us, ix))
    ensures BlockDense(a, GatherRows(b, ix), PickNats(us, ix)) == GatherRows(BlockDense(a, b, us), ix)
  {
    hide Block, ProductRow, HasBlock;
    assert Blocks(a, GatherRows(b, ix), PickNats(us, ix));
    assert BlockDense(a, GatherRows(b, ix), PickNats(us, ix)).rows == GatherRows(BlockDense(a, b, us), ix).rows;
  }

  lemma BlockCols(a: Matrix, r: nat, u: nat, ix: seq<nat>)
    requires Valid(a) && HasBlock(a, r, u) && Indices(ix, a.cols)
    ensures HasBlock(GatherCols(a, ix), r, u) && Block(GatherCols(a, ix), r, u) == GatherCols(Block(a, r, u), ix)
  {
    SameMatrix(Block(GatherCols(a, ix), r, u), GatherCols(Block(a, r, u), ix));
  }

  lemma RowTimesCols(b: seq<real>, a: Matrix, ix: seq<nat>)
    requires Valid(a) && |b| == |a.rows| && Indices(ix, a.cols)
    ensures ProductRow(b, GatherCols(a, ix)) == Pick(ProductRow(b, a), ix)
  {
    forall j | 0 <= j < |ix|
      ensures ProductRow(b, GatherCols(a, ix))[j] == ProductRow(b, a)[ix[j]]
    {
      DotGatherCols(b, a, ix, j, |b|);
    }
  }

  lemma BlockDenseCols(a: Matrix, b: Matrix, us: seq<nat>, ix: seq<nat>)
    requires Blocks(a, b, us) && Indices(ix, a.cols)
    ensures Blocks(GatherCols(a, ix), b, us)
    ensures BlockDense(GatherCols(a, ix), b, us) == GatherCols(BlockDense(a, b, us), ix)
  {
    hide Block, ProductRow;
    assert Blocks(GatherCols(a, ix), b, us);
    var m, n := BlockDense(GatherCols(a, ix), b, us), GatherCols(BlockDense(a, b, us), ix);
    forall i | 0 <= i < |m.rows|
      ensures m.rows[i] == n.rows[i]
    {
      BlockCols(a, b.cols, us[i], ix);
      RowTimesCols(b.rows[i], Block(a, b.cols, us[i]), ix);
    }
  }

  lemma RowTimesScaled(b: seq<real>, a: Matrix, k: real)
    requires Valid(a) && |b| == |a.rows|
    ensures ProductRow(Scale(b, k), a) == Scale(ProductRow(b, a), k)
  {
    forall j | 0 <= j < a.cols
      ensures ProductRow(Scale(b, k), a)[j] == Scale(ProductRow(b, a), k)[j]
    {
      DotScale(b, a, k, j, |b|);
    }
  }

  lemma BlockDenseScaled(a: Matrix, b: Matrix, us: seq<nat>, ks: seq<real>)
    requires Blocks(a, b, us) && |ks| == |b.rows|
    ensures Blocks(a, ScaleRows(b, ks), us)
    ensures BlockDense(a, ScaleRows(b, ks), us) == ScaleRows(BlockDense(a, b, us), ks)
  {
    hide Block, ProductRow, Scale;
    var m, n := BlockDense(a, ScaleRows(b, ks), us), ScaleRows(BlockDense(a, b, us), ks);
    forall i | 0 <= i < |m.rows|
      ensures m.rows[i] == n.rows[i]
    {
      RowTimesScaled(b.rows[i], Block(a, b.cols, us[i]), ks[i]);
    }
  }

  /** One block for all rows: an ordinary product. */
  lemma OneBlock(a: Matrix, b: Matrix, us: seq<nat>)
    requires Blocks(a, b, us) && |a.rows| == b.cols && forall i :: 0 <= i < |us| ==> us[i] == 0
    ensures BlockDense(a, b, us) == Dense(a, b)
  {
    hide ProductRow;
    assert Block(a, b.cols, 0).rows == a.rows;
    assert BlockDense(a, b, us).rows == Dense(a, b).rows;
  }
}
