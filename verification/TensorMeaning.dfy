/** What the operations on flat tensors mean, element by element (engine/convert_lora_to_gguf.py uses them
    through PyTorch). Axes may be counted from either end: `d % n` is the axis counted from the front. */
module TensorMeaning {
  import opened Common
  import opened Matrices
  import opened Shapes
  import opened UnitAxes
  import opened TensorOps

  /** The element at a multi-index. */
  function Elem(t: Flat, idx: seq<nat>): real
    requires ValidFlat(t) && InShape(t.shape, idx)
  {
    FlattenBound(t.shape, idx);
    t.data[Flatten(t.shape, idx)]
  }

  // ---- Axis numbers ----

  lemma FrontIsModulo(d: int, n: nat)
    ensures InRange(d, n) <==> 0 <= d + n < 2 * n
    ensures InRange(d, n) ==> n > 0 && FromFront(d, n) == d % n
  {
  }

  /** Every axis is named exactly once, from either end. */
  predicate NamesAxes(dims: seq<int>, n: nat) {
    && |dims| == n && (forall i :: 0 <= i < n ==> 0 <= dims[i] + n < 2 * n)
    && forall i, j :: 0 <= i < j < n ==> dims[i] % n != dims[j] % n
  }

  function Members(p: seq<nat>): set<nat> {
    set a | a in p
  }

  function Initial(n: nat): set<nat> {
    set a | a in UpTo(n)
  }

  lemma {:induction false} InitialSize(n: nat)
    ensures |Initial(n)| == n
  {
    if n > 0 {
      InitialSize(n - 1);
      assert UpTo(n) == UpTo(n - 1) + [n - 1];
      assert Initial(n) == Initial(n - 1) + {n - 1};
    }
  }

  lemma {:induction false} MembersSize(p: seq<nat>)
    requires Distinct(p)
    ensures |Members(p)| == |p|
  {
    if p == [] {
      assert Members(p) == {};
    } else {
      var q, x := p[..|p| - 1], p[|p| - 1];
      MembersSize(q);
      assert p == q + [x];
      assert Members(p) == Members(q) + {x} && x !in Members(q);
    }
  }

  lemma FullSubset(a: set<nat>, b: set<nat>)
    requires a <= b && |a| == |b|
    ensures a == b
  {
    assert b == a + (b - a);
  }

  /** As many different axes as there are: all of them. */
  lemma DistinctCovers(p: seq<nat>)
    requires Distinct(p) && Below(p, |p|)
    ensures IsPermutation(p)
  {
    MembersSize(p);
    InitialSize(|p|);
    assert forall a :: a in p ==> UpTo(|p|)[a] == a;
    FullSubset(Members(p), Initial(|p|));
    forall a: nat | a < |p|
      ensures a in p
    {
      assert UpTo(|p|)[a] == a;
      assert a in Initial(|p|);
    }
  }

  lemma NormalMeans(dims: seq<int>, n: nat)
    ensures Normal(dims, n).Some? <==> NamesAxes(dims, n)
    ensures Normal(dims, n).Some? ==> |dims| == n && Below(Normal(dims, n).value, n)
    ensures Normal(dims, n).Some? ==> forall i :: 0 <= i < n ==> Normal(dims, n).value[i] == dims[i] % n
  {
    hide Distinct, Covers;
    forall i | 0 <= i < |dims|
      ensures InRange(dims[i], n) <==> 0 <= dims[i] + n < 2 * n
      ensures InRange(dims[i], n) ==> n > 0 && FromFront(dims[i], n) == dims[i] % n
    {
      FrontIsModulo(dims[i], n);
    }
    if |dims| == n && forall i :: 0 <= i < n ==> InRange(dims[i], n) {
      var p := seq(n, i requires 0 <= i < n && InRange(dims[i], n) => FromFront(dims[i], n));
      NamedIsPermutation(p, dims, n);
    }
  }

  lemma NamedIsPermutation(p: seq<nat>, dims: seq<int>, n: nat)
    requires |p| == |dims| == n && forall i :: 0 <= i < n ==> p[i] < n && p[i] == dims[i] % n
    ensures IsPermutation(p) <==> forall i, j :: 0 <= i < j < n ==> dims[i] % n != dims[j] % n
  {
    if forall i, j :: 0 <= i < j < n ==> dims[i] % n != dims[j] % n {
      DistinctCovers(p);
    }
  }

  // ---- permute, transpose ----

  /** The entries of a multi-index in the order the axes are named. */
  function Named(idx: seq<nat>, dims: seq<int>): (r: seq<nat>)
    requires |dims| == |idx|
    ensures |r| == |dims| && forall j :: 0 <= j < |dims| ==> r[j] == idx[dims[j] % |idx|]
  {
    seq(|dims|, j requires 0 <= j < |dims| => idx[dims[j] % |idx|])
  }

  lemma NamedIsAxes(idx: seq<nat>, dims: seq<int>, p: seq<nat>)
    requires |dims| == |idx| == |p| && Below(p, |idx|) && forall i :: 0 <= i < |p| ==> p[i] == dims[i] % |p|
    ensures Axes(idx, p) == Named(idx, dims)
  {
  }

  lemma PermutedInShape(shape: seq<nat>, idx: seq<nat>, p: seq<nat>)
    requires InShape(shape, idx) && Below(p, |shape|)
    ensures InShape(Axes(shape, p), Axes(idx, p))
  {
  }

  /** Main result on `permute`: it works for axes that are each named once, from either end, gives every
      length and every element the place of its axis, and nothing else. */
  lemma PermuteMeans(t: Flat, dims: seq<int>)
    requires ValidFlat(t)
    ensures PermuteBy(t, dims).Some? <==> NamesAxes(dims, |t.shape|)
    ensures PermuteBy(t, dims).Some? ==>
              var r := PermuteBy(t, dims).value;
              && |dims| == |t.shape| && r.shape == Named(t.shape, dims)
              && forall idx :: InShape(t.shape, idx) ==> InShape(r.shape, Named(idx, dims)) && Elem(r, Named(idx, dims)) == Elem(t, idx)
  {
    hide Flatten, Size, Normal, NamesAxes, IsPermutation, Source;
    NormalMeans(dims, |t.shape|);
    if PermuteBy(t, dims).Some? {
      var r, p := PermuteBy(t, dims).value, Normal(dims, |t.shape|).value;
      NamedIsAxes(t.shape, dims, p);
      forall idx | InShape(t.shape, idx)
        ensures InShape(r.shape, Named(idx, dims)) && Elem(r, Named(idx, dims)) == Elem(t, idx)
      {
        NamedIsAxes(idx, dims, p);
        PermutedInShape(t.shape, idx, p);
        PermuteMeaning(t.shape, p, idx);
      }
    }
  }

  /** Two entries exchanged. */
  function Exchanged(s: seq<nat>, i: nat, j: nat): (r: seq<nat>)
    requires i < |s| && j < |s|
    ensures |r| == |s|
  {
    s[i := s[j]][j := s[i]]
  }

  lemma SwapNames(n: nat, dim0: int, dim1: int)
    requires 0 <= dim0 + n < 2 * n && 0 <= dim1 + n < 2 * n
    ensures n > 0 && SwapDims(n, dim0, dim1).Some? && NamesAxes(SwapDims(n, dim0, dim1).value, n)
    ensures var dims := SwapDims(n, dim0, dim1).value; var i, j := dim0 % n, dim1 % n;
            && dims[i] == j && dims[j] == i && forall a :: 0 <= a < n ==> dims[a] % n == dims[a] && (a != i && a != j ==> dims[a] == a)
  {
    FrontIsModulo(dim0, n);
    FrontIsModulo(dim1, n);
    var dims := SwapDims(n, dim0, dim1).value;
    forall a | 0 <= a < n
      ensures dims[a] % n == dims[a]
    {
      SmallModulo(dims[a], n);
    }
  }

  lemma SmallModulo(a: int, n: nat)
    requires 0 <= a < n
    ensures a % n == a
  {
  }

  lemma NamedIsExchanged(s: seq<nat>, dims: seq<int>, i: nat, j: nat)
    requires |dims| == |s| && i < |s| && j < |s| && dims[i] == j && dims[j] == i
    requires forall a :: 0 <= a < |s| ==> dims[a] % |s| == dims[a] && (a != i && a != j ==> dims[a] == a)
    ensures Named(s, dims) == Exchanged(s, i, j)
  {
  }

  /** Main result on `transpose`: for two axes in range, from either end, the two lengths are exchanged, and
      every element stands where its two coordinates are exchanged. */
  lemma SwapMeans(t: Flat, dim0: int, dim1: int)
    requires ValidFlat(t) && t.shape != []
    ensures var n := |t.shape|;
            && (ApplyDense(SwapAxes(dim0, dim1), t).Some? <==> 0 <= dim0 + n < 2 * n && 0 <= dim1 + n < 2 * n)
            && (ApplyDense(SwapAxes(dim0, dim1), t).Some? ==> IsExchange(t, ApplyDense(SwapAxes(dim0, dim1), t).value, dim0 % n, dim1 % n))
  {
    hide PermuteBy, SwapDims, Named, Exchanged;
    var n := |t.shape|;
    SwapDefined(n, dim0, dim1);
    if 0 <= dim0 + n < 2 * n && 0 <= dim1 + n < 2 * n {
      SwapNames(n, dim0, dim1);
      var dims := SwapDims(n, dim0, dim1).value;
      PermuteMeans(t, dims);
      NamedExchange(t, PermuteBy(t, dims).value, dims, dim0 % n, dim1 % n);
    }
  }

  lemma SwapDefined(n: nat, dim0: int, dim1: int)
    ensures SwapDims(n, dim0, dim1).Some? <==> 0 <= dim0 + n < 2 * n && 0 <= dim1 + n < 2 * n
  {
  }

  /** `r` is `t` with axes `i` and `j` exchanged. */
  ghost predicate IsExchange(t: Flat, r: Flat, i: nat, j: nat) {
    && ValidFlat(t) && ValidFlat(r) && i < |t.shape| && j < |t.shape| && r.shape == Exchanged(t.shape, i, j)
    && forall idx :: InShape(t.shape, idx) ==> InShape(r.shape, Exchanged(idx, i, j)) && Elem(r, Exchanged(idx, i, j)) == Elem(t, idx)
  }

  lemma NamedExchange(t: Flat, r: Flat, dims: seq<int>, i: nat, j: nat)
    requires ValidFlat(t) && ValidFlat(r) && |dims| == |t.shape| && i < |t.shape| && j < |t.shape| && dims[i] == j && dims[j] == i
    requires forall a :: 0 <= a < |t.shape| ==> dims[a] % |t.shape| == dims[a] && (a != i && a != j ==> dims[a] == a)
    requires r.shape == Named(t.shape, dims)
    requires forall idx :: InShape(t.shape, idx) ==> InShape(r.shape, Named(idx, dims)) && Elem(r, Named(idx, dims)) == Elem(t, idx)
    ensures IsExchange(t, r, i, j)
  {
    hide Elem;
    NamedIsExchanged(t.shape, dims, i, j);
    forall idx | InShape(t.shape, idx)
      ensures InShape(r.shape, Exchanged(idx, i, j)) && Elem(r, Exchanged(idx, i, j)) == Elem(t, idx)
    {
      NamedIsExchanged(idx, dims, i, j);
    }
  }

  // ---- Indexing ----

  function Clipped(i: int, n: nat): nat {
    if i < 0 then 0 else if i > n then n else i
  }

  /** A bound of a slice: missing, from the front, or from the back, and never outside the axis. */
  function Edge(b: Bound, n: nat, missing: nat): nat {
    match b
    case Open => missing
    case At(i) => Clipped(if i < 0 then n + i else i, n)
  }

  /** Where the index can be used, its `k`-th position, and whether it has one. */
  predicate Takes(ix: Index, n: nat) {
    match ix
    case Item(i) => 0 <= i + n < 2 * n
    case Range(_, _, step) => step > 0
  }

  function Nth(ix: Index, n: nat, k: nat): int
    requires Takes(ix, n)
  {
    match ix
    case Item(i) => i % n
    case Range(lo, _, step) => Edge(lo, n, 0) + k * step
  }

  predicate HasNth(ix: Index, n: nat, k: nat)
    requires Takes(ix, n)
  {
    match ix
    case Item(_) => k == 0
    case Range(_, hi, _) => Nth(ix, n, k) < Edge(hi, n, n)
  }

  lemma ClampIsEdge(b: Bound, n: nat, whole: nat)
    requires whole <= n
    ensures Clamp(b, n, whole) == Edge(b, n, whole)
  {
  }

  lemma PositionsMean(ix: Index, n: nat, k: nat)
    ensures Positions(ix, n).Some? <==> Takes(ix, n)
    ensures Takes(ix, n) ==> (k < |Positions(ix, n).value| <==> HasNth(ix, n, k))
    ensures Takes(ix, n) && HasNth(ix, n, k) ==> k < |Positions(ix, n).value| && Positions(ix, n).value[k] == Nth(ix, n, k)
  {
    hide Steps, Clamp, Edge;
    match ix
    case Item(i) => FrontIsModulo(i, n);
    case Range(lo, hi, step) =>
      ClampIsEdge(lo, n, 0);
      ClampIsEdge(hi, n, n);
      if step > 0 {
        StepsAre(Clamp(lo, n, 0), Clamp(hi, n, n), step, k);
      }
  }

  /** The entries of axes that are not indexed by a number. */
  function Remaining(ixs: seq<Index>, s: seq<nat>): seq<nat>
    requires |ixs| == |s|
  {
    if ixs == [] then [] else (if ixs[0].Item? then [] else [s[0]]) + Remaining(ixs[1..], s[1..])
  }

  lemma {:induction false} KeptIsRemaining(ixs: seq<Index>, picks: seq<seq<nat>>)
    requires |ixs| == |picks|
    ensures KeptShape(ixs, picks) == Remaining(ixs, Counts(picks))
  {
    if ixs != [] {
      KeptIsRemaining(ixs[1..], picks[1..]);
      assert Counts(picks)[1..] == Counts(picks[1..]);
    }
  }

  /** Axes indexed by a number have one position, so leaving them out moves nothing. */
  lemma {:induction false} RemainingFlatten(ixs: seq<Index>, shape: seq<nat>, idx: seq<nat>)
    requires |ixs| == |shape| && InShape(shape, idx) && forall a :: 0 <= a < |ixs| && ixs[a].Item? ==> shape[a] == 1
    ensures Size(Remaining(ixs, shape)) == Size(shape)
    ensures InShape(Remaining(ixs, shape), Remaining(ixs, idx))
    ensures Flatten(Remaining(ixs, shape), Remaining(ixs, idx)) == Flatten(shape, idx)
  {
    if ixs != [] {
      RemainingFlatten(ixs[1..], shape[1..], idx[1..]);
      var s, x := Remaining(ixs[1..], shape[1..]), Remaining(ixs[1..], idx[1..]);
      if ixs[0].Item? {
        assert [] + s == s && [] + x == x && idx[0] == 0;
      } else {
        assert ([shape[0]] + s)[1..] == s && ([idx[0]] + x)[1..] == x;
      }
    }
  }

  /** `ixs`, and full slices for the axes behind. */
  function IndexOf(ixs: seq<Index>, a: nat): Index {
    if a < |ixs| then ixs[a] else Range(Open, Open, 1)
  }

  predicate AllTake(ixs: seq<Index>, shape: seq<nat>) {
    |ixs| <= |shape| && forall a :: 0 <= a < |shape| ==> Takes(IndexOf(ixs, a), shape[a])
  }

  /** `ks` names a position along every axis, and `idx` are these positions. */
  predicate Leads(ixs: seq<Index>, shape: seq<nat>, ks: seq<nat>, idx: seq<nat>)
    requires AllTake(ixs, shape)
  {
    && |ks| == |idx| == |shape|
    && forall a :: 0 <= a < |shape| ==> HasNth(IndexOf(ixs, a), shape[a], ks[a]) && idx[a] == Nth(IndexOf(ixs, a), shape[a], ks[a])
  }

  lemma {:induction false} AllPositionsMean(ixs: seq<Index>, shape: seq<nat>)
    requires |ixs| == |shape|
    ensures AllPositions(ixs, shape).Some? <==> forall a :: 0 <= a < |shape| ==> Takes(ixs[a], shape[a])
  {
    hide Positions, Takes;
    if ixs != [] {
      PositionsMean(ixs[0], shape[0], 0);
      AllPositionsMean(ixs[1..], shape[1..]);
      assert forall a :: 1 <= a < |shape| ==> ixs[a] == ixs[1..][a - 1] && shape[a] == shape[1..][a - 1];
      assert forall a :: 0 <= a < |shape| - 1 ==> ixs[1..][a] == ixs[a + 1] && shape[1..][a] == shape[a + 1];
    }
  }

  /** Main result on indexing: it works exactly where every number is in reach and every step positive, and
      the element at places `ks` of the result, left out for numbers, is the element at the positions that
      the indices have there. */
  lemma IndexMeans(t: Flat, ixs: seq<Index>)
    requires ValidFlat(t)
    ensures IndexFlat(t, ixs).Some? <==> AllTake(ixs, t.shape)
    ensures IndexFlat(t, ixs).Some? ==>
              var r := IndexFlat(t, ixs).value;
              forall ks, idx :: Leads(ixs, t.shape, ks, idx) ==>
                var kept := Remaining(Padded(ixs, |t.shape|), ks);
                InShape(t.shape, idx) && InShape(r.shape, kept) && Elem(r, kept) == Elem(t, idx)
  {
    hide Flatten, Size, Takes, HasNth, Nth, AllPositions, Remaining, KeptShape, SelectFlat;
    if |ixs| <= |t.shape| {
      var all := Padded(ixs, |t.shape|);
      assert forall a :: 0 <= a < |all| ==> all[a] == IndexOf(ixs, a);
      AllPositionsMean(all, t.shape);
      if AllTake(ixs, t.shape) {
        forall ks, idx | Leads(ixs, t.shape, ks, idx)
          ensures var kept, r := Remaining(all, ks), IndexFlat(t, ixs).value;
                  InShape(t.shape, idx) && InShape(r.shape, kept) && Elem(r, kept) == Elem(t, idx)
        {
          IndexedElement(t, ixs, ks, idx);
        }
      }
    }
  }

  lemma PicksLead(all: seq<Index>, shape: seq<nat>, picks: seq<seq<nat>>, ks: seq<nat>, idx: seq<nat>)
    requires |all| == |shape| && AllPositions(all, shape) == Some(picks) && AllTake(all, shape) && Leads(all, shape, ks, idx)
    ensures InShape(Counts(picks), ks) && Chosen(picks, ks) == idx && InShape(shape, idx)
    ensures forall a :: 0 <= a < |all| && all[a].Item? ==> Counts(picks)[a] == 1
  {
    hide Positions, HasNth, Nth, AllPositions, Leads, AllTake;
    LeadsLength(all, shape, ks, idx);
    forall a | 0 <= a < |shape|
      ensures ks[a] < |picks[a]| && picks[a][ks[a]] == idx[a] && idx[a] < shape[a] && (all[a].Item? ==> |picks[a]| == 1)
    {
      PickLeads(all, shape, picks, ks, idx, a);
    }
  }

  lemma LeadsLength(all: seq<Index>, shape: seq<nat>, ks: seq<nat>, idx: seq<nat>)
    requires AllTake(all, shape) && Leads(all, shape, ks, idx)
    ensures |ks| == |idx| == |shape|
  {
  }

  lemma PickLeads(all: seq<Index>, shape: seq<nat>, picks: seq<seq<nat>>, ks: seq<nat>, idx: seq<nat>, a: nat)
    requires |all| == |shape| == |picks| && AllTake(all, shape) && Leads(all, shape, ks, idx) && a < |shape|
    requires Positions(all[a], shape[a]) == Some(picks[a])
    ensures |ks| == |idx| == |shape| && ks[a] < |picks[a]| && picks[a][ks[a]] == idx[a] && idx[a] < shape[a]
    ensures all[a].Item? ==> |picks[a]| == 1
  {
    hide Positions, HasNth, Nth, Takes;
    assert IndexOf(all, a) == all[a];
    PositionsMean(all[a], shape[a], ks[a]);
    if all[a].Item? {
      NumbersHaveOne(all[a], shape[a]);
    }
  }

  lemma NumbersHaveOne(ix: Index, n: nat)
    requires ix.Item? && Positions(ix, n).Some?
    ensures |Positions(ix, n).value| == 1
  {
  }

  /** Full slices written out change nothing. */
  lemma PaddedLeads(ixs: seq<Index>, shape: seq<nat>, ks: seq<nat>, idx: seq<nat>)
    requires AllTake(ixs, shape) && Leads(ixs, shape, ks, idx)
    ensures var all := Padded(ixs, |shape|); AllTake(all, shape) && Leads(all, shape, ks, idx)
  {
    hide Takes, HasNth, Nth;
    var all := Padded(ixs, |shape|);
    assert forall a :: 0 <= a < |shape| ==> IndexOf(all, a) == IndexOf(ixs, a);
  }

  lemma Selected(t: Flat, picks: seq<seq<nat>>, shape: seq<nat>, kept: seq<nat>, ks: seq<nat>)
    requires ValidFlat(t) && GoodPicks(t.shape, picks) && InShape(Counts(picks), ks) && InShape(shape, kept)
    requires Size(shape) == Size(Counts(picks)) && Flatten(shape, kept) == Flatten(Counts(picks), ks)
    ensures InShape(t.shape, Chosen(picks, ks)) && Elem(SelectFlat(t, picks, shape), kept) == Elem(t, Chosen(picks, ks))
  {
    hide Flatten, Size, SelectedRow;
    SelectMeaning(t.shape, picks, ks);
    FlattenBound(shape, kept);
  }

  lemma IndexedElement(t: Flat, ixs: seq<Index>, ks: seq<nat>, idx: seq<nat>)
    requires ValidFlat(t) && IndexFlat(t, ixs).Some? && AllTake(ixs, t.shape) && Leads(ixs, t.shape, ks, idx)
    ensures var kept, r := Remaining(Padded(ixs, |t.shape|), ks), IndexFlat(t, ixs).value;
            InShape(t.shape, idx) && InShape(r.shape, kept) && Elem(r, kept) == Elem(t, idx)
  {
    hide Flatten, Size, AllPositions, Remaining, KeptShape, SelectFlat, AllTake, Leads, Padded, Elem, Counts, Chosen;
    var all := Padded(ixs, |t.shape|);
    var picks := AllPositions(all, t.shape).value;
    PaddedLeads(ixs, t.shape, ks, idx);
    PicksLead(all, t.shape, picks, ks, idx);
    KeptIsRemaining(all, picks);
    RemainingFlatten(all, Counts(picks), ks);
    Selected(t, picks, KeptShape(all, picks), Remaining(all, ks), ks);
  }

  /** Along every axis exactly the first `counts[a]` places are taken. */
  ghost predicate CountsFor(ixs: seq<Index>, shape: seq<nat>, counts: seq<nat>)
    requires AllTake(ixs, shape)
  {
    |counts| == |shape| && forall a, k: nat :: 0 <= a < |shape| ==> (k < counts[a] <==> HasNth(IndexOf(ixs, a), shape[a], k))
  }

  /** The lengths of the result are the numbers of places, left out for numbers. */
  lemma IndexLengths(t: Flat, ixs: seq<Index>) returns (counts: seq<nat>)
    requires ValidFlat(t) && IndexFlat(t, ixs).Some?
    ensures AllTake(ixs, t.shape) && CountsFor(ixs, t.shape, counts)
    ensures IndexFlat(t, ixs).value.shape == Remaining(Padded(ixs, |t.shape|), counts)
  {
    hide Flatten, Size, Takes, HasNth, Nth, AllPositions, Remaining, KeptShape, Positions;
    IndexMeans(t, ixs);
    var all := Padded(ixs, |t.shape|);
    var picks := AllPositions(all, t.shape).value;
    counts := Counts(picks);
    KeptIsRemaining(all, picks);
    forall a, k: nat | 0 <= a < |t.shape|
      ensures k < counts[a] <==> HasNth(IndexOf(ixs, a), t.shape[a], k)
    {
      assert all[a] == IndexOf(ixs, a) && Positions(all[a], t.shape[a]) == Some(picks[a]);
      PositionsMean(all[a], t.shape[a], k);
    }
  }

  // ---- reshape ----

  /** Product of the given lengths. */
  function Known(shape: seq<int>): int {
    if shape == [] then 1 else (if shape[0] == -1 then 1 else shape[0]) * Known(shape[1..])
  }

  /** The lengths asked for, an open one free. */
  predicate Meets(shape: seq<int>, s: seq<nat>) {
    |s| == |shape| && forall i :: 0 <= i < |s| ==> shape[i] == -1 || shape[i] == s[i]
  }

  lemma {:induction false} KnownIsProduct(shape: seq<int>)
    ensures AllTogether(Replace(shape, 1)) == Known(shape)
  {
    if shape != [] {
      KnownIsProduct(shape[1..]);
      assert Replace(shape, 1)[1..] == Replace(shape[1..], 1);
    }
  }

  /** With one open length `f` and the rest known, there are `f` times as many elements as the rest. */
  lemma {:induction false} OpenSize(shape: seq<int>, s: seq<nat>, f: nat)
    requires |s| == |shape| && forall i :: 0 <= i < |s| ==> s[i] == if shape[i] == -1 then f else shape[i]
    ensures Wild(shape) == 0 ==> Size(s) == Known(shape)
    ensures Wild(shape) == 1 ==> Size(s) == f * Known(shape)
  {
    if shape != [] {
      OpenSize(shape[1..], s[1..], f);
      if shape[0] == -1 {
        assert Size(s) == f * Known(shape[1..]) || Wild(shape) != 1;
      } else {
        MulSwap(shape[0], f, Known(shape[1..]));
      }
    }
  }

  lemma MulSwap(x: int, y: int, z: int)
    ensures x * (y * z) == y * (x * z)
  {
  }

  lemma {:induction false} WildMeans(shape: seq<int>)
    ensures Wild(shape) == 0 <==> -1 !in shape
  {
    if shape != [] {
      WildMeans(shape[1..]);
      assert shape == [shape[0]] + shape[1..];
    }
  }

  /** Main result on `reshape`: the elements stay in order; the lengths are those asked for, an open one
      filled in so that the numbers of elements agree. */
  lemma ReshapeMeans(t: Flat, shape: seq<int>)
    requires ValidFlat(t) && ReshapeFlat(t, shape).Some?
    ensures var r := ReshapeFlat(t, shape).value;
            Wild(shape) <= 1 && r.data == t.data && Meets(shape, r.shape) && Size(r.shape) == Size(t.shape)
  {
    hide Size, AllTogether, Wild;
  }

  /** When it works: no length is negative but one that is open, and the known lengths divide, or are, the
      number of elements. */
  lemma ReshapeWorks(t: Flat, shape: seq<int>)
    requires ValidFlat(t)
    ensures ReshapeFlat(t, shape).Some? <==>
            && Wild(shape) <= 1 && (forall i :: 0 <= i < |shape| ==> shape[i] >= -1)
            && if Wild(shape) == 0 then Known(shape) == Size(t.shape) else Known(shape) > 0 && Size(t.shape) % Known(shape) == 0
  {
    hide Size, AllTogether, Wild, Known;
    KnownIsProduct(shape);
    WildMeans(shape);
    if Wild(shape) == 0 {
      if forall i :: 0 <= i < |shape| ==> shape[i] >= 0 {
        OpenSize(shape, Naturals(shape).value, 0);
      }
    } else if Wild(shape) == 1 {
      OpenWorks(shape, Size(t.shape));
    }
  }

  /** With one open length. */
  lemma OpenWorks(shape: seq<int>, total: nat)
    requires Wild(shape) == 1 && -1 in shape && AllTogether(Replace(shape, 1)) == Known(shape)
    ensures Resolve(shape, total).Some? && Size(Resolve(shape, total).value) == total <==>
            (forall i :: 0 <= i < |shape| ==> shape[i] >= -1) && Known(shape) > 0 && total % Known(shape) == 0
  {
    hide Size, AllTogether, Wild, Known;
    var known := Known(shape);
    if known != 0 && total % known == 0 {
      var s := Replace(shape, total / known);
      if i :| 0 <= i < |shape| && shape[i] < -1 {
        assert s[i] < 0;
      } else {
        KnownSign(shape);
        Quotient(total, known);
        OpenSize(shape, Naturals(s).value, total / known);
      }
    }
  }

  lemma Quotient(total: nat, known: nat)
    requires known > 0 && total % known == 0
    ensures total / known >= 0 && total / known * known == total
  {
  }

  lemma {:induction false} KnownSign(shape: seq<int>)
    requires forall i :: 0 <= i < |shape| ==> shape[i] >= -1
    ensures Known(shape) >= 0
  {
    if shape != [] {
      KnownSign(shape[1..]);
    }
  }

  // ---- split ----

  /** An axis of length `n` has a piece `k`. Pieces of one length fill the axis; the last may be shorter. */
  predicate HasPiece(cut: Cut, n: nat, k: nat) {
    match cut
    case Every(size) => if size > 0 then k == 0 || k * size < n else n == 0 && k == 0
    case Sizes(sizes) => k < |sizes| && Sum(sizes) == n
  }

  function PieceStart(cut: Cut, k: nat): nat {
    match cut
    case Every(size) => k * size
    case Sizes(sizes) => if k < |sizes| then Sum(sizes[..k]) else 0
  }

  function PieceLength(cut: Cut, n: nat, k: nat): int {
    match cut
    case Every(size) => if size < n - k * size then size else n - k * size
    case Sizes(sizes) => if k < |sizes| then sizes[k] else 0
  }

  lemma {:induction false} ChunkMeans(n: nat, size: nat, k: nat)
    requires size > 0
    ensures k < |Chunks(n, size)| <==> k == 0 || k * size < n
    ensures k < |Chunks(n, size)| ==>
              Sum(Chunks(n, size)[..k]) == k * size && Chunks(n, size)[k] == if size < n - k * size then size else n - k * size
    decreases n
  {
    var cs := Chunks(n, size);
    if n <= size {
      if k > 0 {
        MulMono(1, k, size);
      }
      assert cs[..0] == [];
    } else if k > 0 {
      var rest := Chunks(n - size, size);
      ChunkMeans(n - size, size, k - 1);
      assert k * size == size + (k - 1) * size;
      assert cs == [size] + rest && cs[1..] == rest;
      if k < |cs| {
        assert cs[..k] == [size] + rest[..k - 1];
        assert cs[..k][1..] == rest[..k - 1];
      }
    } else {
      assert cs[..0] == [];
    }
  }

  lemma PieceIsRange(cut: Cut, n: nat, k: nat)
    ensures PiecePositions(cut, n, k).Some? <==> HasPiece(cut, n, k)
    ensures HasPiece(cut, n, k) ==>
              var p, start := PiecePositions(cut, n, k).value, PieceStart(cut, k);
              |p| == PieceLength(cut, n, k) && forall i :: 0 <= i < |p| ==> p[i] == start + i
  {
    hide Steps, Sum, Chunks;
    if cut.Every? && cut.size > 0 {
      ChunkMeans(n, cut.size, k);
    }
    if cut.Every? && cut.size == 0 {
      NoSum();
      assert [0][..0] == [];
    }
    var sizes := PieceSizes(cut, n);
    if sizes.Some? && k < |sizes.value| {
      var start := Sum(sizes.value[..k]);
      ConsecutiveSteps(start, start + sizes.value[k]);
    }
  }

  lemma NoSum()
    ensures Sum([]) == 0
  {
  }

  /** Main result on `split`: piece `k` along axis `d` is the range of its length behind the pieces before
      it, whole along the other axes. */
  lemma PieceMeans(t: Flat, cut: Cut, d: nat, k: nat)
    requires ValidFlat(t) && d < |t.shape|
    ensures PieceFlat(t, cut, d, k).Some? <==> HasPiece(cut, t.shape[d], k)
    ensures PieceFlat(t, cut, d, k).Some? ==>
              var r := PieceFlat(t, cut, d, k).value;
              && PieceLength(cut, t.shape[d], k) >= 0 && r.shape == t.shape[d := PieceLength(cut, t.shape[d], k)]
              && forall idx :: InShape(r.shape, idx) ==>
                   var from := idx[d := PieceStart(cut, k) + idx[d]];
                   InShape(t.shape, from) && Elem(r, idx) == Elem(t, from)
  {
    hide PiecePositions, HasPiece, PieceStart, PieceLength, SelectFlat, Size, Elem;
    PieceIsRange(cut, t.shape[d], k);
    if PieceFlat(t, cut, d, k).Some? {
      var r, ix := PieceFlat(t, cut, d, k).value, PiecePositions(cut, t.shape[d], k).value;
      var picks := Everything(t.shape)[d := ix];
      PickShape(t.shape, d, ix);
      forall idx | InShape(r.shape, idx)
        ensures var from := idx[d := PieceStart(cut, k) + idx[d]];
                InShape(t.shape, from) && Elem(r, idx) == Elem(t, from)
      {
        PickedInPiece(t.shape, d, ix, idx);
        Selected(t, picks, Counts(picks), idx, idx);
      }
    }
  }

  lemma PickShape(shape: seq<nat>, d: nat, ix: seq<nat>)
    requires d < |shape| && Indices(ix, shape[d])
    ensures var picks := Everything(shape)[d := ix]; GoodPicks(shape, picks) && Counts(picks) == shape[d := |ix|]
  {
  }

  lemma PickedInPiece(shape: seq<nat>, d: nat, ix: seq<nat>, idx: seq<nat>)
    requires d < |shape| && Indices(ix, shape[d]) && InShape(shape[d := |ix|], idx)
    ensures var picks := Everything(shape)[d := ix];
            && GoodPicks(shape, picks) && Counts(picks) == shape[d := |ix|] && Chosen(picks, idx) == idx[d := ix[idx[d]]]
  {
  }

  // ---- Multiplication with broadcasting ----

  /** A position of the product, seen from a tensor with fewer or shorter axes. */
  function Behind(idx: seq<nat>, shape: seq<nat>): (r: seq<nat>)
    requires |shape| <= |idx|
    ensures |r| == |shape|
    ensures forall j :: 0 <= j < |r| ==> r[j] == if shape[j] == 1 then 0 else idx[|idx| - |shape| + j]
  {
    seq(|shape|, j requires 0 <= j < |shape| => if shape[j] == 1 then 0 else idx[|idx| - |shape| + j])
  }

  /** The length of an axis counted from the back; axes that are missing have length 1. */
  function FromEnd(shape: seq<nat>, j: nat): nat {
    if j < |shape| then shape[|shape| - 1 - j] else 1
  }

  predicate Stretches(x: seq<nat>, y: seq<nat>) {
    forall j :: 0 <= j < |x| && j < |y| ==> FromEnd(x, j) == FromEnd(y, j) || FromEnd(x, j) == 1 || FromEnd(y, j) == 1
  }

  lemma {:induction false} BroadcastMeans(x: seq<nat>, y: seq<nat>)
    requires |x| == |y|
    ensures Broadcast(x, y).Some? <==> forall i :: 0 <= i < |x| ==> x[i] == y[i] || x[i] == 1 || y[i] == 1
    ensures Broadcast(x, y).Some? ==>
              |Broadcast(x, y).value| == |x| && forall i :: 0 <= i < |x| ==> Broadcast(x, y).value[i] == if x[i] == 1 then y[i] else x[i]
  {
    if x != [] {
      BroadcastMeans(x[1..], y[1..]);
      assert forall i :: 0 <= i < |x| - 1 ==> x[1..][i] == x[i + 1] && y[1..][i] == y[i + 1];
      assert forall i :: 1 <= i < |x| ==> x[i] == x[1..][i - 1] && y[i] == y[1..][i - 1];
    }
  }

  /** Axes of length 1 in front change nothing. */
  lemma {:induction false} OnesFlatten(k: nat, shape: seq<nat>, idx: seq<nat>)
    requires InShape(shape, idx)
    ensures InShape(Ones(k) + shape, Zeros(k) + idx) && Size(Ones(k) + shape) == Size(shape)
    ensures Flatten(Ones(k) + shape, Zeros(k) + idx) == Flatten(shape, idx)
  {
    if k == 0 {
      assert Ones(0) + shape == shape && Zeros(0) + idx == idx;
    } else {
      OnesFlatten(k - 1, shape, idx);
      FlattenCons(1, Ones(k - 1) + shape, 0, Zeros(k - 1) + idx);
      assert Ones(k) + shape == [1] + (Ones(k - 1) + shape);
      assert Zeros(k) + idx == [0] + (Zeros(k - 1) + idx);
    }
  }

  lemma PaddedFromEnd(shape: seq<nat>, n: nat, j: nat)
    requires |shape| <= n && j < n
    ensures Pad(shape, n)[n - 1 - j] == FromEnd(shape, j)
  {
  }

  lemma PaddedAt(shape: seq<nat>, n: nat, i: nat)
    requires |shape| <= n && i < n
    ensures Pad(shape, n)[i] == if i < n - |shape| then 1 else shape[i - (n - |shape|)]
  {
  }

  lemma PaddedClip(shape: seq<nat>, s: seq<nat>, idx: seq<nat>)
    requires |shape| <= |s| && Paired(Pad(shape, |s|), s) && InShape(s, idx)
    ensures InShape(shape, Behind(idx, shape))
    ensures Clip(idx, Pad(shape, |s|)) == Zeros(|s| - |shape|) + Behind(idx, shape)
  {
    BehindInside(shape, s, idx);
    hide *;
    var l, r := Clip(idx, Pad(shape, |s|)), Zeros(|s| - |shape|) + Behind(idx, shape);
    forall i | 0 <= i < |l|
      ensures l[i] == r[i]
    {
      ClipAt(shape, |s|, idx, i);
    }
    assert l == r;
  }

  function Zeros(k: nat): (r: seq<nat>)
    ensures |r| == k && forall i :: 0 <= i < k ==> r[i] == 0
  {
    seq(k, i => 0)
  }

  lemma ClipAt(shape: seq<nat>, n: nat, idx: seq<nat>, i: nat)
    requires |shape| <= n == |idx| && i < n
    ensures Clip(idx, Pad(shape, n))[i] == (Zeros(n - |shape|) + Behind(idx, shape))[i]
  {
    hide *;
    PaddedAt(shape, n, i);
    if i >= n - |shape| {
      assert (Zeros(n - |shape|) + Behind(idx, shape))[i] == Behind(idx, shape)[i - (n - |shape|)];
    }
  }

  lemma BehindInside(shape: seq<nat>, s: seq<nat>, idx: seq<nat>)
    requires |shape| <= |s| && Paired(Pad(shape, |s|), s) && InShape(s, idx)
    ensures InShape(shape, Behind(idx, shape))
  {
    var k, x := |s| - |shape|, Pad(shape, |s|);
    hide Pad, Behind;
    forall j | 0 <= j < |shape|
      ensures Behind(idx, shape)[j] < shape[j]
    {
      PaddedAt(shape, |s|, k + j);
      assert x[k + j] == 1 || x[k + j] == s[k + j];
      assert idx[k + j] < s[k + j];
    }
  }

  /** The element of a stretched operand. */
  lemma OperandAt(t: Flat, s: seq<nat>, idx: seq<nat>)
    requires ValidFlat(t) && |t.shape| <= |s| && Paired(Pad(t.shape, |s|), s) && InShape(s, idx)
    ensures InShape(t.shape, Behind(idx, t.shape)) && Flatten(s, idx) < Size(s)
    ensures var u := UnitAt(Pad(t.shape, |s|), s, Flatten(s, idx)); u < |t.data| && t.data[u] == Elem(t, Behind(idx, t.shape))
  {
    hide Flatten, Size, Unflatten;
    UnflattenFlatten(s, idx);
    PaddedClip(t.shape, s, idx);
    OnesFlatten(|s| - |t.shape|, t.shape, Behind(idx, t.shape));
  }

  /** Main result on multiplication: it works exactly where axes counted from the back are equal or one of them
      has length 1, and every element is the product of the elements the operands have behind it. */
  lemma TimesMeans(t: Flat, other: Flat)
    requires ValidFlat(t) && ValidFlat(other)
    ensures MultiplyFlat(t, other).Some? <==> Stretches(t.shape, other.shape)
    ensures MultiplyFlat(t, other).Some? ==>
              var r := MultiplyFlat(t, other).value;
              && |r.shape| == (if |t.shape| > |other.shape| then |t.shape| else |other.shape|)
              && (forall j :: 0 <= j < |r.shape| ==>
                    FromEnd(r.shape, j) == if FromEnd(t.shape, j) == 1 then FromEnd(other.shape, j) else FromEnd(t.shape, j))
              && forall idx :: InShape(r.shape, idx) ==>
                   && InShape(t.shape, Behind(idx, t.shape)) && InShape(other.shape, Behind(idx, other.shape))
                   && Elem(r, idx) == Elem(t, Behind(idx, t.shape)) * Elem(other, Behind(idx, other.shape))
  {
    hide Flatten, Size, UnitAt, Broadcast, TimesReal, Behind, Elem, Stretches;
    var n := if |t.shape| > |other.shape| then |t.shape| else |other.shape|;
    var x, y := Pad(t.shape, n), Pad(other.shape, n);
    BroadcastMeans(x, y);
    StretchesPadded(t.shape, other.shape, n);
    if MultiplyFlat(t, other).Some? {
      var r := MultiplyFlat(t, other).value;
      ProductLengths(t.shape, other.shape, r.shape);
      forall idx | InShape(r.shape, idx)
        ensures InShape(t.shape, Behind(idx, t.shape)) && InShape(other.shape, Behind(idx, other.shape))
        ensures Elem(r, idx) == Elem(t, Behind(idx, t.shape)) * Elem(other, Behind(idx, other.shape))
      {
        TimesAt(t, other, r, idx);
      }
    }
  }

  lemma StretchesPadded(x: seq<nat>, y: seq<nat>, n: nat)
    requires n == if |x| > |y| then |x| else |y|
    ensures var a, b := Pad(x, n), Pad(y, n); Stretches(x, y) <==> forall i :: 0 <= i < n ==> a[i] == b[i] || a[i] == 1 || b[i] == 1
  {
    var a, b := Pad(x, n), Pad(y, n);
    hide Pad, FromEnd;
    forall j | 0 <= j < n
      ensures a[n - 1 - j] == FromEnd(x, j) && b[n - 1 - j] == FromEnd(y, j)
    {
      PaddedFromEnd(x, n, j);
      PaddedFromEnd(y, n, j);
    }
    MissingIsOne(x);
    MissingIsOne(y);
    if Stretches(x, y) {
      forall i | 0 <= i < n
        ensures a[i] == b[i] || a[i] == 1 || b[i] == 1
      {
        assert a[n - 1 - (n - 1 - i)] == FromEnd(x, n - 1 - i) && b[n - 1 - (n - 1 - i)] == FromEnd(y, n - 1 - i);
      }
    }
  }

  lemma MissingIsOne(x: seq<nat>)
    ensures forall j: nat :: j >= |x| ==> FromEnd(x, j) == 1
  {
  }

  lemma ProductLengths(x: seq<nat>, y: seq<nat>, s: seq<nat>)
    requires |s| == if |x| > |y| then |x| else |y|
    requires var a, b := Pad(x, |s|), Pad(y, |s|); forall i :: 0 <= i < |s| ==> s[i] == if a[i] == 1 then b[i] else a[i]
    ensures forall j :: 0 <= j < |s| ==> FromEnd(s, j) == if FromEnd(x, j) == 1 then FromEnd(y, j) else FromEnd(x, j)
  {
    forall j | 0 <= j < |s|
      ensures FromEnd(s, j) == if FromEnd(x, j) == 1 then FromEnd(y, j) else FromEnd(x, j)
    {
      PaddedFromEnd(x, |s|, j);
      PaddedFromEnd(y, |s|, j);
    }
  }

  lemma TimesAt(t: Flat, other: Flat, r: Flat, idx: seq<nat>)
    requires ValidFlat(t) && ValidFlat(other) && ValidFlat(r) && MultiplyFlat(t, other) == Some(r) && InShape(r.shape, idx)
    ensures InShape(t.shape, Behind(idx, t.shape)) && InShape(other.shape, Behind(idx, other.shape))
    ensures Elem(r, idx) == Elem(t, Behind(idx, t.shape)) * Elem(other, Behind(idx, other.shape))
  {
    hide Flatten, Size, UnitAt, Broadcast;
    var s, f := r.shape, Flatten(r.shape, idx);
    OperandAt(t, s, idx);
    OperandAt(other, s, idx);
    assert r.data[f] == TimesReal(t.data[UnitAt(Pad(t.shape, |s|), s, f)], other.data[UnitAt(Pad(other.shape, |s|), s, f)]);
  }
}
