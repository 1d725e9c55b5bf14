/** An ellipsis in an index tuple (engine/convert_lora_to_gguf.py, `__getitem__`). The source puts as many
    full slices in its place as there are other indices; a tensor puts as many as there are axes left. */
module LoraEllipsis {
  import opened Common
  import opened Shapes
  import opened UnitAxes
  import opened TensorOps
  import opened LoraFactors
  import opened LoraIndex
  import opened LoraSound

  datatype Slot = Ix(index: Index) | Dots

  function Slots(ixs: seq<Index>): (r: seq<Slot>)
    ensures |r| == |ixs| && forall i :: 0 <= i < |r| ==> r[i] == Ix(ixs[i])
  {
    seq(|ixs|, i requires 0 <= i < |ixs| => Ix(ixs[i]))
  }

  /** What stands for one part of a tuple. */
  function StandsFor(slot: Slot, n: nat): seq<Index> {
    if slot.Dots? then Full(n) else [slot.index]
  }

  /** Every ellipsis replaced by `n` full slices. */
  function Spread(slots: seq<Slot>, n: nat): seq<Index> {
    if slots == [] then []
    else StandsFor(slots[0], n) + Spread(slots[1..], n)
  }

  /** What the source makes of a tuple: a last ellipsis is dropped, any other expanded. */
  function SourceList(slots: seq<Slot>): Option<seq<Index>> {
    if slots == [] then None
    else
      var last := |slots| - 1;
      if slots[last].Dots? then SourceList(slots[..last]) else Some(Spread(slots, last))
  }

  /** What a tensor of `n` axes makes of a tuple with one ellipsis. */
  function DenseList(pre: seq<Index>, post: seq<Index>, n: nat): (r: seq<Index>)
    requires |pre| + |post| <= n
    ensures |r| == n
  {
    pre + Full(n - |pre| - |post|) + post
  }

  function GetSlots(t: Lora, slots: seq<Slot>): (r: Option<Lora>)
    requires Built(t)
    ensures r.Some? ==> Built(r.value)
  {
    var ixs := SourceList(slots);
    if ixs.None? then None else GetMany(t, ixs.value)
  }

  lemma {:induction false} SpreadPlain(ixs: seq<Index>, n: nat)
    ensures Spread(Slots(ixs), n) == ixs
  {
    if ixs != [] {
      SpreadPlain(ixs[1..], n);
      assert Slots(ixs)[1..] == Slots(ixs[1..]);
    }
  }

  lemma SpreadStep(a: seq<Slot>, n: nat)
    requires a != []
    ensures Spread(a, n) == StandsFor(a[0], n) + Spread(a[1..], n)
  {
  }

  lemma Regroup(x: seq<Index>, y: seq<Index>, z: seq<Index>)
    ensures x + (y + z) == x + y + z
  {
  }

  lemma SpreadNone(n: nat)
    ensures Spread([], n) == []
  {
  }

  lemma {:induction false} SpreadAppend(a: seq<Slot>, b: seq<Slot>, n: nat)
    ensures Spread(a + b, n) == Spread(a, n) + Spread(b, n)
  {
    hide *;
    if a == [] {
      SpreadNone(n);
      assert a + b == b && [] + Spread(b, n) == Spread(b, n);
    } else {
      SpreadStep(a, n);
      SpreadStep(a + b, n);
      assert (a + b)[1..] == a[1..] + b && (a + b)[0] == a[0];
      SpreadAppend(a[1..], b, n);
      Regroup(StandsFor(a[0], n), Spread(a[1..], n), Spread(b, n));
    }
  }

  /** The source's list for a tuple with one ellipsis. */
  lemma SourceOfOne(pre: seq<Index>, post: seq<Index>)
    ensures var k, list := |pre| + |post|, SourceList(Slots(pre) + [Dots] + Slots(post));
            if post != [] then list == Some(pre + Full(k) + post)
            else if pre != [] then list == Some(pre)
            else list.None?
  {
    var all, k := Slots(pre) + [Dots] + Slots(post), |pre| + |post|;
    if post == [] {
      assert all[|pre|] == Dots && all[..|pre|] == Slots(pre);
      if pre != [] {
        assert Slots(pre)[|pre| - 1] == Ix(pre[|pre| - 1]);
        SpreadPlain(pre, |pre| - 1);
      }
    } else {
      assert all[|all| - 1] == Ix(post[|post| - 1]);
      SpreadOne(pre, post, k);
    }
  }

  lemma SpreadOne(pre: seq<Index>, post: seq<Index>, n: nat)
    ensures Spread(Slots(pre) + [Dots] + Slots(post), n) == pre + Full(n) + post
  {
    SpreadPlain(pre, n);
    SpreadPlain(post, n);
    SpreadAppend(Slots(pre), [Dots], n);
    SpreadAppend(Slots(pre) + [Dots], Slots(post), n);
    assert [Dots][1..] == [] && Spread([Dots], n) == Full(n) + Spread([], n) == Full(n);
  }

  predicate AllFull(ixs: seq<Index>) {
    forall i :: 0 <= i < |ixs| ==> ixs[i] == FULL
  }

  /** The tuple is expanded rightly: a last ellipsis behind other indices always, any other if it stands for
      as many axes as there are other indices, or for more and nothing but full slices follows. */
  predicate WellExpanded(pre: seq<Index>, post: seq<Index>, n: nat) {
    var k := |pre| + |post|;
    if post == [] then pre != [] else n == 2 * k || (n > 2 * k && AllFull(post))
  }

  /** Full slices in front of a list or behind it: the same only for a list of full slices. */
  lemma {:induction false} ShiftedFull(post: seq<Index>, d: nat, i: nat)
    requires d > 0 && Full(d) + post == post + Full(d) && i < |post|
    ensures post[i] == FULL
  {
    var a, b := Full(d) + post, post + Full(d);
    assert b[i] == post[i];
    if i < d {
      assert a[i] == Full(d)[i];
    } else {
      assert a[i] == post[i - d];
      ShiftedFull(post, d, i - d);
    }
  }

  lemma FullParts(k: nat, d: nat)
    ensures Full(k) + Full(d) == Full(k + d)
  {
  }

  /** Main result on the ellipsis: the source's list fits a weight of `n` axes and, filled up with full
      slices, is that of a tensor if and only if the tuple is expanded rightly. */
  lemma EllipsisExactly(pre: seq<Index>, post: seq<Index>, n: nat)
    requires |pre| + |post| <= n
    ensures var list := SourceList(Slots(pre) + [Dots] + Slots(post));
            (list.Some? && |list.value| <= n && Padded(list.value, n) == DenseList(pre, post, n)) <==> WellExpanded(pre, post, n)
  {
    SourceOfOne(pre, post);
    var k := |pre| + |post|;
    if post == [] {
      assert Full(n - |pre|) + post == Full(n - |pre|);
    } else if 2 * k <= n {
      var d := n - 2 * k;
      FullParts(k, d);
      assert Full(n - k) == Full(k) + Full(d);
      var head := pre + Full(k);
      assert Padded(head + post, n) == head + (post + Full(d));
      assert DenseList(pre, post, n) == head + (Full(d) + post);
      SameBehindHead(head, post + Full(d), Full(d) + post);
      if post + Full(d) == Full(d) + post && d > 0 {
        forall i | 0 <= i < |post|
          ensures post[i] == FULL
        {
          ShiftedFull(post, d, i);
        }
      }
      if AllFull(post) {
        assert post + Full(d) == Full(d) + post;
      }
    }
  }

  lemma SameBehindHead(head: seq<Index>, x: seq<Index>, y: seq<Index>)
    ensures head + x == head + y <==> x == y
  {
    assert (head + x)[|head|..] == x && (head + y)[|head|..] == y;
  }

  /** Rightly expanded, an index with an ellipsis multiplies out to that index of the weight. */
  lemma EllipsisSound(t: Lora, pre: seq<Index>, post: seq<Index>)
    requires Coherent(t) && |pre| + |post| <= Dims(t) && WellExpanded(pre, post, Dims(t))
    requires var all := DenseList(pre, post, Dims(t)); !TwoNumbers(t, all) && !CutsSomeStack(t, all)
    ensures var r := GetSlots(t, Slots(pre) + [Dots] + Slots(post));
            r.Some? ==>
            Coherent(r.value) && Rank(r.value) == Rank(t) && IndexFlat(DenseOf(t), DenseList(pre, post, Dims(t))) == Some(DenseOf(r.value))
  {
    hide IndexFlat, DenseOf, CutsSomeStack, WellExpanded, SourceList, Make, UnitIndices;
    EllipsisExactly(pre, post, Dims(t));
    var list, all := SourceList(Slots(pre) + [Dots] + Slots(post)).value, DenseList(pre, post, Dims(t));
    assert Padded(all, Dims(t)) == all;
    GetManySound(t, all);
  }

  /** `t[..., i]` of a matrix takes column `i`; of a weight of more axes it indexes the second of them. */
  lemma LastAxisOnly(i: int, n: nat)
    requires n >= 1
    ensures WellExpanded([], [Item(i)], n) <==> n == 2
    ensures SourceList([Dots, Ix(Item(i))]) == Some([FULL, Item(i)])
  {
    SourceOfOne([], [Item(i)]);
    assert Slots([]) + [Dots] + Slots([Item(i)]) == [Dots, Ix(Item(i))];
    assert [] + Full(1) + [Item(i)] == [FULL, Item(i)];
  }
}
