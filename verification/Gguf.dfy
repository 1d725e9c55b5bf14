/** Reading the head of a GGUF file (alka-executor/gguf-offset-resolver.c; layout after the "File
    Structure" section of the GGUF specification, ggml docs/gguf.md): metadata values are skipped,
    tensor infos are kept. Running past the end of the file, where the source goes on with
    uninitialised values, is `Fail`. */
module Gguf {
  import opened Common

  datatype Read<+T> = Got(value: T, pos: nat) | Fail

  const STRING := 8
  const ARRAY := 9

  const TWO_32 := 0x1_0000_0000
  const TWO_64 := 0x1_0000_0000_0000_0000

  // ---- The format ----

  /** `v` in `k` bytes, lowest first. */
  function Le(v: nat, k: nat): (r: seq<Byte>)
    ensures |r| == k
    decreases k
  {
    if k == 0 then [] else [v % 256] + Le(v / 256, k - 1)
  }

  /** Bytes of a value of a fixed-size type; 0 for the others. */
  function Width(kind: nat): nat {
    if kind == 0 || kind == 1 || kind == 7 then 1
    else if kind == 2 || kind == 3 then 2
    else if 4 <= kind <= 6 then 4
    else if 10 <= kind <= 12 then 8
    else 0
  }

  /** The types of the format, in the order of their codes. */
  datatype Type =
    | Uint8 | Int8 | Uint16 | Int16 | Uint32 | Int32 | Float32 | Bool | Text8 | Array | Uint64 | Int64 | Float64

  const TYPES: seq<Type> :=
    [Uint8, Int8, Uint16, Int16, Uint32, Int32, Float32, Bool, Text8, Array, Uint64, Int64, Float64]

  /** Bits of a number; a truth value takes a byte, texts and arrays have no fixed size. */
  function Bits(t: Type): nat {
    match t
    case Uint8 => 8
    case Int8 => 8
    case Bool => 8
    case Uint16 => 16
    case Int16 => 16
    case Uint32 => 32
    case Int32 => 32
    case Float32 => 32
    case Uint64 => 64
    case Int64 => 64
    case Float64 => 64
    case Text8 => 0
    case Array => 0
  }

  /** Every code has the width of its type, and no other code has one. */
  lemma WidthExactly(kind: nat)
    ensures 8 * Width(kind) == if kind < |TYPES| then Bits(TYPES[kind]) else 0
    ensures TYPES[STRING] == Text8 && TYPES[ARRAY] == Array
  {
  }

  datatype Value = Scalar(kind: nat, bytes: seq<Byte>) | Str(text: seq<Byte>) | Arr(elem: nat, items: seq<Value>)

  function KindOf(v: Value): nat {
    match v
    case Scalar(kind, _) => kind
    case Str(_) => STRING
    case Arr(_, _) => ARRAY
  }

  predicate WellFormed(v: Value) {
    match v
    case Scalar(kind, bytes) => Width(kind) > 0 && |bytes| == Width(kind)
    case Str(text) => |text| < TWO_64
    case Arr(elem, items) =>
      elem < TWO_32 && |items| < TWO_64 && forall i :: 0 <= i < |items| ==> KindOf(items[i]) == elem && WellFormed(items[i])
  }

  function EncodeText(text: seq<Byte>): seq<Byte> {
    Le(|text|, 8) + text
  }

  function EncodeValue(v: Value): seq<Byte>
    decreases v, 0
  {
    match v
    case Scalar(_, bytes) => bytes
    case Str(text) => EncodeText(text)
    case Arr(elem, items) => Le(elem, 4) + (Le(|items|, 8) + EncodeAll(items))
  }

  function EncodeAll(items: seq<Value>): seq<Byte>
    decreases items, 1
  {
    if items == [] then [] else EncodeValue(items[0]) + EncodeAll(items[1..])
  }

  // ---- Reading ----

  function FromLe(s: seq<Byte>): nat {
    if s == [] then 0 else s[0] as int + 256 * FromLe(s[1..])
  }

  function Uint(file: seq<Byte>, pos: nat, k: nat): Read<nat> {
    if pos + k <= |file| then Got(FromLe(file[pos..pos + k]), pos + k) else Fail
  }

  function Text(file: seq<Byte>, pos: nat): Read<seq<Byte>> {
    var n := Uint(file, pos, 8);
    if n.Fail? || n.pos + n.value > |file| then Fail
    else Got(file[n.pos..n.pos + n.value], n.pos + n.value)
  }

  /** The cursor after `skip_value`; a type above 12 skips nothing. */
  function Skip(file: seq<Byte>, pos: nat, kind: nat): (r: Read<()>)
    requires pos <= |file|
    ensures r.Got? ==> pos <= r.pos <= |file|
    decreases |file| - pos, 0, 0
  {
    if Width(kind) > 0 then if pos + Width(kind) <= |file| then Got((), pos + Width(kind)) else Fail
    else if kind == STRING then
      var t := Text(file, pos);
      if t.Fail? then Fail else Got((), t.pos)
    else if kind == ARRAY then
      var elem := Uint(file, pos, 4);
      if elem.Fail? then Fail
      else
        var count := Uint(file, elem.pos, 8);
        if count.Fail? then Fail else SkipMany(file, count.pos, elem.value, count.value)
    else Got((), pos)
  }

  function SkipMany(file: seq<Byte>, pos: nat, kind: nat, n: nat): (r: Read<()>)
    requires pos <= |file|
    ensures r.Got? ==> pos <= r.pos <= |file|
    decreases |file| - pos, 1, n
  {
    if n == 0 then Got((), pos)
    else
      var one := Skip(file, pos, kind);
      if one.Fail? then Fail else SkipMany(file, one.pos, kind, n - 1)
  }

  /** A type code that is none moves nothing, a number its width if the file has that much left. */
  lemma SkipFixed(file: seq<Byte>, pos: nat, kind: nat)
    requires pos <= |file| && kind != STRING && kind != ARRAY
    ensures Skip(file, pos, kind) ==
            if kind >= |TYPES| then Got((), pos)
            else if pos + Bits(TYPES[kind]) / 8 <= |file| then Got((), pos + Bits(TYPES[kind]) / 8) else Fail
  {
    WidthExactly(kind);
  }

  // ---- What is written can be read ----

  /** `part` stands in the file at `pos`. */
  predicate At(file: seq<Byte>, pos: nat, part: seq<Byte>) {
    pos + |part| <= |file| && file[pos..pos + |part|] == part
  }

  lemma AtSplit(file: seq<Byte>, pos: nat, a: seq<Byte>, b: seq<Byte>)
    requires At(file, pos, a + b)
    ensures At(file, pos, a) && At(file, pos + |a|, b)
  {
    var all := file[pos..pos + |a| + |b|];
    assert file[pos..pos + |a|] == all[..|a|] && file[pos + |a|..pos + |a| + |b|] == all[|a|..];
  }

  function Pow256(k: nat): nat {
    if k == 0 then 1 else 256 * Pow256(k - 1)
  }

  lemma {:induction false} FromLeOfLe(v: nat, k: nat)
    requires v < Pow256(k)
    ensures FromLe(Le(v, k)) == v
    decreases k
  {
    if k > 0 {
      FromLeOfLe(v / 256, k - 1);
      assert Le(v, k)[1..] == Le(v / 256, k - 1);
    }
  }

  /** Each further byte of a number counts 256 times as much as the one before it. */
  lemma {:induction false} FromLeSnoc(s: seq<Byte>, b: Byte)
    ensures FromLe(s + [b]) == FromLe(s) + Pow256(|s|) * b
  {
    if s == [] {
      assert [b][1..] == [] && s + [b] == [b];
    } else {
      FromLeSnoc(s[1..], b);
      assert (s + [b])[1..] == s[1..] + [b];
      Spread(Pow256(|s| - 1), b);
    }
  }

  lemma Spread(p: nat, b: nat)
    ensures 256 * (p * b) == 256 * p * b
  {
  }

  lemma UintAt(file: seq<Byte>, pos: nat, v: nat, k: nat)
    requires At(file, pos, Le(v, k)) && ((k == 4 && v < TWO_32) || (k == 8 && v < TWO_64))
    ensures Uint(file, pos, k) == Got(v, pos + k)
  {
    hide Le, FromLe;
    assert Pow256(4) == TWO_32 && Pow256(8) == TWO_64 by {
      assert Pow256(2) == 65536 && Pow256(6) == 65536 * TWO_32;
    }
    FromLeOfLe(v, k);
  }

  lemma TextAt(file: seq<Byte>, pos: nat, text: seq<Byte>)
    requires At(file, pos, EncodeText(text)) && |text| < TWO_64
    ensures Text(file, pos) == Got(text, pos + |EncodeText(text)|)
  {
    hide Le, Uint;
    AtSplit(file, pos, Le(|text|, 8), text);
    UintAt(file, pos, |text|, 8);
  }

  /** Main result on skipping: over an encoded value the cursor moves by exactly its encoded length,
      for arrays nested to any depth. */
  lemma {:induction false} SkipValueAt(file: seq<Byte>, pos: nat, v: Value)
    requires WellFormed(v) && At(file, pos, EncodeValue(v))
    ensures Skip(file, pos, KindOf(v)) == Got((), pos + |EncodeValue(v)|)
    decreases v, 0
  {
    hide Le, Uint, At, Text;
    AtInside(file, pos, EncodeValue(v));
    match v
    case Scalar(_, _) =>
    case Str(text) => TextAt(file, pos, text);
    case Arr(elem, items) =>
      AtSplit(file, pos, Le(elem, 4), Le(|items|, 8) + EncodeAll(items));
      AtSplit(file, pos + 4, Le(|items|, 8), EncodeAll(items));
      UintAt(file, pos, elem, 4);
      UintAt(file, pos + 4, |items|, 8);
      SkipManyAt(file, pos + 12, elem, items);
  }

  lemma AtInside(file: seq<Byte>, pos: nat, part: seq<Byte>)
    requires At(file, pos, part)
    ensures pos + |part| <= |file|
  {
  }

  lemma {:induction false} SkipManyAt(file: seq<Byte>, pos: nat, elem: nat, items: seq<Value>)
    requires forall i :: 0 <= i < |items| ==> KindOf(items[i]) == elem && WellFormed(items[i])
    requires At(file, pos, EncodeAll(items))
    ensures pos <= |file| && SkipMany(file, pos, elem, |items|) == Got((), pos + |EncodeAll(items)|)
    decreases items, 1
  {
    hide At, Skip, EncodeValue, WellFormed, KindOf;
    AtInside(file, pos, EncodeAll(items));
    if items != [] {
      AtSplit(file, pos, EncodeValue(items[0]), EncodeAll(items[1..]));
      SkipValueAt(file, pos, items[0]);
      SkipManyAt(file, pos + |EncodeValue(items[0])|, elem, items[1..]);
    }
  }

  // ---- The whole head of a file ----

  datatype Pair = Pair(key: seq<Byte>, value: Value)

  datatype Tensor = Tensor(name: seq<Byte>, dims: seq<nat>, kind: nat, offset: nat)

  datatype Head = Head(version: nat, tensors: seq<Tensor>, dataStart: nat)

  const MAGIC: seq<Byte> := [0x47, 0x47, 0x55, 0x46]

  const MAX_DIMS := 4

  predicate WellFormedPair(p: Pair) {
    |p.key| < TWO_64 && WellFormed(p.value) && KindOf(p.value) < TWO_32
  }

  predicate WellFormedTensor(t: Tensor) {
    && |t.name| < TWO_64 && |t.dims| <= MAX_DIMS && t.kind < TWO_32 && t.offset < TWO_64
    && forall i :: 0 <= i < |t.dims| ==> t.dims[i] < TWO_64
  }

  function EncodePairs(ps: seq<Pair>): seq<Byte> {
    if ps == [] then []
    else EncodeText(ps[0].key) + (Le(KindOf(ps[0].value), 4) + (EncodeValue(ps[0].value) + EncodePairs(ps[1..])))
  }

  function EncodeDims(dims: seq<nat>): seq<Byte> {
    if dims == [] then [] else Le(dims[0], 8) + EncodeDims(dims[1..])
  }

  function EncodeTensor(t: Tensor): seq<Byte> {
    EncodeText(t.name) + (Le(|t.dims|, 4) + (EncodeDims(t.dims) + (Le(t.kind, 4) + Le(t.offset, 8))))
  }

  function EncodeTensors(ts: seq<Tensor>): seq<Byte> {
    if ts == [] then [] else EncodeTensor(ts[0]) + EncodeTensors(ts[1..])
  }

  function EncodeHead(version: nat, ps: seq<Pair>, ts: seq<Tensor>): seq<Byte> {
    MAGIC + (Le(version, 4) + (Le(|ts|, 8) + (Le(|ps|, 8) + (EncodePairs(ps) + EncodeTensors(ts)))))
  }

  function SkipPairs(file: seq<Byte>, pos: nat, n: nat): (r: Read<()>)
    requires pos <= |file|
    ensures r.Got? ==> pos <= r.pos <= |file|
    decreases n
  {
    if n == 0 then Got((), pos)
    else
      var key := Text(file, pos);
      if key.Fail? then Fail
      else
        var kind := Uint(file, key.pos, 4);
        if kind.Fail? then Fail
        else
          var value := Skip(file, kind.pos, kind.value);
          if value.Fail? then Fail else SkipPairs(file, value.pos, n - 1)
  }

  function Dims(file: seq<Byte>, pos: nat, n: nat): Read<seq<nat>>
    decreases n
  {
    if n == 0 then Got([], pos)
    else
      var d := Uint(file, pos, 8);
      if d.Fail? then Fail
      else
        var rest := Dims(file, d.pos, n - 1);
        if rest.Fail? then Fail else Got([d.value] + rest.value, rest.pos)
  }

  /** A copied C string ends at its first zero byte. */
  function CString(s: seq<Byte>): seq<Byte> {
    if s == [] || s[0] == 0 then [] else [s[0]] + CString(s[1..])
  }

  /** One tensor info; more than four dimensions overrun the source's array, which is `Fail`. */
  function TensorInfo(file: seq<Byte>, pos: nat): Read<Tensor> {
    var name := Text(file, pos);
    if name.Fail? then Fail
    else
      var n := Uint(file, name.pos, 4);
      if n.Fail? || n.value > MAX_DIMS then Fail
      else
        var dims := Dims(file, n.pos, n.value);
        if dims.Fail? then Fail
        else
          var kind := Uint(file, dims.pos, 4);
          if kind.Fail? then Fail
          else
            var offset := Uint(file, kind.pos, 8);
            if offset.Fail? then Fail
            else Got(Tensor(CString(name.value), dims.value, kind.value, offset.value), offset.pos)
  }

  function TensorInfos(file: seq<Byte>, pos: nat, n: nat): Read<seq<Tensor>>
    decreases n
  {
    if n == 0 then Got([], pos)
    else
      var t := TensorInfo(file, pos);
      if t.Fail? then Fail
      else
        var rest := TensorInfos(file, t.pos, n - 1);
        if rest.Fail? then Fail else Got([t.value] + rest.value, rest.pos)
  }

  /** The file up to the tensor data; an unexpected version is only a warning. */
  function ParseHead(file: seq<Byte>): Read<Head> {
    if |file| < 4 || file[..4] != MAGIC then Fail
    else
      var version := Uint(file, 4, 4);
      if version.Fail? then Fail
      else
        var tensorCount := Uint(file, 8, 8);
        if tensorCount.Fail? then Fail
        else
          var pairCount := Uint(file, 16, 8);
          if pairCount.Fail? then Fail
          else
            var pairs := SkipPairs(file, 24, pairCount.value);
            if pairs.Fail? then Fail
            else
              var ts := TensorInfos(file, pairs.pos, tensorCount.value);
              if ts.Fail? then Fail else Got(Head(version.value, ts.value, ts.pos), ts.pos)
  }

  // ---- Everything written about tensors is recovered ----

  lemma {:induction false} SkipPairsAt(file: seq<Byte>, pos: nat, ps: seq<Pair>)
    requires At(file, pos, EncodePairs(ps)) && forall i :: 0 <= i < |ps| ==> WellFormedPair(ps[i])
    ensures pos <= |file| && SkipPairs(file, pos, |ps|) == Got((), pos + |EncodePairs(ps)|)
    decreases |ps|
  {
    hide Le, Uint, At, Text, Skip, EncodeValue, EncodeText;
    AtInside(file, pos, EncodePairs(ps));
    if ps != [] {
      var p, rest := ps[0], EncodePairs(ps[1..]);
      var key, value := EncodeText(p.key), EncodeValue(p.value);
      var p1 := pos + |key|;
      AtSplit(file, pos, key, Le(KindOf(p.value), 4) + (value + rest));
      AtSplit(file, p1, Le(KindOf(p.value), 4), value + rest);
      AtSplit(file, p1 + 4, value, rest);
      TextAt(file, pos, p.key);
      UintAt(file, p1, KindOf(p.value), 4);
      SkipValueAt(file, p1 + 4, p.value);
      SkipPairsAt(file, p1 + 4 + |value|, ps[1..]);
    }
  }

  lemma {:induction false} DimsAt(file: seq<Byte>, pos: nat, dims: seq<nat>)
    requires At(file, pos, EncodeDims(dims)) && forall i :: 0 <= i < |dims| ==> dims[i] < TWO_64
    ensures Dims(file, pos, |dims|) == Got(dims, pos + |EncodeDims(dims)|)
    decreases |dims|
  {
    hide Le, Uint, At;
    if dims != [] {
      AtSplit(file, pos, Le(dims[0], 8), EncodeDims(dims[1..]));
      UintAt(file, pos, dims[0], 8);
      DimsAt(file, pos + 8, dims[1..]);
      assert [dims[0]] + dims[1..] == dims;
    }
  }

  lemma TensorInfoAt(file: seq<Byte>, pos: nat, t: Tensor)
    requires At(file, pos, EncodeTensor(t)) && WellFormedTensor(t)
    ensures TensorInfo(file, pos) == Got(t.(name := CString(t.name)), pos + |EncodeTensor(t)|)
  {
    hide Le, Uint, At, Text, Dims, EncodeText, EncodeDims, CString;
    var name, dims, tail := EncodeText(t.name), EncodeDims(t.dims), Le(t.kind, 4) + Le(t.offset, 8);
    var p1 := pos + |name|;
    var p2 := p1 + 4;
    var p3 := p2 + |dims|;
    AtSplit(file, pos, name, Le(|t.dims|, 4) + (dims + tail));
    AtSplit(file, p1, Le(|t.dims|, 4), dims + tail);
    AtSplit(file, p2, dims, tail);
    AtSplit(file, p3, Le(t.kind, 4), Le(t.offset, 8));
    TextAt(file, pos, t.name);
    UintAt(file, p1, |t.dims|, 4);
    DimsAt(file, p2, t.dims);
    UintAt(file, p3, t.kind, 4);
    UintAt(file, p3 + 4, t.offset, 8);
  }

  function Recovered(ts: seq<Tensor>): (r: seq<Tensor>)
    ensures |r| == |ts| && forall i :: 0 <= i < |ts| ==> r[i] == ts[i].(name := CString(ts[i].name))
  {
    seq(|ts|, i requires 0 <= i < |ts| => ts[i].(name := CString(ts[i].name)))
  }

  lemma {:induction false} TensorInfosAt(file: seq<Byte>, pos: nat, ts: seq<Tensor>)
    requires At(file, pos, EncodeTensors(ts)) && forall i :: 0 <= i < |ts| ==> WellFormedTensor(ts[i])
    ensures TensorInfos(file, pos, |ts|) == Got(Recovered(ts), pos + |EncodeTensors(ts)|)
    decreases |ts|
  {
    hide At, TensorInfo, EncodeTensor, WellFormedTensor, CString;
    if ts != [] {
      AtSplit(file, pos, EncodeTensor(ts[0]), EncodeTensors(ts[1..]));
      TensorInfoAt(file, pos, ts[0]);
      TensorInfosAt(file, pos + |EncodeTensor(ts[0])|, ts[1..]);
      assert Recovered(ts) == [ts[0].(name := CString(ts[0].name))] + Recovered(ts[1..]);
    }
  }

  /** Main result: parsing an encoded head skips all metadata and recovers name, dimensions, type and
      offset of every tensor, and ends where the encoding ends. */
  lemma ParseHeadAt(file: seq<Byte>, version: nat, ps: seq<Pair>, ts: seq<Tensor>)
    requires At(file, 0, EncodeHead(version, ps, ts)) && version < TWO_32 && |ps| < TWO_64 && |ts| < TWO_64
    requires forall i :: 0 <= i < |ps| ==> WellFormedPair(ps[i])
    requires forall i :: 0 <= i < |ts| ==> WellFormedTensor(ts[i])
    ensures var n := |EncodeHead(version, ps, ts)|;
            ParseHead(file) == Got(Head(version, Recovered(ts), n), n)
  {
    hide Le, Uint, SkipPairs, TensorInfos, EncodePairs, EncodeTensors, WellFormedPair, WellFormedTensor, Recovered;
    var tail := EncodePairs(ps) + EncodeTensors(ts);
    AtSplit(file, 0, MAGIC, Le(version, 4) + (Le(|ts|, 8) + (Le(|ps|, 8) + tail)));
    AtSplit(file, 4, Le(version, 4), Le(|ts|, 8) + (Le(|ps|, 8) + tail));
    AtSplit(file, 8, Le(|ts|, 8), Le(|ps|, 8) + tail);
    AtSplit(file, 16, Le(|ps|, 8), tail);
    AtSplit(file, 24, EncodePairs(ps), EncodeTensors(ts));
    assert file[0..4] == file[..4];
    UintAt(file, 4, version, 4);
    UintAt(file, 8, |ts|, 8);
    UintAt(file, 16, |ps|, 8);
    SkipPairsAt(file, 24, ps);
    TensorInfosAt(file, 24 + |EncodePairs(ps)|, ts);
  }

  /** Names come back whole exactly when they hold no zero byte. */
  lemma {:induction false} NameSurvives(name: seq<Byte>)
    ensures CString(name) == name <==> 0 !in name
  {
    if name != [] {
      NameSurvives(name[1..]);
      if name[0] != 0 {
        assert name == [name[0]] + name[1..];
        assert CString(name)[1..] == CString(name[1..]);
      }
    }
  }

  /** In general it comes back up to its first zero byte. */
  lemma {:induction false} CStringMeans(name: seq<Byte>)
    ensures CString(name) <= name && 0 !in CString(name)
    ensures |CString(name)| < |name| ==> name[|CString(name)|] == 0
  {
    if name != [] && name[0] != 0 {
      CStringMeans(name[1..]);
      assert name == [name[0]] + name[1..];
    }
  }

  /** Where the numbers of the head stand, in any file that is read: after the four letters the version, then the
      number of tensors, then the number of metadata pairs, in front of the pairs. */
  lemma HeadLayout(file: seq<Byte>)
    requires ParseHead(file).Got?
    ensures |file| >= 24 && file[..4] == [0x47, 0x47, 0x55, 0x46]
    ensures ParseHead(file).value.version == FromLe(file[4..8]) && |ParseHead(file).value.tensors| == FromLe(file[8..16])
    ensures SkipPairs(file, 24, FromLe(file[16..24])).Got?
  {
    hide FromLe, SkipPairs, TensorInfos;
    CountsTensors(file, SkipPairs(file, 24, FromLe(file[16..24])).pos, FromLe(file[8..16]));
  }

  lemma {:induction false} CountsTensors(file: seq<Byte>, pos: nat, n: nat)
    ensures TensorInfos(file, pos, n).Got? ==> |TensorInfos(file, pos, n).value| == n
    decreases n
  {
    hide TensorInfo;
    if n > 0 && TensorInfo(file, pos).Got? {
      CountsTensors(file, TensorInfo(file, pos).pos, n - 1);
    }
  }

  // ---- The reader with its cursor ----

  class Reader {
    const file: seq<Byte>
    var pos: nat
    var failed: bool

    predicate Valid()
      reads this
    {
      pos <= |file|
    }

    constructor (contents: seq<Byte>)
      ensures Valid() && file == contents && pos == 0 && !failed
    {
      file, pos, failed := contents, 0, false;
    }

    /** `read_u32` and `read_u64`. */
    method ReadUint(k: nat) returns (v: nat)
      requires Valid() && !failed
      modifies this
      ensures Valid()
      ensures var r := Uint(file, old(pos), k);
              if r.Got? then !failed && v == r.value && pos == r.pos else failed
    {
      v := 0;
      if pos + k > |file| {
        failed := true;
        return;
      }
      v := FromLe(file[pos..pos + k]);
      pos := pos + k;
    }

    method ReadString() returns (text: seq<Byte>)
      requires Valid() && !failed
      modifies this
      ensures Valid()
      ensures var r := Text(file, old(pos));
              if r.Got? then !failed && text == r.value && pos == r.pos else failed
    {
      text := [];
      var n := ReadUint(8);
      if failed {
        return;
      }
      if pos + n > |file| {
        failed := true;
        return;
      }
      text := file[pos..pos + n];
      pos := pos + n;
    }

    /** `skip_value`, with its loop over array elements and its recursion into nested arrays. */
    method SkipValue(kind: nat)
      requires Valid() && !failed
      modifies this
      ensures Valid()
      ensures var r := Skip(file, old(pos), kind);
              if r.Got? then !failed && pos == r.pos else failed
      decreases |file| - pos
    {
      if Width(kind) > 0 {
        if pos + Width(kind) > |file| {
          failed := true;
        } else {
          pos := pos + Width(kind);
        }
      } else if kind == STRING {
        var text := ReadString();
      } else if kind == ARRAY {
        var elem := ReadUint(4);
        if failed {
          return;
        }
        var count := ReadUint(8);
        if failed {
          return;
        }
        ghost var start := pos;
        var i := 0;
        while i < count
          invariant Valid() && !failed && i <= count && pos >= start
          invariant SkipMany(file, start, elem, count) == SkipMany(file, pos, elem, count - i)
        {
          SkipValue(elem);
          if failed {
            return;
          }
          i := i + 1;
        }
      }
    }

    method ReadTensorInfo() returns (t: Tensor)
      requires Valid() && !failed
      modifies this
      ensures Valid()
      ensures var r := TensorInfo(file, old(pos));
              if r.Got? then !failed && t == r.value && pos == r.pos else failed
    {
      t := Tensor([], [], 0, 0);
      var name := ReadString();
      if failed {
        return;
      }
      var n := ReadUint(4);
      if failed || n > MAX_DIMS {
        failed := true;
        return;
      }
      var dims := ReadDims(n);
      if failed {
        return;
      }
      var kind := ReadUint(4);
      if failed {
        return;
      }
      var offset := ReadUint(8);
      t := Tensor(CString(name), dims, kind, offset);
    }

    method ReadDims(n: nat) returns (dims: seq<nat>)
      requires Valid() && !failed
      modifies this
      ensures Valid()
      ensures var r := Dims(file, old(pos), n);
              if r.Got? then !failed && dims == r.value && pos == r.pos else failed
    {
      dims := [];
      assert Dims(file, pos, n).Got? ==> [] + Dims(file, pos, n).value == Dims(file, pos, n).value;
      for d := 0 to n
        invariant Valid() && !failed
        invariant var rest := Dims(file, pos, n - d);
                  Dims(file, old(pos), n) == if rest.Fail? then Fail else Got(dims + rest.value, rest.pos)
      {
        ghost var before := dims;
        ghost var rest := Dims(file, pos, n - d);
        var v := ReadUint(8);
        if failed {
          return;
        }
        dims := dims + [v];
        assert rest.Got? ==> before + ([v] + rest.value[1..]) == dims + rest.value[1..];
      }
    }

    method ParseGguf() returns (head: Head)
      requires Valid() && !failed && pos == 0
      modifies this
      ensures Valid()
      ensures var r := ParseHead(file);
              if r.Got? then !failed && head == r.value && pos == r.pos else failed
    {
      head := Head(0, [], 0);
      if |file| < 4 || file[..4] != MAGIC {
        failed := true;
        return;
      }
      pos := 4;
      var version := ReadUint(4);
      if failed {
        return;
      }
      var tensorCount := ReadUint(8);
      if failed {
        return;
      }
      var pairCount := ReadUint(8);
      if failed {
        return;
      }
      SkipMetadata(pairCount);
      if failed {
        return;
      }
      var tensors := ReadTensors(tensorCount);
      head := Head(version, tensors, pos);
    }

    method SkipMetadata(n: nat)
      requires Valid() && !failed
      modifies this
      ensures Valid()
      ensures var r := SkipPairs(file, old(pos), n);
              if r.Got? then !failed && pos == r.pos else failed
    {
      for i := 0 to n
        invariant Valid() && !failed
        invariant SkipPairs(file, old(pos), n) == SkipPairs(file, pos, n - i)
      {
        hide Skip, Text;
        var key := ReadString();
        if failed {
          return;
        }
        var kind := ReadUint(4);
        if failed {
          return;
        }
        SkipValue(kind);
        if failed {
          return;
        }
      }
    }

    method ReadTensors(n: nat) returns (ts: seq<Tensor>)
      requires Valid() && !failed
      modifies this
      ensures Valid()
      ensures var r := TensorInfos(file, old(pos), n);
              if r.Got? then !failed && ts == r.value && pos == r.pos else failed
    {
      hide TensorInfo;
      ts := [];
      assert TensorInfos(file, pos, n).Got? ==> [] + TensorInfos(file, pos, n).value == TensorInfos(file, pos, n).value;
      for i := 0 to n
        invariant Valid() && !failed
        invariant var rest := TensorInfos(file, pos, n - i);
                  TensorInfos(file, old(pos), n) == if rest.Fail? then Fail else Got(ts + rest.value, rest.pos)
      {
        ghost var before := ts;
        ghost var rest := TensorInfos(file, pos, n - i);
        var t := ReadTensorInfo();
        if failed {
          return;
        }
        ts := ts + [t];
        assert rest.Got? ==> before + ([t] + rest.value[1..]) == ts + rest.value[1..];
      }
    }
  }
}
