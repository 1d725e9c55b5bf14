/** Base64 as in engine/common/base64.hpp (sections 4 and 5 of RFC 4648).

    Characters are their byte codes, so one buffer can hold encoded text and decoded bytes.
    Shifts are divisions and multiplications by powers of two, `|` of disjoint bits is `+`, and the
    narrowing to eight bits is `% 256`. */
module Base64 {
  import opened Common

  type Sextet = x: int | 0 <= x < 64

  datatype Alphabet = Auto | Standard | UrlFilenameSafe

  datatype Behavior = Moderate | Loose

  datatype Result<+T> = Ok(value: T) | Error

  const PAD: Byte := 61

  const UPPER := "ABCDEFGHIJKLM" + "NOPQRSTUVWXYZ"
  const LOWER := "abcdefghijklm" + "nopqrstuvwxyz"
  const DIGITS := "0123456789"
  const STANDARD_TABLE := UPPER + LOWER + DIGITS + "+/"
  const URL_TABLE := UPPER + LOWER + DIGITS + "-_"

  /** Characters with consecutive codes. */
  predicate Consecutive(s: string, first: int) {
    forall i :: 0 <= i < |s| ==> s[i] as int == first + i
  }

  lemma ConsecutiveJoin(a: string, b: string, first: int)
    requires Consecutive(a, first) && Consecutive(b, first + |a|)
    ensures Consecutive(a + b, first)
  {
  }

  lemma Upper()
    ensures |UPPER| == 26 && Consecutive(UPPER, 65)
  {
    assert Consecutive("ABCDEFGHIJKLM", 65) && Consecutive("NOPQRSTUVWXYZ", 78);
    ConsecutiveJoin("ABCDEFGHIJKLM", "NOPQRSTUVWXYZ", 65);
  }

  lemma Lower()
    ensures |LOWER| == 26 && Consecutive(LOWER, 97)
  {
    assert Consecutive("abcdefghijklm", 97) && Consecutive("nopqrstuvwxyz", 110);
    ConsecutiveJoin("abcdefghijklm", "nopqrstuvwxyz", 97);
  }

  lemma Digits()
    ensures |DIGITS| == 10 && Consecutive(DIGITS, 48)
  {
  }

  lemma TableCodes(v: Sextet)
    ensures |STANDARD_TABLE| == |URL_TABLE| == 64
    ensures v < 62 ==> STANDARD_TABLE[v] == URL_TABLE[v]
    ensures STANDARD_TABLE[v] as int ==
            if v < 26 then 65 + v else if v < 52 then 71 + v else if v < 62 then v - 4 else if v == 62 then 43 else 47
    ensures v >= 62 ==> URL_TABLE[v] as int == if v == 62 then 45 else 95
  {
    Upper();
    Lower();
    Digits();
    if v < 26 {
      assert STANDARD_TABLE[v] == UPPER[v];
    } else if v < 52 {
      assert STANDARD_TABLE[v] == LOWER[v - 26];
    } else if v < 62 {
      assert STANDARD_TABLE[v] == DIGITS[v - 52];
    } else {
      assert STANDARD_TABLE[v] == "+/"[v - 62] && URL_TABLE[v] == "-_"[v - 62];
    }
  }

  /** The character of a sextet; only `UrlFilenameSafe` selects the second table. */
  function Symbol(alpha: Alphabet, v: Sextet): (c: Byte)
    ensures c != PAD
  {
    TableCodes(v);
    (if alpha == UrlFilenameSafe then URL_TABLE[v] else STANDARD_TABLE[v]) as int
  }

  function Symbols(alpha: Alphabet, vs: seq<Sextet>): (cs: seq<Byte>)
    ensures |cs| == |vs| && forall i :: 0 <= i < |vs| ==> cs[i] == Symbol(alpha, vs[i])
  {
    seq(|vs|, i requires 0 <= i < |vs| => Symbol(alpha, vs[i]))
  }

  /** `_base64_value`: the sextet of a character and the alphabet the reader goes on with. */
  function Value(alpha: Alphabet, c: Byte): Result<(Sextet, Alphabet)> {
    if 65 <= c <= 90 then Ok((c - 65, alpha))
    else if 97 <= c <= 122 then Ok((c - 97 + 26, alpha))
    else if 48 <= c <= 57 then Ok((c - 48 + 52, alpha))
    else if c == 43 && alpha != UrlFilenameSafe then Ok((62, Standard))
    else if c == 47 && alpha != UrlFilenameSafe then Ok((63, Standard))
    else if c == 45 && alpha != Standard then Ok((62, UrlFilenameSafe))
    else if c == 95 && alpha != Standard then Ok((63, UrlFilenameSafe))
    else Error
  }

  /** An alphabet that has a table, and whether the reader may take its characters. */
  predicate May(alpha: Alphabet, table: Alphabet) {
    table != Auto && (alpha == Auto || alpha == table)
  }

  /** Main result on characters: a character is read exactly if it stands in a table the reader may take it from; its
      value is its place in that table, and a character that stands in one table only settles the alphabet. */
  lemma ValueExactly(alpha: Alphabet, c: Byte)
    ensures Value(alpha, c).Ok? <==> exists table: Alphabet, v: Sextet :: May(alpha, table) && Symbol(table, v) == c
    ensures Value(alpha, c).Ok? ==>
              var v, next := Value(alpha, c).value.0, Value(alpha, c).value.1;
              if v < 62 then next == alpha && Symbol(Standard, v) == c == Symbol(UrlFilenameSafe, v)
              else May(alpha, next) && Symbol(next, v) == c
  {
    forall v: Sextet
      ensures Symbol(Standard, v) == StandardCode(v) && Symbol(UrlFilenameSafe, v) == UrlCode(v)
    {
      TableCodes(v);
    }
    if Value(alpha, c).Ok? {
      var v, next := Value(alpha, c).value.0, Value(alpha, c).value.1;
      assert Symbol(if v < 62 then (if alpha == UrlFilenameSafe then UrlFilenameSafe else Standard) else next, v) == c;
    }
    if table: Alphabet, v: Sextet :| May(alpha, table) && Symbol(table, v) == c {
      assert c == if table == UrlFilenameSafe then UrlCode(v) else StandardCode(v);
    }
  }

  function StandardCode(v: Sextet): int {
    if v < 26 then 65 + v else if v < 52 then 71 + v else if v < 62 then v - 4 else if v == 62 then 43 else 47
  }

  function UrlCode(v: Sextet): int {
    if v < 62 then StandardCode(v) else if v == 62 then 45 else 95
  }

  // ---- What the encoding is: 24 bits as three bytes or as four sextets ----

  function FromBytes(b0: int, b1: int, b2: int): int {
    b0 * 65536 + b1 * 256 + b2
  }

  function FromSextets(s0: int, s1: int, s2: int, s3: int): int {
    s0 * 262144 + s1 * 4096 + s2 * 64 + s3
  }

  /** The four sextets that hold the bits of three bytes, most significant first. */
  function Group(b0: Byte, b1: Byte, b2: Byte): (g: seq<Sextet>)
    ensures |g| == 4
    ensures FromSextets(g[0], g[1], g[2], g[3]) == FromBytes(b0, b1, b2)
  {
    [b0 / 4, b0 % 4 * 16 + b1 / 16, b1 % 16 * 4 + b2 / 64, b2 % 64]
  }

  /** All sextets of a byte string; a last group of one or two bytes gives two or three. */
  function Sextets(bs: seq<Byte>): seq<Sextet> {
    if bs == [] then []
    else if |bs| == 1 then Group(bs[0], 0, 0)[..2]
    else if |bs| == 2 then Group(bs[0], bs[1], 0)[..3]
    else Group(bs[0], bs[1], bs[2]) + Sextets(bs[3..])
  }

  function Padding(n: nat): seq<Byte> {
    if n % 3 == 0 then [] else if n % 3 == 1 then [PAD, PAD] else [PAD]
  }

  function Encoded(bs: seq<Byte>, alpha: Alphabet): seq<Byte> {
    Symbols(alpha, Sextets(bs)) + Padding(|bs|)
  }

  /** The three bytes that hold the bits of four sextets. */
  function Ungroup(s0: Sextet, s1: Sextet, s2: Sextet, s3: Sextet): (r: seq<Byte>)
    ensures |r| == 3
    ensures FromBytes(r[0], r[1], r[2]) == FromSextets(s0, s1, s2, s3)
  {
    [s0 * 4 + s1 / 16, s1 % 16 * 16 + s2 / 4, s2 % 4 * 64 + s3]
  }

  /** The bytes that a string of sextets spells; bits that do not fill a byte are dropped. */
  function Pack(vs: seq<Sextet>): seq<Byte> {
    if |vs| < 2 then []
    else if |vs| == 2 then Ungroup(vs[0], vs[1], 0, 0)[..1]
    else if |vs| == 3 then Ungroup(vs[0], vs[1], vs[2], 0)[..2]
    else Ungroup(vs[0], vs[1], vs[2], vs[3]) + Pack(vs[4..])
  }

  /** The values of a run of characters, the alphabet settled by the first character that tells. */
  function Values(alpha: Alphabet, cs: seq<Byte>): (r: Result<seq<Sextet>>)
    ensures r.Ok? ==> |r.value| == |cs|
    decreases |cs|
  {
    if cs == [] then Ok([])
    else
      var v := Value(alpha, cs[0]);
      if v.Error? then Error
      else
        var rest := Values(v.value.1, cs[1..]);
        if rest.Error? then Error else Ok([v.value.0] + rest.value)
  }

  /** Where the data ends: at the first padding character or at the end. */
  function DataLength(cs: seq<Byte>): (k: nat)
    ensures k <= |cs| && PAD !in cs[..k] && (k < |cs| ==> cs[k] == PAD)
  {
    if cs == [] || cs[0] == PAD then 0
    else
      var k := DataLength(cs[1..]);
      assert cs[..k + 1] == [cs[0]] + cs[1..][..k];
      k + 1
  }

  predicate AllPad(cs: seq<Byte>) {
    forall i :: 0 <= i < |cs| ==> cs[i] == PAD
  }

  function Decoded(cs: seq<Byte>, alpha: Alphabet, behavior: Behavior): Result<seq<Byte>> {
    var k := DataLength(cs);
    var vs := Values(alpha, cs[..k]);
    if vs.Error? || (behavior != Loose && !AllPad(cs[k..])) then Error else Ok(Pack(vs.value))
  }

  /** The character stands in the table of `alpha`. */
  predicate InTable(table: Alphabet, c: Byte) {
    exists v: Sextet :: Symbol(table, v) == c
  }

  /** Main result on runs of characters: they are read exactly if all of them stand in one table that the reader may
      take them from, as their places in it; with the alphabet detected, characters that stand in one table only must
      not be mixed with such of the other. */
  lemma {:induction false} ValuesExactly(alpha: Alphabet, cs: seq<Byte>) returns (table: Alphabet)
    ensures table == Standard || table == UrlFilenameSafe
    ensures Values(alpha, cs).Ok? ==>
              May(alpha, table) && forall i :: 0 <= i < |cs| ==> Symbol(table, Values(alpha, cs).value[i]) == cs[i]
    ensures Values(alpha, cs).Error? ==>
              forall t: Alphabet :: May(alpha, t) ==> exists i :: 0 <= i < |cs| && !InTable(t, cs[i])
    decreases |cs|
  {
    hide Symbol, Value;
    if cs == [] {
      table := if alpha == UrlFilenameSafe then UrlFilenameSafe else Standard;
    } else {
      var c, rest := cs[0], cs[1..];
      ValueExactly(alpha, c);
      var v := Value(alpha, c);
      if v.Ok? {
        table := ValuesExactly(v.value.1, rest);
        NextTable(alpha, c, table);
        if Values(v.value.1, rest).Ok? {
          assert forall i :: 1 <= i < |cs| ==> cs[i] == rest[i - 1];
        } else {
          forall t: Alphabet | May(alpha, t)
            ensures exists i :: 0 <= i < |cs| && !InTable(t, cs[i])
          {
            NextTable(alpha, c, t);
            if May(v.value.1, t) {
              var i :| 0 <= i < |rest| && !InTable(t, rest[i]);
              assert !InTable(t, cs[i + 1]);
            } else {
              assert !InTable(t, cs[0]);
            }
          }
        }
      } else {
        table := Standard;
        forall t: Alphabet | May(alpha, t)
          ensures exists i :: 0 <= i < |cs| && !InTable(t, cs[i])
        {
          assert !InTable(t, cs[0]);
        }
      }
    }
  }

  /** After a character exactly the tables it stands in may still be taken. */
  lemma NextTable(alpha: Alphabet, c: Byte, t: Alphabet)
    requires Value(alpha, c).Ok?
    ensures May(Value(alpha, c).value.1, t) <==> May(alpha, t) && InTable(t, c)
    ensures May(Value(alpha, c).value.1, t) ==> Symbol(t, Value(alpha, c).value.0) == c
  {
    var v, next := Value(alpha, c).value.0, Value(alpha, c).value.1;
    forall u: Sextet
      ensures Symbol(Standard, u) == StandardCode(u) && Symbol(UrlFilenameSafe, u) == UrlCode(u)
    {
      TableCodes(u);
    }
    ValueExactly(alpha, c);
    if t != Auto {
      assert Symbol(t, v) == if t == Standard then StandardCode(v) else UrlCode(v);
      if InTable(t, c) {
        var u: Sextet :| Symbol(t, u) == c;
        assert c == if t == Standard then StandardCode(u) else UrlCode(u);
      }
    }
  }

  /** When decoding works: the characters before the first padding are read, and behind it, unless the reader is
      loose, stands nothing but padding. */
  lemma DecodedExactly(cs: seq<Byte>, alpha: Alphabet, behavior: Behavior, k: nat)
    requires k <= |cs| && PAD !in cs[..k] && (k < |cs| ==> cs[k] == PAD)
    ensures Decoded(cs, alpha, behavior).Ok? <==>
            Values(alpha, cs[..k]).Ok? && (behavior == Loose || forall j :: k <= j < |cs| ==> cs[j] == PAD)
    ensures Decoded(cs, alpha, behavior).Ok? ==> Decoded(cs, alpha, behavior).value == Pack(Values(alpha, cs[..k]).value)
  {
    hide Values, Pack;
    DataLengthIs(cs, k);
    TailIsPad(cs, k);
  }

  function MaxDecodeSize(size: nat): nat {
    (size / 4 + (if size % 4 != 0 then 1 else 0)) * 3
  }

  function RequiredEncodeSize(size: nat): nat {
    (size / 3 + (if size % 3 != 0 then 1 else 0)) * 4
  }

  // ---- Round trip ----

  lemma GroupRoundTrip(b0: Byte, b1: Byte, b2: Byte)
    ensures var g := Group(b0, b1, b2); Ungroup(g[0], g[1], g[2], g[3]) == [b0, b1, b2]
  {
    hide FromBytes, FromSextets;
    var g := Group(b0, b1, b2);
    assert g[1] / 16 == b0 % 4 && g[1] % 16 == b1 / 16;
    assert g[2] / 4 == b1 % 16 && g[2] % 4 == b2 / 64;
  }

  lemma ShortRoundTrip(b0: Byte, b1: Byte)
    ensures var g := Group(b0, 0, 0); Ungroup(g[0], g[1], 0, 0)[..1] == [b0]
    ensures var g := Group(b0, b1, 0); Ungroup(g[0], g[1], g[2], 0)[..2] == [b0, b1]
  {
    GroupRoundTrip(b0, 0, 0);
    GroupRoundTrip(b0, b1, 0);
  }

  lemma PackUnfolds(vs: seq<Sextet>)
    requires |vs| >= 4
    ensures Pack(vs) == Ungroup(vs[0], vs[1], vs[2], vs[3]) + Pack(vs[4..])
  {
  }

  lemma {:induction false} PackSextets(bs: seq<Byte>)
    ensures Pack(Sextets(bs)) == bs
  {
    if |bs| == 1 {
      ShortRoundTrip(bs[0], 0);
    } else if |bs| == 2 {
      ShortRoundTrip(bs[0], bs[1]);
    } else if |bs| >= 3 {
      hide Group, Ungroup, Pack;
      var g, vs := Group(bs[0], bs[1], bs[2]), Sextets(bs);
      assert vs == g + Sextets(bs[3..]);
      calc {
        Pack(vs);
        { PackUnfolds(vs); assert vs[..4] == g && vs[4..] == Sextets(bs[3..]); }
        Ungroup(g[0], g[1], g[2], g[3]) + Pack(Sextets(bs[3..]));
        { GroupRoundTrip(bs[0], bs[1], bs[2]); PackSextets(bs[3..]); }
        [bs[0], bs[1], bs[2]] + bs[3..];
        bs;
      }
    }
  }

  /** The reader detects the alphabet or is told the one the writer used; `Auto` writes `Standard`. */
  predicate Reads(reader: Alphabet, writer: Alphabet) {
    reader == Auto || reader == (if writer == Auto then Standard else writer)
  }

  /** A reader that starts with the writer's alphabet or with `Auto` reads every symbol back, and
      keeps to an alphabet it can go on with. */
  lemma ValueOfSymbol(writer: Alphabet, reader: Alphabet, v: Sextet)
    requires Reads(reader, writer)
    ensures var r := Value(reader, Symbol(writer, v));
            r.Ok? && r.value.0 == v && Reads(r.value.1, writer)
  {
    TableCodes(v);
  }

  lemma {:induction false} ValuesOfSymbols(writer: Alphabet, reader: Alphabet, vs: seq<Sextet>)
    requires Reads(reader, writer)
    ensures Values(reader, Symbols(writer, vs)) == Ok(vs)
    decreases |vs|
  {
    hide Value, Symbol;
    if vs != [] {
      ValueOfSymbol(writer, reader, vs[0]);
      var next := Value(reader, Symbol(writer, vs[0])).value.1;
      ValuesOfSymbols(writer, next, vs[1..]);
      assert Symbols(writer, vs)[1..] == Symbols(writer, vs[1..]);
      assert [vs[0]] + vs[1..] == vs;
    }
  }

  lemma {:induction false} DataLengthOfEncoded(data: seq<Byte>, pads: seq<Byte>)
    requires PAD !in data && AllPad(pads)
    ensures DataLength(data + pads) == |data|
  {
    if data != [] {
      DataLengthOfEncoded(data[1..], pads);
      assert (data + pads)[1..] == data[1..] + pads;
    }
  }

  /** Main result: decoding an encoding gives the bytes back, for every alphabet, whether the reader
      is told the alphabet or detects it, and under both behaviours. */
  lemma RoundTrip(bs: seq<Byte>, writer: Alphabet, reader: Alphabet, behavior: Behavior)
    requires Reads(reader, writer)
    ensures Decoded(Encoded(bs, writer), reader, behavior) == Ok(bs)
  {
    hide Values, Pack, Sextets, DataLength;
    var data, pads := Symbols(writer, Sextets(bs)), Padding(|bs|);
    DataLengthOfEncoded(data, pads);
    assert (data + pads)[..|data|] == data && (data + pads)[|data|..] == pads;
    ValuesOfSymbols(writer, reader, Sextets(bs));
    PackSextets(bs);
  }

  lemma {:induction false} SextetCount(bs: seq<Byte>)
    ensures |Sextets(bs)| + |Padding(|bs|)| == RequiredEncodeSize(|bs|)
  {
    if |bs| >= 3 {
      SextetCount(bs[3..]);
    }
  }

  lemma EncodedSize(bs: seq<Byte>, alpha: Alphabet)
    ensures |Encoded(bs, alpha)| == RequiredEncodeSize(|bs|)
  {
    SextetCount(bs);
  }

  lemma {:induction false} PackSize(vs: seq<Sextet>)
    ensures |Pack(vs)| == |vs| * 6 / 8
  {
    if |vs| >= 4 {
      PackSize(vs[4..]);
    }
  }

  lemma DecodedSize(cs: seq<Byte>, alpha: Alphabet, behavior: Behavior)
    ensures var r := Decoded(cs, alpha, behavior); r.Ok? ==> |r.value| <= MaxDecodeSize(|cs|)
  {
    hide Values, Pack, DataLength;
    var vs := Values(alpha, cs[..DataLength(cs)]);
    if vs.Ok? {
      PackSize(vs.value);
    }
  }

  // ---- The encoder loop ----

  lemma {:induction false} SextetsAppend(bs: seq<Byte>, tail: seq<Byte>)
    requires |bs| % 3 == 0
    ensures Sextets(bs + tail) == Sextets(bs) + Sextets(tail)
  {
    if bs == [] {
      assert bs + tail == tail;
    } else {
      var all := bs + tail;
      calc {
        Sextets(all);
        { assert all[0] == bs[0] && all[1] == bs[1] && all[2] == bs[2] && all[3..] == bs[3..] + tail; }
        Group(bs[0], bs[1], bs[2]) + Sextets(bs[3..] + tail);
        { SextetsAppend(bs[3..], tail); }
        Group(bs[0], bs[1], bs[2]) + (Sextets(bs[3..]) + Sextets(tail));
        Sextets(bs) + Sextets(tail);
      }
    }
  }

  /** What one turn of the loop adds: the symbols of the next group and its padding. */
  lemma EncodeStep(bs: seq<Byte>, i: nat, k: nat, alpha: Alphabet)
    requires i % 3 == 0 && i < k <= |bs| && (k == i + 3 || (k < i + 3 && k == |bs|))
    ensures Encoded(bs[..k], alpha) == Encoded(bs[..i], alpha) + Encoded(bs[i..k], alpha)
  {
    hide Sextets, Symbols, Padding;
    var a, b := Sextets(bs[..i]), Sextets(bs[i..k]);
    calc {
      Encoded(bs[..k], alpha);
      { assert bs[..k] == bs[..i] + bs[i..k]; SextetsAppend(bs[..i], bs[i..k]); PaddingShift(i, k); }
      Symbols(alpha, a + b) + Padding(k - i);
      { SymbolsAppend(alpha, a, b); }
      Symbols(alpha, a) + Symbols(alpha, b) + Padding(k - i);
      { PaddingShift(i, i); }
      (Symbols(alpha, a) + Padding(i)) + (Symbols(alpha, b) + Padding(k - i));
      Encoded(bs[..i], alpha) + Encoded(bs[i..k], alpha);
    }
  }

  lemma PaddingShift(i: nat, k: nat)
    requires i % 3 == 0 && i <= k
    ensures Padding(k) == Padding(k - i) && Padding(i) == []
  {
  }

  lemma SymbolsAppend(alpha: Alphabet, a: seq<Sextet>, b: seq<Sextet>)
    ensures Symbols(alpha, a + b) == Symbols(alpha, a) + Symbols(alpha, b)
  {
    hide Symbol;
  }

  lemma EncodedGroup(bs: seq<Byte>, alpha: Alphabet)
    requires 0 < |bs| <= 3
    ensures var e, b0 := Encoded(bs, alpha), bs[0];
            var b1, b2 := if |bs| > 1 then bs[1] else 0, if |bs| > 2 then bs[2] else 0;
            e == [Symbol(alpha, b0 / 4 % 64), Symbol(alpha, b0 % 4 * 16 + b1 / 16 % 16),
                  if |bs| > 1 then Symbol(alpha, b1 % 16 * 4 + b2 / 64 % 4) else PAD,
                  if |bs| > 2 then Symbol(alpha, b2 % 64) else PAD]
  {
    hide Symbol;
    if |bs| == 3 {
      assert bs[3..] == [];
      assert Sextets(bs) == Group(bs[0], bs[1], bs[2]);
    }
  }

  /** The four characters of the group from `i` to before `k` behind the encoding of what precedes it. */
  lemma EncodeMore(bs: seq<Byte>, i: nat, k: nat, alpha: Alphabet, i1: Byte, i2: Byte)
    requires i % 3 == 0 && i < k <= |bs| && (k == i + 3 || (k < i + 3 && k == |bs|))
    requires i1 == (if k > i + 1 then bs[i + 1] else 0) && i2 == (if k > i + 2 then bs[i + 2] else 0)
    ensures Encoded(bs[..k], alpha) ==
            Encoded(bs[..i], alpha) + [Symbol(alpha, bs[i] / 4 % 64)] + [Symbol(alpha, bs[i] % 4 * 16 + i1 / 16 % 16)]
            + [if k > i + 1 then Symbol(alpha, i1 % 16 * 4 + i2 / 64 % 4) else PAD]
            + [if k > i + 2 then Symbol(alpha, i2 % 64) else PAD]
  {
    hide Encoded, Symbol;
    EncodedGroup(bs[i..k], alpha);
    EncodeStep(bs, i, k, alpha);
  }

  method Encode(input: seq<Byte>, alpha: Alphabet) returns (out: seq<Byte>)
    ensures out == Encoded(input, alpha)
    ensures |out| == RequiredEncodeSize(|input|)
  {
    hide Encoded, Symbol, RequiredEncodeSize;
    EncodedEmpty(alpha);
    out := [];
    var i := 0;
    assert input[..0] == [];
    while i < |input|
      invariant i <= |input| && (i % 3 == 0 || i == |input|)
      invariant out == Encoded(input[..i], alpha)
    {
      ghost var start := i;
      var i0, i1, i2: Byte := input[i], 0, 0;
      i := i + 1;
      out := out + [Symbol(alpha, i0 / 4 % 64)];
      if i < |input| {
        i1 := input[i];
        i := i + 1;
        out := out + [Symbol(alpha, i0 % 4 * 16 + i1 / 16 % 16)];
      } else {
        out := out + [Symbol(alpha, i0 % 4 * 16)] + [PAD] + [PAD];
        EncodeMore(input, start, i, alpha, i1, i2);
        break;
      }
      if i < |input| {
        i2 := input[i];
        i := i + 1;
        out := out + [Symbol(alpha, i1 % 16 * 4 + i2 / 64 % 4)];
      } else {
        out := out + [Symbol(alpha, i1 % 16 * 4)] + [PAD];
        EncodeMore(input, start, i, alpha, i1, i2);
        break;
      }
      out := out + [Symbol(alpha, i2 % 64)];
      EncodeMore(input, start, i, alpha, i1, i2);
    }
    assert input[..|input|] == input;
    EncodedSize(input, alpha);
  }

  lemma EncodedEmpty(alpha: Alphabet)
    ensures Encoded([], alpha) == []
  {
  }

  // ---- The decoder loop ----

  /** Bits held back after `n` sextets. */
  function Bits(n: nat): int {
    if n % 4 == 0 then 0 else if n % 4 == 1 then 6 else if n % 4 == 2 then 4 else 2
  }

  function Pow2(k: int): int {
    if k == 0 then 1 else if k == 2 then 4 else if k == 4 then 16 else 64
  }

  /** `(last << (8 - bits)) | (part >> (bits - 2))`, narrowed to a byte. */
  function Joined(last: Sextet, bits: int, part: Sextet): Byte
    requires bits == 2 || bits == 4 || bits == 6
  {
    var high, low: int := last, part;
    high * Pow2(8 - bits) % 256 + low / Pow2(bits - 2)
  }

  /** What the decoder writes on reading `v` after `vs`. */
  function NextByte(vs: seq<Sextet>, v: Sextet): seq<Byte> {
    if Bits(|vs|) == 0 then [] else [Joined(vs[|vs| - 1], Bits(|vs|), v)]
  }

  lemma NextByteShift(vs: seq<Sextet>, v: Sextet)
    requires |vs| >= 4
    ensures NextByte(vs[4..], v) == NextByte(vs, v)
  {
    assert (|vs| - 4) % 4 == |vs| % 4;
  }

  /** One more sextet yields one more byte, except after a whole number of groups. */
  lemma {:induction false} PackSnoc(vs: seq<Sextet>, v: Sextet)
    ensures Pack(vs + [v]) ==
            Pack(vs) + NextByte(vs, v)
    decreases |vs|
  {
    if |vs| < 4 {
      PackSnocShort(vs, v);
    } else {
      hide Ungroup, NextByte, Pack;
      var all, g := vs + [v], Ungroup(vs[0], vs[1], vs[2], vs[3]);
      var more := NextByte(vs, v);
      calc {
        Pack(all);
        { PackUnfolds(all); assert all[4..] == vs[4..] + [v]; }
        g + Pack(vs[4..] + [v]);
        { PackSnoc(vs[4..], v); NextByteShift(vs, v); }
        g + (Pack(vs[4..]) + more);
        (g + Pack(vs[4..])) + more;
        { PackUnfolds(vs); }
        Pack(vs) + more;
      }
    }
  }

  lemma ShiftOut(x: int, y: int)
    requires 0 <= x < 64 && 0 <= y < 64
    ensures x * 4 % 256 == x * 4 && x * 16 % 256 == x % 16 * 16 && y * 64 % 256 == y % 4 * 64
  {
    assert x * 16 == 256 * (x / 16) + 16 * (x % 16);
    assert y * 64 == 256 * (y / 4) + 64 * (y % 4);
  }

  lemma JoinedBytes(s0: Sextet, s1: Sextet, s2: Sextet, s3: Sextet)
    ensures Ungroup(s0, s1, s2, s3) == [Joined(s0, 6, s1), Joined(s1, 4, s2), Joined(s2, 2, s3)]
  {
    hide FromBytes, FromSextets;
    ShiftOut(s0, s2);
    ShiftOut(s1, s2);
  }

  lemma PackShort(a: Sextet, b: Sextet, c: Sextet, d: Sextet)
    ensures Pack([a]) == [] && Pack([a, b]) == [Joined(a, 6, b)]
    ensures Pack([a, b, c]) == [Joined(a, 6, b), Joined(b, 4, c)]
    ensures Pack([a, b, c, d]) == [Joined(a, 6, b), Joined(b, 4, c), Joined(c, 2, d)]
  {
    hide Ungroup, Joined;
    JoinedBytes(a, b, 0, 0);
    JoinedBytes(a, b, c, 0);
    JoinedBytes(a, b, c, d);
    assert [a, b, c, d][4..] == [] && Pack([]) == [];
  }

  lemma SnocOne(a: Sextet, v: Sextet)
    ensures Pack([] + [v]) == Pack([]) + NextByte([], v)
    ensures Pack([a] + [v]) == Pack([a]) + NextByte([a], v)
  {
    hide Pack, Joined;
    PackEmpty();
    PackShort(v, 0, 0, 0);
    PackShort(a, v, 0, 0);
    assert [] + [v] == [v] && [a] + [v] == [a, v];
  }

  lemma SnocTwo(a: Sextet, b: Sextet, v: Sextet)
    ensures Pack([a, b] + [v]) == Pack([a, b]) + NextByte([a, b], v)
  {
    hide Pack, Joined;
    PackShort(a, b, v, 0);
    assert [a, b] + [v] == [a, b, v];
  }

  lemma SnocThree(a: Sextet, b: Sextet, c: Sextet, v: Sextet)
    ensures Pack([a, b, c] + [v]) == Pack([a, b, c]) + NextByte([a, b, c], v)
  {
    hide Pack, Joined;
    PackShort(a, b, c, v);
    assert [a, b, c] + [v] == [a, b, c, v];
  }

  lemma PackSnocShort(vs: seq<Sextet>, v: Sextet)
    requires |vs| < 4
    ensures Pack(vs + [v]) == Pack(vs) + NextByte(vs, v)
  {
    hide Pack, NextByte;
    if |vs| == 0 {
      SnocOne(0, v);
      assert vs == [];
    } else if |vs| == 1 {
      SnocOne(vs[0], v);
      assert vs == [vs[0]];
    } else if |vs| == 2 {
      SnocTwo(vs[0], vs[1], v);
      assert vs == [vs[0], vs[1]];
    } else {
      SnocThree(vs[0], vs[1], vs[2], v);
      assert vs == [vs[0], vs[1], vs[2]];
    }
  }

  lemma PackEmpty()
    ensures Pack([]) == []
  {
  }

  /** Reading one more character. */
  lemma {:induction false} ValuesSnoc(alpha: Alphabet, cs: seq<Byte>, c: Byte)
    ensures var r := Values(alpha, cs);
            Values(alpha, cs + [c]) ==
            if r.Error? || Value(Settled(alpha, cs), c).Error? then Error
            else Ok(r.value + [Value(Settled(alpha, cs), c).value.0])
    decreases |cs|
  {
    if cs == [] {
      assert cs + [c] == [c] && [c][1..] == [];
      var v := Value(alpha, c);
      assert v.Ok? ==> [v.value.0] + [] == [] + [v.value.0];
    } else {
      var v := Value(alpha, cs[0]);
      assert (cs + [c])[1..] == cs[1..] + [c];
      if v.Ok? {
        ValuesSnoc(v.value.1, cs[1..], c);
        var rest := Values(v.value.1, cs[1..]);
        if rest.Ok? {
          var w := Value(Settled(v.value.1, cs[1..]), c);
          assert w.Ok? ==> [v.value.0] + (rest.value + [w.value.0]) == ([v.value.0] + rest.value) + [w.value.0];
        }
      }
    }
  }

  /** The alphabet after reading `cs`. */
  function Settled(alpha: Alphabet, cs: seq<Byte>): Alphabet
    decreases |cs|
  {
    if cs == [] then alpha
    else
      var v := Value(alpha, cs[0]);
      if v.Error? then alpha else Settled(v.value.1, cs[1..])
  }

  lemma {:induction false} SettledSnoc(alpha: Alphabet, cs: seq<Byte>, c: Byte)
    requires Values(alpha, cs).Ok? && Value(Settled(alpha, cs), c).Ok?
    ensures Settled(alpha, cs + [c]) == Value(Settled(alpha, cs), c).value.1
    decreases |cs|
  {
    if cs == [] {
      assert cs + [c] == [c] && [c][1..] == [];
    } else {
      assert (cs + [c])[1..] == cs[1..] + [c];
      SettledSnoc(Value(alpha, cs[0]).value.1, cs[1..], c);
    }
  }

  /** Where the reader stands after `k` data characters without an error. */
  ghost predicate Reading(cs: seq<Byte>, k: int, start: Alphabet, alpha: Alphabet, last: Sextet, bits: int, out: seq<Byte>) {
    && 0 <= k <= |cs| && PAD !in cs[..k]
    && Values(start, cs[..k]).Ok? && alpha == Settled(start, cs[..k])
    && var vs := Values(start, cs[..k]).value;
       bits == Bits(k) && (k > 0 ==> last == vs[k - 1]) && out == Pack(vs)
  }

  lemma StartReading(cs: seq<Byte>, start: Alphabet)
    ensures Reading(cs, 0, start, start, 0, 0, [])
  {
    assert cs[..0] == [];
  }

  /** One character: what the loop body computes keeps the reader where it should be. */
  lemma ReadOne(cs: seq<Byte>, k: nat, start: Alphabet, alpha: Alphabet, last: Sextet, bits: int, out: seq<Byte>)
    requires Reading(cs, k, start, alpha, last, bits, out) && k < |cs| && cs[k] != PAD
    ensures var v := Value(alpha, cs[k]);
            if v.Error? then Values(start, cs[..k + 1]).Error?
            else Reading(cs, k + 1, start, v.value.1, v.value.0,
                         if bits + 6 >= 8 then bits - 2 else bits + 6,
                         if bits + 6 >= 8 then out + [Joined(last, bits, v.value.0)] else out)
  {
    hide Values, Settled, Pack, Value, Joined;
    var v := Value(alpha, cs[k]);
    assert cs[..k + 1] == cs[..k] + [cs[k]];
    ValuesSnoc(start, cs[..k], cs[k]);
    if v.Ok? {
      SettledSnoc(start, cs[..k], cs[k]);
      PackSnoc(Values(start, cs[..k]).value, v.value.0);
    }
  }

  /** An error among the first characters of the data is an error of the whole. */
  lemma {:induction false} ErrorStays(alpha: Alphabet, cs: seq<Byte>, k: nat, n: nat)
    requires k <= n <= |cs| && Values(alpha, cs[..k]).Error?
    ensures Values(alpha, cs[..n]).Error?
    decreases n
  {
    if k < n {
      ErrorStays(alpha, cs, k, n - 1);
      assert cs[..n] == cs[..n - 1] + [cs[n - 1]];
      ValuesSnoc(alpha, cs[..n - 1], cs[n - 1]);
    }
  }

  lemma {:induction false} DataLengthIs(cs: seq<Byte>, k: nat)
    requires k <= |cs| && PAD !in cs[..k] && (k < |cs| ==> cs[k] == PAD)
    ensures DataLength(cs) == k
  {
    if k > 0 {
      assert cs[..k][0] == cs[0] && cs[1..][..k - 1] == cs[..k][1..];
      DataLengthIs(cs[1..], k - 1);
    }
  }

  lemma {:induction false} DataLengthAtLeast(cs: seq<Byte>, k: nat)
    requires k <= |cs| && PAD !in cs[..k]
    ensures DataLength(cs) >= k
  {
    if k > 0 {
      assert cs[..k][0] == cs[0] && cs[1..][..k - 1] == cs[..k][1..];
      DataLengthAtLeast(cs[1..], k - 1);
    }
  }

  /** Decoding to a fresh buffer. */
  method Decode(cs: seq<Byte>, alphabet: Alphabet, behavior: Behavior) returns (r: Result<seq<Byte>>)
    ensures r == Decoded(cs, alphabet, behavior)
    ensures r.Ok? ==> |r.value| <= MaxDecodeSize(|cs|)
  {
    hide Values, Settled, Pack, DataLength, Joined, Bits, Reading;
    DecodedSize(cs, alphabet, behavior);
    var alpha, last, bits, out, i := alphabet, 0, 0, [], 0;
    StartReading(cs, alphabet);
    var padded := false;
    while i < |cs| && !padded
      invariant 0 <= i <= |cs| && (bits == 0 || bits == 2 || bits == 4 || bits == 6)
      invariant !padded ==> Reading(cs, i, alphabet, alpha, last, bits, out)
      invariant padded ==> 0 < i && cs[i - 1] == PAD && Reading(cs, i - 1, alphabet, alpha, last, bits, out)
      decreases |cs| - i, !padded
    {
      var c := cs[i];
      i := i + 1;
      if c == PAD {
        padded := true;
      } else {
        ReadOne(cs, i - 1, alphabet, alpha, last, bits, out);
        var v := Value(alpha, c);
        if v.Error? {
          ReadError(cs, i, alphabet, alpha, last, bits, out);
          return Error;
        }
        var part := v.value.0;
        alpha := v.value.1;
        if bits + 6 >= 8 {
          out := out + [Joined(last, bits, part)];
          bits := bits - 2;
        } else {
          bits := bits + 6;
        }
        last := part;
      }
    }
    ghost var k := if padded then i - 1 else i;
    DoneReading(cs, k, alphabet, alpha, last, bits, out);
    if behavior != Loose {
      while i < |cs|
        invariant k <= i <= |cs| && forall j :: k <= j < i ==> cs[j] == PAD
      {
        if cs[i] != PAD {
          TailIsPad(cs, k);
          return Error;
        }
        i := i + 1;
      }
      TailIsPad(cs, k);
    }
    r := Ok(out);
  }

  /** Decoding in place: the same loop with `out` and the input in one buffer. The write index never
      passes the read index, so every character is read before it is overwritten. */
  method DecodeInPlace(buf: array<Byte>, alphabet: Alphabet, behavior: Behavior) returns (r: Result<nat>)
    modifies buf
    ensures var d := Decoded(old(buf[..]), alphabet, behavior);
            if d.Error? then r.Error?
            else r == Ok(|d.value|) && |d.value| <= buf.Length
                 && buf[..|d.value|] == d.value && buf[|d.value|..] == old(buf[..])[|d.value|..]
    ensures Overwritten(old(buf[..]), alphabet, buf[..])
  {
    hide *;
    ghost var cs := buf[..];
    NothingWritten(cs);
    ghost var out: seq<Byte> := [];
    var alpha, last, bits, i, w := alphabet, 0, 0, 0, 0;
    StartReading(cs, alphabet);
    var padded := false;
    while i < buf.Length && !padded
      invariant 0 <= w <= i <= buf.Length && (bits == 0 || bits == 2 || bits == 4 || bits == 6)
      invariant !padded ==> Reading(cs, i, alphabet, alpha, last, bits, out)
      invariant padded ==> 0 < i && cs[i - 1] == PAD && Reading(cs, i - 1, alphabet, alpha, last, bits, out)
      invariant InPlace(buf[..], cs, w, out)
      decreases buf.Length - i, !padded
    {
      NotYetWritten(buf[..], cs, w, out, i);
      var c := buf[i];
      i := i + 1;
      if c == PAD {
        padded := true;
      } else {
        ReadOne(cs, i - 1, alphabet, alpha, last, bits, out);
        var v := Value(alpha, c);
        if v.Error? {
          ReadError(cs, i, alphabet, alpha, last, bits, out);
          LeftBehind(cs, i - 1, alphabet, alpha, last, bits, out, buf[..], w);
          return Error;
        }
        var part := v.value.0;
        alpha := v.value.1;
        if bits + 6 >= 8 {
          ghost var was := buf[..];
          var b := Joined(last, bits, part);
          buf[w] := b;
          WriteBehind(was, buf[..], cs, w, b, out);
          out := out + [b];
          w := w + 1;
          bits := bits - 2;
        } else {
          bits := bits + 6;
        }
        last := part;
      }
    }
    ghost var k := if padded then i - 1 else i;
    DoneReading(cs, k, alphabet, alpha, last, bits, out);
    LeftBehind(cs, k, alphabet, alpha, last, bits, out, buf[..], w);
    if behavior != Loose {
      while i < buf.Length
        invariant k <= i <= |cs| && forall j :: k <= j < i ==> cs[j] == PAD
        invariant InPlace(buf[..], cs, w, out) && Overwritten(cs, alphabet, buf[..])
      {
        NotYetWritten(buf[..], cs, w, out, i);
        if buf[i] != PAD {
          TailIsPad(cs, k);
          return Error;
        }
        i := i + 1;
      }
      TailIsPad(cs, k);
    }
    AllWritten(buf[..], cs, w, out);
    r := Ok(w);
  }

  /** The buffer holds `out`, then the input from `w` on. */
  ghost predicate InPlace(buf: seq<Byte>, cs: seq<Byte>, w: int, out: seq<Byte>) {
    0 <= w <= |buf| == |cs| && buf[..w] == out && buf[w..] == cs[w..]
  }

  lemma NothingWritten(cs: seq<Byte>)
    ensures InPlace(cs, cs, 0, [])
  {
  }

  lemma TailIsPad(cs: seq<Byte>, k: nat)
    requires k <= |cs|
    ensures AllPad(cs[k..]) <==> forall j :: k <= j < |cs| ==> cs[j] == PAD
  {
    forall j | k <= j < |cs|
      ensures cs[j] == cs[k..][j - k]
    {
    }
  }

  lemma NotYetWritten(buf: seq<Byte>, cs: seq<Byte>, w: int, out: seq<Byte>, i: int)
    requires InPlace(buf, cs, w, out) && w <= i < |buf|
    ensures i < |cs| && buf[i] == cs[i]
  {
    assert buf[i] == buf[w..][i - w] == cs[w..][i - w] == cs[i];
  }

  lemma WriteBehind(before: seq<Byte>, after: seq<Byte>, cs: seq<Byte>, w: int, x: Byte, out: seq<Byte>)
    requires InPlace(before, cs, w, out) && w < |before| && after == before[w := x]
    ensures InPlace(after, cs, w + 1, out + [x])
  {
  }

  /** The reader gets as far as character `k`: the end, padding, or a character it refuses. */
  ghost predicate StopsAt(cs: seq<Byte>, start: Alphabet, k: nat) {
    && k <= |cs| && PAD !in cs[..k] && Values(start, cs[..k]).Ok?
    && (k < |cs| ==> cs[k] == PAD || Values(start, cs[..k + 1]).Error?)
  }

  /** The buffer holds the bytes of all that was read, then the input as it was, also after an error. */
  ghost predicate Overwritten(cs: seq<Byte>, start: Alphabet, buf: seq<Byte>) {
    exists k: nat :: StopsAt(cs, start, k) &&
      var out := Pack(Values(start, cs[..k]).value); |out| <= |cs| && buf == out + cs[|out|..]
  }

  lemma LeftBehind(cs: seq<Byte>, k: nat, start: Alphabet, alpha: Alphabet, last: Sextet, bits: int, out: seq<Byte>,
                   buf: seq<Byte>, w: int)
    requires Reading(cs, k, start, alpha, last, bits, out) && InPlace(buf, cs, w, out)
    requires k < |cs| ==> cs[k] == PAD || Values(start, cs[..k + 1]).Error?
    ensures Overwritten(cs, start, buf)
  {
    hide Values, Pack;
    assert StopsAt(cs, start, k);
    assert buf == buf[..w] + buf[w..];
  }

  lemma AllWritten(buf: seq<Byte>, cs: seq<Byte>, w: int, out: seq<Byte>)
    requires InPlace(buf, cs, w, out)
    ensures w == |out| <= |buf| == |cs| && buf[..w] == out && buf[w..] == cs[w..]
  {
  }

  lemma ReadError(cs: seq<Byte>, i: nat, start: Alphabet, alpha: Alphabet, last: Sextet, bits: int, out: seq<Byte>)
    requires 0 < i <= |cs| && cs[i - 1] != PAD && Reading(cs, i - 1, start, alpha, last, bits, out)
    requires Values(start, cs[..i]).Error?
    ensures forall behavior :: Decoded(cs, start, behavior).Error?
  {
    assert PAD !in cs[..i];
    DataLengthAtLeast(cs, i);
    ErrorStays(start, cs, i, DataLength(cs));
  }

  /** At the first padding character or the end, `out` is the packed data. */
  lemma DoneReading(cs: seq<Byte>, k: nat, start: Alphabet, alpha: Alphabet, last: Sextet, bits: int, out: seq<Byte>)
    requires Reading(cs, k, start, alpha, last, bits, out) && (k < |cs| ==> cs[k] == PAD)
    ensures forall behavior ::
              Decoded(cs, start, behavior) == if behavior != Loose && !AllPad(cs[k..]) then Error else Ok(out)
  {
    DataLengthIs(cs, k);
  }
}
