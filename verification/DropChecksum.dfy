/** The rotate-and-xor checksum of a drop packet (vitriol-daemon/vitriol_alka_kernel.h,
    alka-executor/vitriol_alka_user.h) and the check EXECUTE makes (vitriol-daemon/vitriol.c).

    A drop is its 32 packed bytes: op_code 1, flags 1, vessel_id 2, src_addr 8, dst_addr 8, size 4,
    reserved 4, and the checksum in the last 4, lowest byte first. */
module DropChecksum {

  const CRC_OFFSET := 1 + 1 + 2 + 8 + 8 + 4 + 4

  const DROP_SIZE := CRC_OFFSET + 4

  function Rol(c: bv32): bv32 {
    (c << 1) | (c >> 31)
  }

  function Xor32(x: bv32, y: bv32): bv32 {
    x ^ y
  }

  function Xor8(a: bv8, b: bv8): bv8 {
    a ^ b
  }

  function Wide(b: bv8): bv32 {
    b as bv32
  }

  /** One turn of the loop. */
  function Mix(crc: bv32, b: bv8): bv32 {
    Xor32(Rol(crc), Wide(b))
  }

  /** The checksum of `bytes` continued from `crc`. */
  function Crc(bytes: seq<bv8>, crc: bv32): bv32 {
    if bytes == [] then crc else Crc(bytes[1..], Mix(crc, bytes[0]))
  }

  function Xor(a: seq<bv8>, b: seq<bv8>): (r: seq<bv8>)
    requires |a| == |b|
    ensures |r| == |a| && forall i :: 0 <= i < |a| ==> r[i] == Xor8(a[i], b[i])
  {
    seq(|a|, i requires 0 <= i < |a| => Xor8(a[i], b[i]))
  }

  // ---- Algebra, for byte strings of any length ----

  lemma RolXor(x: bv32, y: bv32)
    ensures Rol(Xor32(x, y)) == Xor32(Rol(x), Rol(y))
  {
  }

  lemma RolInjective(x: bv32, y: bv32)
    ensures Rol(x) == Rol(y) ==> x == y
  {
  }

  lemma WideXor(a: bv8, b: bv8)
    ensures Wide(Xor8(a, b)) == Xor32(Wide(a), Wide(b))
  {
  }

  lemma XorSwap(p: bv32, q: bv32, r: bv32, s: bv32)
    ensures Xor32(Xor32(p, q), Xor32(r, s)) == Xor32(Xor32(p, r), Xor32(q, s))
  {
    hide Xor32;
    calc {
      Xor32(Xor32(p, q), Xor32(r, s));
      { XorLaws(p, q, Xor32(r, s)); }
      Xor32(p, Xor32(q, Xor32(r, s)));
      { XorLaws(q, r, s); XorLaws(r, q, s); }
      Xor32(p, Xor32(r, Xor32(q, s)));
      { XorLaws(p, r, Xor32(q, s)); }
      Xor32(Xor32(p, r), Xor32(q, s));
    }
  }

  lemma XorLaws(p: bv32, q: bv32, r: bv32)
    ensures Xor32(Xor32(p, q), r) == Xor32(p, Xor32(q, r)) && Xor32(p, q) == Xor32(q, p)
  {
  }

  lemma MixXor(x: bv32, y: bv32, a: bv8, b: bv8)
    ensures Mix(Xor32(x, y), Xor8(a, b)) == Xor32(Mix(x, a), Mix(y, b))
  {
    hide Rol, Wide, Xor32, Xor8;
    RolXor(x, y);
    WideXor(a, b);
    XorSwap(Rol(x), Rol(y), Wide(a), Wide(b));
  }

  /** The checksum is linear over xor, in the bytes and in the starting value. */
  lemma {:induction false} CrcIsLinear(a: seq<bv8>, b: seq<bv8>, x: bv32, y: bv32)
    requires |a| == |b|
    ensures Crc(Xor(a, b), Xor32(x, y)) == Xor32(Crc(a, x), Crc(b, y))
    decreases |a|
  {
    hide Mix, Xor32, Xor8;
    if a != [] {
      MixXor(x, y, a[0], b[0]);
      assert Xor(a, b)[1..] == Xor(a[1..], b[1..]);
      CrcIsLinear(a[1..], b[1..], Mix(x, a[0]), Mix(y, b[0]));
    }
  }

  lemma XorCancel(p: bv32, q: bv32, w: bv32)
    ensures Xor32(p, w) == Xor32(q, w) ==> p == q
    ensures Xor32(w, p) == Xor32(w, q) ==> p == q
  {
  }

  lemma MixInjective(x: bv32, y: bv32, b: bv8)
    ensures Mix(x, b) == Mix(y, b) ==> x == y
  {
    hide Rol, Wide, Xor32;
    XorCancel(Rol(x), Rol(y), Wide(b));
    RolInjective(x, y);
  }

  lemma WideInjective(a: bv8, b: bv8)
    ensures Wide(a) == Wide(b) ==> a == b
  {
  }

  lemma MixByteInjective(x: bv32, a: bv8, b: bv8)
    ensures Mix(x, a) == Mix(x, b) ==> a == b
  {
    hide Rol, Wide, Xor32;
    XorCancel(Wide(a), Wide(b), Rol(x));
    WideInjective(a, b);
  }

  lemma {:induction false} CrcStartInjective(s: seq<bv8>, x: bv32, y: bv32)
    ensures Crc(s, x) == Crc(s, y) ==> x == y
    decreases |s|
  {
    hide Mix;
    if s != [] {
      MixInjective(x, y, s[0]);
      CrcStartInjective(s[1..], Mix(x, s[0]), Mix(y, s[0]));
    }
  }

  /** Any change confined to one byte changes the checksum. */
  lemma {:induction false} OneByteChanges(s: seq<bv8>, i: nat, b: bv8, x: bv32)
    requires i < |s| && b != s[i]
    ensures Crc(s[i := b], x) != Crc(s, x)
    decreases |s|
  {
    hide Mix;
    if i == 0 {
      assert s[0 := b][1..] == s[1..];
      MixByteInjective(x, s[0], b);
      CrcStartInjective(s[1..], Mix(x, s[0]), Mix(x, b));
    } else {
      assert s[i := b][1..] == s[1..][i - 1 := b];
      OneByteChanges(s[1..], i - 1, b, Mix(x, s[0]));
    }
  }

  lemma XorEqual(x: bv32, y: bv32)
    ensures x == y <==> Xor32(x, y) == 0
  {
    hide Xor32;
    XorSelf(y);
    XorCancel(x, y, y);
  }

  lemma XorSelf(x: bv32)
    ensures Xor32(x, x) == 0
  {
  }

  /** A change goes unnoticed exactly when the checksum of the difference is zero. */
  lemma UnnoticedExactly(a: seq<bv8>, b: seq<bv8>)
    requires |a| == |b|
    ensures Crc(a, 0) == Crc(b, 0) <==> Crc(Xor(a, b), 0) == 0
  {
    hide Xor32, Crc;
    CrcIsLinear(a, b, 0, 0);
    XorEqual(Crc(a, 0), Crc(b, 0));
    XorZero(0);
  }

  /** Two neighbouring bytes can hide a change: a bit flipped in one is undone by the next bit
      flipped in the other. */
  lemma {:induction false} NeighboursHide(s: seq<bv8>, i: nat, d: bv8, x: bv32)
    requires i + 1 < |s| && d < 0x80
    ensures Crc(s[i := Xor8(s[i], d)][i + 1 := Xor8(s[i + 1], d << 1)], x) == Crc(s, x)
    decreases |s|
  {
    hide Mix, Xor8;
    var a, b := Xor8(s[i], d), Xor8(s[i + 1], d << 1);
    var t := s[i := a][i + 1 := b];
    if i == 0 {
      assert t[1..] == [b] + s[2..] && s[1..] == [s[1]] + s[2..];
      assert ([b] + s[2..])[1..] == s[2..] && ([s[1]] + s[2..])[1..] == s[2..];
      PairHides(x, s[0], s[1], d);
    } else {
      assert t[1..] == s[1..][i - 1 := a][i := b];
      NeighboursHide(s[1..], i - 1, d, Mix(x, s[0]));
    }
  }

  lemma PairHides(x: bv32, a: bv8, b: bv8, d: bv8)
    requires d < 0x80
    ensures Mix(Mix(x, Xor8(a, d)), Xor8(b, d << 1)) == Mix(Mix(x, a), b)
  {
    hide Mix, Xor32, Xor8;
    var e := d << 1;
    calc {
      Mix(Mix(x, Xor8(a, d)), Xor8(b, e));
      { MixXor(x, 0, a, d); XorZero(x); }
      Mix(Xor32(Mix(x, a), Mix(0, d)), Xor8(b, e));
      { MixXor(Mix(x, a), Mix(0, d), b, e); }
      Xor32(Mix(Mix(x, a), b), Mix(Mix(0, d), e));
      { BitMovesOn(d); XorZero(Mix(Mix(x, a), b)); }
      Mix(Mix(x, a), b);
    }
  }

  lemma XorZero(x: bv32)
    ensures Xor32(x, 0) == x
  {
  }

  lemma BitMovesOn(d: bv8)
    requires d < 0x80
    ensures Mix(Mix(0, d), d << 1) == 0
  {
    assert Mix(0, d) == Wide(d);
    assert Rol(Wide(d)) == Wide(d << 1);
  }

  // ---- The packet check ----

  function CrcField(drop: seq<bv8>): bv32
    requires |drop| == DROP_SIZE
  {
    (drop[28] as bv32) | ((drop[29] as bv32) << 8) | ((drop[30] as bv32) << 16) | ((drop[31] as bv32) << 24)
  }

  /** Byte `i` of a number, the lowest first. */
  function ByteAt(x: bv32, i: nat): bv32 {
    if i == 0 then x & 0xFF else if i == 1 then (x >> 8) & 0xFF else if i == 2 then (x >> 16) & 0xFF else x >> 24
  }

  lemma FieldBytes(drop: seq<bv8>)
    requires |drop| == DROP_SIZE
    ensures ByteAt(CrcField(drop), 0) == Wide(drop[28]) && ByteAt(CrcField(drop), 1) == Wide(drop[29])
    ensures ByteAt(CrcField(drop), 2) == Wide(drop[30]) && ByteAt(CrcField(drop), 3) == Wide(drop[31])
  {
  }

  lemma SameBytes(x: bv32, y: bv32)
    requires ByteAt(x, 0) == ByteAt(y, 0) && ByteAt(x, 1) == ByteAt(y, 1) && ByteAt(x, 2) == ByteAt(y, 2) && ByteAt(x, 3) == ByteAt(y, 3)
    ensures x == y
  {
  }

  /** The field holds the number whose bytes stand, lowest first, behind the covered part. */
  lemma FieldIsLittleEndian(drop: seq<bv8>, x: bv32)
    requires |drop| == DROP_SIZE
    ensures CrcField(drop) == x <==>
            && Wide(drop[CRC_OFFSET]) == ByteAt(x, 0) && Wide(drop[CRC_OFFSET + 1]) == ByteAt(x, 1)
            && Wide(drop[CRC_OFFSET + 2]) == ByteAt(x, 2) && Wide(drop[CRC_OFFSET + 3]) == ByteAt(x, 3)
  {
    hide CrcField, ByteAt, Wide;
    FieldBytes(drop);
    if ByteAt(CrcField(drop), 0) == ByteAt(x, 0) && ByteAt(CrcField(drop), 1) == ByteAt(x, 1)
       && ByteAt(CrcField(drop), 2) == ByteAt(x, 2) && ByteAt(CrcField(drop), 3) == ByteAt(x, 3) {
      SameBytes(CrcField(drop), x);
    }
  }

  predicate Accepts(drop: seq<bv8>)
    requires |drop| == DROP_SIZE
  {
    CrcField(drop) == 0 || CrcField(drop) == Crc(drop[..CRC_OFFSET], 0)
  }

  /** Altering one covered byte of a correctly checksummed drop is rejected, unless the checksum field
      is zero, which switches the check off. */
  lemma AlteredDropRejected(drop: seq<bv8>, i: nat, b: bv8)
    requires |drop| == DROP_SIZE && CrcField(drop) == Crc(drop[..CRC_OFFSET], 0)
    requires i < CRC_OFFSET && b != drop[i]
    ensures Accepts(drop[i := b]) <==> CrcField(drop) == 0
  {
    hide Crc;
    var altered := drop[i := b];
    assert altered[..CRC_OFFSET] == drop[..CRC_OFFSET][i := b];
    assert CrcField(altered) == CrcField(drop);
    OneByteChanges(drop[..CRC_OFFSET], i, b, 0);
  }

  // ---- The loop, the same in kernel and user space ----

  lemma {:induction false} CrcSnoc(s: seq<bv8>, b: bv8, x: bv32)
    ensures Crc(s + [b], x) == Mix(Crc(s, x), b)
    decreases |s|
  {
    hide Mix;
    if s == [] {
      assert s + [b] == [b] && [b][1..] == [];
    } else {
      assert (s + [b])[0] == s[0] && (s + [b])[1..] == s[1..] + [b];
      CrcSnoc(s[1..], b, Mix(x, s[0]));
    }
  }

  method ComputeDropCrc(drop: seq<bv8>) returns (crc: bv32)
    requires |drop| == DROP_SIZE
    ensures crc == Crc(drop[..CRC_OFFSET], 0)
  {
    hide Crc;
    crc := 0;
    NothingRead(drop);
    for i := 0 to CRC_OFFSET
      invariant crc == Crc(drop[..i], 0)
    {
      CrcSnoc(drop[..i], drop[i], 0);
      assert drop[..i + 1] == drop[..i] + [drop[i]];
      crc := (crc << 1) | (crc >> 31);
      crc := crc ^ (drop[i] as bv32);
    }
  }

  lemma NothingRead(drop: seq<bv8>)
    ensures Crc(drop[..0], 0) == 0
  {
  }

  method CheckDrop(drop: seq<bv8>) returns (ok: bool)
    requires |drop| == DROP_SIZE
    ensures ok == Accepts(drop)
  {
    var expected := ComputeDropCrc(drop);
    ok := !(CrcField(drop) != 0 && CrcField(drop) != expected);
  }
}
