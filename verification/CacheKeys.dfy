/** The text keys of the expert cache (src/vitriol-expert-cache.cpp, `make_key`). */
module CacheKeys {

  const KEY_BUFFER := 64
  const TYPE_BUFFER := 16

  predicate IsDigit(c: char) {
    '0' <= c <= '9'
  }

  function Digit(d: int): (c: char)
    requires 0 <= d < 10
    ensures IsDigit(c) && c as int == d + 48
  {
    (d + 48) as char
  }

  function Digits(n: nat): (s: string)
    ensures s != [] && forall i :: 0 <= i < |s| ==> IsDigit(s[i])
  {
    if n < 10 then [Digit(n)] else Digits(n / 10) + [Digit(n % 10)]
  }

  /** `%d`. */
  function Decimal(n: int): (s: string)
    ensures s != [] && forall i :: 0 <= i < |s| ==> IsDigit(s[i]) || s[i] == '-'
  {
    if n < 0 then ['-'] + Digits(-n) else Digits(n)
  }

  function Truncate(s: string, n: nat): string {
    if |s| <= n then s else s[..n]
  }

  /** `%d:%d:%s` printed into a buffer of 64 characters. */
  function MakeKey(layer: int, expert: int, kind: string): string {
    Truncate(Decimal(layer) + ":" + (Decimal(expert) + ":" + kind), KEY_BUFFER - 1)
  }

  /** What an entry keeps of the type name. */
  function StoredKind(kind: string): string {
    Truncate(kind, TYPE_BUFFER - 1)
  }

  predicate Int32(n: int) {
    -0x8000_0000 <= n < 0x8000_0000
  }

  // ---- Keys of short type names are not cut off ----

  function Pow10(k: nat): nat {
    if k == 0 then 1 else 10 * Pow10(k - 1)
  }

  lemma {:induction false} DigitsLength(n: nat, k: nat)
    requires k >= 1 && n < Pow10(k)
    ensures |Digits(n)| <= k
  {
    if n >= 10 {
      DigitsLength(n / 10, k - 1);
    }
  }

  lemma DecimalLength(n: int)
    requires Int32(n)
    ensures 1 <= |Decimal(n)| <= 11
  {
    assert Pow10(5) == 100000 && Pow10(10) == 100000 * 100000 by {
      assert Pow10(6) == 1000000 && Pow10(7) == 10000000 && Pow10(8) == 100000000 && Pow10(9) == 1000000000;
    }
    DigitsLength(if n < 0 then -n else n, 10);
  }

  lemma KeyOfShortKind(layer: int, expert: int, kind: string)
    requires Int32(layer) && Int32(expert) && |kind| < TYPE_BUFFER
    ensures MakeKey(layer, expert, kind) == Decimal(layer) + ":" + (Decimal(expert) + ":" + kind)
  {
    DecimalLength(layer);
    DecimalLength(expert);
  }

  /** The key computed from a stored entry is the key it was filed under exactly for type names of at
      most 15 characters. */
  lemma StoredKeyMatches(layer: int, expert: int, kind: string)
    requires Int32(layer) && Int32(expert)
    ensures MakeKey(layer, expert, StoredKind(kind)) == MakeKey(layer, expert, kind) <==> |kind| < TYPE_BUFFER
  {
    hide Decimal;
    DecimalLength(layer);
    DecimalLength(expert);
  }

  // ---- Keys of short type names tell experts apart ----

  function ParseDigits(s: string): int {
    if s == [] then 0 else ParseDigits(s[..|s| - 1]) * 10 + (s[|s| - 1] as int - 48)
  }

  lemma {:induction false} ParseOfDigits(n: nat)
    ensures ParseDigits(Digits(n)) == n
  {
    if n < 10 {
      assert [Digit(n)][..0] == [];
    } else {
      ParseOfDigits(n / 10);
      assert Digits(n)[..|Digits(n)| - 1] == Digits(n / 10);
    }
  }

  lemma DecimalInjective(m: int, n: int)
    requires Decimal(m) == Decimal(n)
    ensures m == n
  {
    var s := Decimal(m);
    assert m < 0 <==> s[0] == '-';
    assert n < 0 <==> s[0] == '-';
    if m < 0 {
      assert s[1..] == Digits(-m) && s[1..] == Digits(-n);
      ParseOfDigits(-m);
      ParseOfDigits(-n);
    } else {
      ParseOfDigits(m);
      ParseOfDigits(n);
    }
  }

  /** Two texts with a colon after a colon-free head have the same head and the same rest. */
  lemma {:induction false} SplitAtColon(a: string, x: string, b: string, y: string)
    requires ':' !in a && ':' !in b && a + ":" + x == b + ":" + y
    ensures a == b && x == y
  {
    var s := a + ":" + x;
    assert a != [] ==> s[0] == a[0];
    assert b != [] ==> s[0] == b[0];
    assert a == [] <==> s[0] == ':';
    assert b == [] <==> s[0] == ':';
    if a == [] {
      assert x == s[1..] && y == s[1..];
    } else {
      assert s[0] == a[0] && s[0] == b[0];
      assert s[1..] == a[1..] + ":" + x && s[1..] == b[1..] + ":" + y;
      SplitAtColon(a[1..], x, b[1..], y);
      assert a == [a[0]] + a[1..] && b == [b[0]] + b[1..];
    }
  }

  lemma NoColon(n: int)
    ensures ':' !in Decimal(n)
  {
  }

  lemma KeyInjective(layer: int, expert: int, kind: string, layer': int, expert': int, kind': string)
    requires Int32(layer) && Int32(expert) && |kind| < TYPE_BUFFER
    requires Int32(layer') && Int32(expert') && |kind'| < TYPE_BUFFER
    requires MakeKey(layer, expert, kind) == MakeKey(layer', expert', kind')
    ensures layer == layer' && expert == expert' && kind == kind'
  {
    hide Decimal, MakeKey;
    KeyOfShortKind(layer, expert, kind);
    KeyOfShortKind(layer', expert', kind');
    NoColon(layer);
    NoColon(layer');
    NoColon(expert);
    NoColon(expert');
    SplitAtColon(Decimal(layer), Decimal(expert) + ":" + kind, Decimal(layer'), Decimal(expert') + ":" + kind');
    SplitAtColon(Decimal(expert), kind, Decimal(expert'), kind');
    DecimalInjective(layer, layer');
    DecimalInjective(expert, expert');
  }

  // ---- Keys of long type names are nobody else's ----

  /** A key printed for a type name that does not fit an entry. */
  ghost predicate LongKey(key: string) {
    exists layer, expert, kind ::
      Int32(layer) && Int32(expert) && |kind| >= TYPE_BUFFER && key == MakeKey(layer, expert, kind)
  }

  lemma KeyOfLongKind(layer: int, expert: int, kind: string) returns (kept: string)
    requires Int32(layer) && Int32(expert) && |kind| >= TYPE_BUFFER
    ensures |kept| >= TYPE_BUFFER
    ensures MakeKey(layer, expert, kind) == Decimal(layer) + ":" + (Decimal(expert) + ":" + kept)
  {
    hide Decimal;
    DecimalLength(layer);
    DecimalLength(expert);
    var head := |Decimal(layer)| + 1 + |Decimal(expert)| + 1;
    kept := if head + |kind| < KEY_BUFFER then kind else kind[..KEY_BUFFER - 1 - head];
  }

  /** Long keys still tell layers and experts apart. */
  lemma LongKeyInjective(layer: int, expert: int, kind: string, layer': int, expert': int, kind': string)
    requires Int32(layer) && Int32(expert) && |kind| >= TYPE_BUFFER
    requires Int32(layer') && Int32(expert') && |kind'| >= TYPE_BUFFER
    requires MakeKey(layer, expert, kind) == MakeKey(layer', expert', kind')
    ensures layer == layer' && expert == expert'
  {
    hide Decimal, MakeKey;
    var kept := KeyOfLongKind(layer, expert, kind);
    var kept' := KeyOfLongKind(layer', expert', kind');
    NoColon(layer);
    NoColon(layer');
    NoColon(expert);
    NoColon(expert');
    SplitAtColon(Decimal(layer), Decimal(expert) + ":" + kept, Decimal(layer'), Decimal(expert') + ":" + kept');
    SplitAtColon(Decimal(expert), kept, Decimal(expert'), kept');
    DecimalInjective(layer, layer');
    DecimalInjective(expert, expert');
  }

  /** No entry's recomputed key is the key of a long type name. */
  lemma LongKeyIsNoVictim(key: string, layer: int, expert: int, kind: string)
    requires LongKey(key) && Int32(layer) && Int32(expert) && |kind| < TYPE_BUFFER
    ensures key != MakeKey(layer, expert, kind)
  {
    hide Decimal, MakeKey;
    if key == MakeKey(layer, expert, kind) {
      var l, x, k :| Int32(l) && Int32(x) && |k| >= TYPE_BUFFER && key == MakeKey(l, x, k);
      var kept := KeyOfLongKind(l, x, k);
      KeyOfShortKind(layer, expert, kind);
      NoColon(layer);
      NoColon(l);
      NoColon(expert);
      NoColon(x);
      SplitAtColon(Decimal(layer), Decimal(expert) + ":" + kind, Decimal(l), Decimal(x) + ":" + kept);
      SplitAtColon(Decimal(expert), kind, Decimal(x), kept);
    }
  }
}
