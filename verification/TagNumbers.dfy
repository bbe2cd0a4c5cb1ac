/** Numbers on the wire in event_tagging.c: integers as nibbles, the lowest
    first after their count, and tags as groups of seven bits, lowest first. */
module TagNumbers {
  import opened Bytes
  import Words

  datatype Decoded = Bad | Decoded(value: nat, length: nat)

  /* ----- integers ----- */

  /** The number of significant nibbles. */
  function Digits(n: nat): nat {
    if n == 0 then 0 else 1 + Digits(n / 16)
  }

  /** n without its j lowest nibbles. */
  function Tail(n: nat, j: nat): nat {
    if j == 0 then n else Tail(n / 16, j - 1)
  }

  /** Nibble j of an encoded integer: the count less one, then the nibbles of n. */
  function Nibble(n: nat, j: nat): nat {
    if j == 0 then (if Digits(n) > 1 then Digits(n) - 1 else 0) else Tail(n, j - 1) % 16
  }

  function Octet(hi: nat, lo: nat): byte {
    (hi % 16 * 16 + lo % 16) as byte
  }

  function EncodeInt(n: nat): seq<byte> {
    seq(Digits(n) / 2 + 1, i requires 0 <= i => Octet(Nibble(n, 2 * i), Nibble(n, 2 * i + 1)))
  }

  /** Nibble i of some bytes. */
  function NibbleAt(p: seq<byte>, i: nat): nat
    requires i / 2 < |p|
  {
    if i % 2 == 1 then p[i / 2] as nat % 16 else p[i / 2] as nat / 16
  }

  /** The number in nibbles i to last, the lowest first. */
  function Value(p: seq<byte>, i: nat, last: nat): nat
    requires last / 2 < |p|
    decreases last + 1 - i
  {
    if i > last then 0 else NibbleAt(p, i) + 16 * Value(p, i + 1, last)
  }

  /** DECODE_INT_INTERNAL at the start of p. */
  function DecodeInt(p: seq<byte>, maxNibbles: nat): Decoded {
    if p == [] then Bad
    else
      var nibbles := p[0] as nat / 16 + 1;
      if nibbles > maxNibbles || nibbles / 2 + 1 > |p| then Bad
      else Decoded(Value(p, 1, nibbles), nibbles / 2 + 1)
  }

  lemma {:induction false} TailStep(n: nat, j: nat)
    ensures Tail(n, j) == Tail(n, j) % 16 + 16 * Tail(n, j + 1)
  {
    if j > 0 {
      TailStep(n / 16, j - 1);
    } else {
      assert Tail(n, 1) == Tail(n / 16, 0);
    }
  }

  lemma {:induction false} TailEnd(n: nat, j: nat)
    requires j >= Digits(n)
    ensures Tail(n, j) == 0
  {
    if n == 0 {
      if j > 0 { TailEnd(0, j - 1); }
    } else {
      TailEnd(n / 16, j - 1);
    }
  }

  lemma {:induction false} DigitsBound(n: nat, k: nat)
    requires n < Pow16(k)
    ensures Digits(n) <= k
  {
    if n > 0 {
      DigitsBound(n / 16, k - 1);
    }
  }

  function Pow16(k: nat): nat {
    if k == 0 then 1 else 16 * Pow16(k - 1)
  }

  lemma {:induction false} NibbleSmall(n: nat, j: nat)
    requires Digits(n) <= 16
    ensures Nibble(n, j) < 16
  {
  }

  /** The bytes of an encoded integer hold its nibbles. */
  lemma {:induction false} EncodedNibble(n: nat, suffix: seq<byte>, j: nat)
    requires Digits(n) <= 16 && j / 2 < Digits(n) / 2 + 1
    ensures NibbleAt(EncodeInt(n) + suffix, j) == Nibble(n, j)
  {
    hide Nibble, Digits;
    var e := EncodeInt(n);
    var i := j / 2;
    assert (e + suffix)[i] == e[i] == Octet(Nibble(n, 2 * i), Nibble(n, 2 * i + 1));
    NibbleSmall(n, 2 * i);
    NibbleSmall(n, 2 * i + 1);
    OctetParts(Nibble(n, 2 * i), Nibble(n, 2 * i + 1));
    assert j == 2 * i || j == 2 * i + 1;
  }

  lemma {:induction false} OctetParts(hi: nat, lo: nat)
    requires hi < 16 && lo < 16
    ensures Octet(hi, lo) as nat / 16 == hi && Octet(hi, lo) as nat % 16 == lo
  {
  }

  lemma {:induction false} EncodedValue(n: nat, suffix: seq<byte>, i: nat, last: nat)
    requires Digits(n) <= 16 && last / 2 < Digits(n) / 2 + 1 && last >= Digits(n) && 1 <= i <= last + 1
    ensures last / 2 < |EncodeInt(n) + suffix| && Value(EncodeInt(n) + suffix, i, last) == Tail(n, i - 1)
    decreases last + 1 - i
  {
    hide Digits, Octet;
    if i > last {
      TailEnd(n, i - 1);
    } else {
      EncodedNibble(n, suffix, i);
      EncodedValue(n, suffix, i + 1, last);
      TailStep(n, i - 1);
    }
  }

  /** Integers of up to maxNibbles nibbles come back, whatever follows them. */
  lemma {:induction false} IntRoundTrip(n: nat, maxNibbles: nat, suffix: seq<byte>)
    requires n < Pow16(maxNibbles) && 1 <= maxNibbles <= 16
    ensures DecodeInt(EncodeInt(n) + suffix, maxNibbles) == Decoded(n, |EncodeInt(n)|)
  {
    hide Octet, Value;
    DigitsBound(n, maxNibbles);
    var p := EncodeInt(n) + suffix;
    var last := if Digits(n) > 1 then Digits(n) else 1;
    EncodedNibble(n, suffix, 0);
    EncodedValue(n, suffix, 1, last);
    assert p[0] as nat / 16 == Nibble(n, 0);
  }

  lemma {:induction false} TailIs(n: nat, j: nat)
    ensures Pow16(j) > 0 && Tail(n, j) == n / Pow16(j)
  {
    if j > 0 {
      TailIs(n / 16, j - 1);
      DivTwice(n, 16, Pow16(j - 1));
    }
  }

  /** The format of an integer: its number of significant nibbles less one, then its
      nibbles, the lowest first, and a zero if one is left over. */
  lemma {:induction false} LowNibbleFirst(n: nat, k: nat, j: nat)
    requires if n == 0 then k == 1 else 1 <= k <= 16 && Pow16(k - 1) <= n < Pow16(k)
    requires j / 2 < k / 2 + 1
    ensures |EncodeInt(n)| == k / 2 + 1 && Pow16(j) > 0
    ensures NibbleAt(EncodeInt(n), 0) == k - 1
    ensures j > 0 ==> NibbleAt(EncodeInt(n), j) == n / Pow16(j - 1) % 16
  {
    hide EncodeInt, Octet, NibbleAt;
    if n > 0 { DigitsAre(n, k); }
    EncodeLength(n);
    assert EncodeInt(n) + [] == EncodeInt(n);
    EncodedNibble(n, [], 0);
    EncodedNibble(n, [], j);
    TailIs(n, j);
    if j > 0 { TailIs(n, j - 1); }
  }

  lemma {:induction false} EncodeLength(n: nat)
    ensures |EncodeInt(n)| == Digits(n) / 2 + 1
  {
  }

  lemma {:induction false} DigitsAre(n: nat, k: nat)
    requires k >= 1 && Pow16(k - 1) <= n < Pow16(k)
    ensures Digits(n) == k
  {
    if k == 1 {
      assert Pow16(1) == 16 * Pow16(0) && Digits(n / 16) == 0;
    } else {
      assert Pow16(k) == 16 * Pow16(k - 1) && Pow16(k - 1) == 16 * Pow16(k - 2);
      DigitsAre(n / 16, k - 1);
    }
  }

  /** The number 0x12 is written 12 10: two nibbles, then the 2 and the 1. */
  lemma {:induction false} LowNibbleExample()
    ensures EncodeInt(0x12) == [0x12, 0x10]
  {
    assert Digits(1) == 1 && Digits(0x12) == 2;
    assert Tail(0x12, 1) == Tail(1, 0) && Tail(0x12, 2) == Tail(1, 1) == Tail(0, 0);
  }

  lemma {:induction false} ValueBound(p: seq<byte>, i: nat, last: nat)
    requires last / 2 < |p| && i <= last + 1
    ensures Value(p, i, last) < Pow16(last + 1 - i)
    decreases last + 1 - i
  {
    if i <= last { ValueBound(p, i + 1, last); }
  }

  /** A number is read exactly when its count allows it and all its bytes are there,
      and then fits the width asked for. */
  lemma {:induction false} DecodedFits(p: seq<byte>, maxNibbles: nat)
    ensures var r := DecodeInt(p, maxNibbles);
            && (r.Decoded? <==> p != [] && p[0] as nat / 16 < maxNibbles && (p[0] as nat / 16 + 1) / 2 < |p|)
            && (r.Decoded? ==> r.value < Pow16(p[0] as nat / 16 + 1) && r.length == (p[0] as nat / 16 + 1) / 2 + 1)
  {
    hide Value;
    if p != [] && (p[0] as nat / 16 + 1) / 2 < |p| {
      ValueBound(p, 1, p[0] as nat / 16 + 1);
    }
  }

  /* ----- tags ----- */

  function EncodeTag(t: nat): seq<byte> {
    if t < 128 then [t as byte] else [(t % 128 + 128) as byte] + EncodeTag(t / 128)
  }

  function Pow128(i: nat): nat {
    if i == 0 then 1 else 128 * Pow128(i - 1)
  }

  /** The loop of decode_tag_internal from byte i, with the number so far. */
  function DecodeTagFrom(p: seq<byte>, i: nat, number: nat): Decoded
    decreases |p| - i
  {
    if i >= |p| then Bad
    else
      var low := p[i] as nat % 128;
      if i > 4 || (i == 4 && low > 15) then Bad
      else if p[i] < 128 then Decoded(number + low * Pow128(i), i + 1)
      else DecodeTagFrom(p, i + 1, number + low * Pow128(i))
  }

  function DecodeTag(p: seq<byte>): Decoded {
    DecodeTagFrom(p, 0, 0)
  }

  lemma {:induction false} TagFrom(pre: seq<byte>, t: nat, suffix: seq<byte>, number: nat)
    requires |pre| <= 4 && t * Pow128(|pre|) < Words.TWO32
    ensures DecodeTagFrom(pre + EncodeTag(t) + suffix, |pre|, number) ==
            Decoded(number + t * Pow128(|pre|), |pre| + |EncodeTag(t)|)
    decreases t
  {
    var p, i := pre + EncodeTag(t) + suffix, |pre|;
    var m := Pow128(i);
    assert p[i] == EncodeTag(t)[0];
    LastGroup(t, i);
    if t >= 128 {
      var b := (t % 128 + 128) as byte;
      assert pre + EncodeTag(t) + suffix == (pre + [b]) + EncodeTag(t / 128) + suffix;
      GroupStep(t, m);
      TagFrom(pre + [b], t / 128, suffix, number + t % 128 * m);
    }
  }

  lemma {:induction false} GroupStep(t: nat, m: nat)
    ensures t * m == t % 128 * m + t / 128 * (128 * m)
  {
    var q, r := t / 128, t % 128;
    assert t == 128 * q + r;
    assert (128 * q + r) * m == 128 * q * m + r * m;
    assert q * (128 * m) == 128 * q * m;
  }

  /** In the fifth group a 32-bit tag has only four bits. */
  lemma {:induction false} LastGroup(t: nat, i: nat)
    requires i <= 4 && t * Pow128(i) < Words.TWO32
    ensures i == 4 ==> t < 16
    ensures t >= 128 ==> i < 4
  {
    assert Pow128(4) == 0x1000_0000;
  }

  /** Every 32-bit tag comes back, whatever follows it. */
  lemma {:induction false} TagRoundTrip(t: nat, suffix: seq<byte>)
    requires t < Words.TWO32
    ensures DecodeTag(EncodeTag(t) + suffix) == Decoded(t, |EncodeTag(t)|)
  {
    TagFrom([], t, suffix, 0);
    assert [] + EncodeTag(t) + suffix == EncodeTag(t) + suffix;
  }

  lemma {:induction false} QuotientIs(n: nat, d: nat, q: nat, r: nat)
    requires n == d * q + r && r < d
    ensures n / d == q
  {
    assert n == d * (n / d) + n % d;
    OneMore(d, n / d, q);
    OneMore(d, q, n / d);
  }

  lemma {:induction false} OneMore(d: nat, a: nat, b: nat)
    ensures a < b ==> d * a + d <= d * b
  {
    var k := b - a - 1;
    if a < b {
      assert b == a + 1 + k;
      assert d * (a + 1 + k) == d * a + d + d * k;
      assert d * k >= 0;
    }
  }

  lemma {:induction false} PowPositive(i: nat)
    ensures Pow128(i) > 0
  {
    if i > 0 {
      PowPositive(i - 1);
    }
  }

  lemma {:induction false} DivTwice(t: nat, d: nat, m: nat)
    requires m > 0 && d > 0
    ensures d * m > 0 && t / (d * m) == t / d / m
  {
    var a := t / d;
    var b, s, low := a / m, a % m, t % d;
    assert a == m * b + s && t == d * a + low;
    assert t == d * m * b + (d * s + low) by {
      assert d * (m * b + s) == d * m * b + d * s;
    }
    OneMore(d, s, m);
    assert d * s + low < d * m;
    QuotientIs(t, d * m, b, d * s + low);
  }

  /** Byte i of a tag holds its group number i, the lowest group first, and the bit
      that says whether another follows. */
  lemma {:induction false} LowGroupFirst(t: nat, i: nat)
    requires i < |EncodeTag(t)|
    ensures Pow128(i) > 0 && EncodeTag(t)[i] as nat % 128 == t / Pow128(i) % 128
    ensures EncodeTag(t)[i] >= 128 <==> i < |EncodeTag(t)| - 1
  {
    PowPositive(i);
    if i > 0 {
      LowGroupFirst(t / 128, i - 1);
      DivTwice(t, 128, Pow128(i - 1));
    } else if t >= 128 {
      TagNotEmpty(t / 128);
    }
  }

  /** The tag in p ends with byte k. */
  ghost predicate TagEnds(p: seq<byte>, k: nat) {
    k < |p| && p[k] < 128 && (forall i | 0 <= i < k :: p[i] >= 128)
  }

  predicate FitsTag(p: seq<byte>, k: nat)
    requires k < |p|
  {
    k < 4 || (k == 4 && p[4] < 16)
  }

  /** The number in bytes i to k, in groups of seven bits, the lowest first. */
  function Groups(p: seq<byte>, i: nat, k: nat): nat
    requires k < |p|
    decreases k + 1 - i
  {
    if i > k then 0 else p[i] as nat % 128 + 128 * Groups(p, i + 1, k)
  }

  lemma {:induction false} GroupsBound(p: seq<byte>, i: nat, k: nat)
    requires i <= k < |p| && p[k] < 128
    ensures Groups(p, i, k) < (p[k] as nat + 1) * Pow128(k - i)
    decreases k - i
  {
    if i == k {
      assert Groups(p, i + 1, k) == 0 && Pow128(0) == 1;
    } else {
      GroupsBound(p, i + 1, k);
      var c, m := p[k] as nat + 1, Pow128(k - i - 1);
      assert c * (128 * m) == 128 * (c * m);
    }
  }

  lemma {:induction false} NextGroup(low: nat, g: nat, m: nat)
    ensures (low + 128 * g) * m == low * m + g * (128 * m)
  {
  }

  lemma {:induction false} TagFromReads(p: seq<byte>, i: nat, k: nat, number: nat)
    requires TagEnds(p, k) && i <= k
    ensures DecodeTagFrom(p, i, number) == if FitsTag(p, k) then Decoded(number + Groups(p, i, k) * Pow128(i), k + 1) else Bad
    decreases k - i
  {
    var low, m := p[i] as nat % 128, Pow128(i);
    if i == k {
      assert Groups(p, i + 1, k) == 0;
      assert Groups(p, i, k) == low;
    } else if i <= 3 {
      TagFromReads(p, i + 1, k, number + low * m);
      NextGroup(low, Groups(p, i + 1, k), m);
    }
  }

  lemma {:induction false} TagRunsOut(p: seq<byte>, i: nat, number: nat)
    requires i <= |p| && forall j | 0 <= j < |p| :: p[j] >= 128
    ensures DecodeTagFrom(p, i, number) == Bad
    decreases |p| - i
  {
    if i < |p| { TagRunsOut(p, i + 1, number + p[i] as nat % 128 * Pow128(i)); }
  }

  /** A tag is read exactly when some byte ends it within 32 bits, and it is the
      number that its groups spell. */
  lemma {:induction false} TagReads(p: seq<byte>)
    ensures DecodeTag(p).Decoded? <==> exists k: nat :: TagEnds(p, k) && FitsTag(p, k)
    ensures forall k: nat | TagEnds(p, k) && FitsTag(p, k) :: DecodeTag(p) == Decoded(Groups(p, 0, k), k + 1) && Groups(p, 0, k) < Words.TWO32
  {
    hide DecodeTagFrom;
    if exists j :: 0 <= j < |p| && p[j] < 128 {
      var k := FirstLow(p);
      TagFromReads(p, 0, k, 0);
      GroupsBound(p, 0, k);
      if FitsTag(p, k) { SmallTag(p[k] as nat + 1, k); }
      forall j: nat | TagEnds(p, j) ensures j == k { assert TagEnds(p, k); }
    } else {
      TagRunsOut(p, 0, 0);
      assert DecodeTag(p) == Bad;
    }
  }

  lemma {:induction false} SmallTag(c: nat, k: nat)
    requires c <= 128 && k <= 4 && (k == 4 ==> c <= 16)
    ensures c * Pow128(k) <= Words.TWO32
  {
    assert Pow128(1) == 128;
    assert Pow128(2) == 0x4000;
    assert Pow128(3) == 0x200000;
    assert Pow128(4) == 0x10000000;
    var m := Pow128(k);
    if k == 4 { OneMore(m, c, 16); } else { OneMore(m, c, 128); assert m <= 0x200000; }
  }

  lemma {:induction false} FirstLow(p: seq<byte>) returns (k: nat)
    requires exists j :: 0 <= j < |p| && p[j] < 128
    ensures TagEnds(p, k)
  {
    k := 0;
    while p[k] >= 128
      invariant k < |p| && (forall i | 0 <= i < k :: p[i] >= 128)
      invariant exists j :: k <= j < |p| && p[j] < 128
      decreases |p| - k
    {
      k := k + 1;
    }
  }

  lemma {:induction false} TagNotEmpty(t: nat)
    ensures |EncodeTag(t)| > 0
  {
  }

  /** The tag of the comment, 0x166, is written e6 02. */
  lemma {:induction false} LowGroupExample()
    ensures EncodeTag(0x166) == [0xe6, 0x02]
  {
    assert EncodeTag(2) == [2];
  }
}
