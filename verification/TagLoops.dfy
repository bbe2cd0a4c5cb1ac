/** The loops of event_tagging.c, over byte arrays. */
module TagLoops {
  import opened Bytes
  import opened TagNumbers

  /** Nibble j of a byte array. */
  ghost function NibbleIn(data: array<byte>, j: nat): nat
    requires j / 2 < data.Length
    reads data
  {
    NibbleAt(data[..], j)
  }

  /** data with its nibble j replaced. */
  function WithNibble(b: byte, j: nat, x: nat): byte {
    if j % 2 == 1 then Octet(b as nat / 16, x) else Octet(x, b as nat % 16)
  }

  lemma {:induction false} WithNibbleParts(b: byte, j: nat, x: nat)
    requires x < 16
    ensures var c := WithNibble(b, j, x) as nat;
            if j % 2 == 1 then c % 16 == x && c / 16 == b as nat / 16 else c / 16 == x && c % 16 == b as nat % 16
  {
    hide Octet;
    HalfSmall(b);
    OctetParts(b as nat / 16, x);
    OctetParts(x, b as nat % 16);
  }

  lemma {:induction false} HalfSmall(b: byte)
    ensures b as nat / 16 < 16 && b as nat % 16 < 16
  {
  }

  method PutNibble(data: array<byte>, j: nat, x: nat)
    requires j / 2 < data.Length && x < 16
    modifies data
    ensures forall i | 0 <= i < 2 * data.Length :: NibbleIn(data, i) == if i == j then x else old(NibbleIn(data, i))
  {
    hide WithNibble;
    ghost var was := data[..];
    WithNibbleParts(data[j / 2], j, x);
    data[j / 2] := WithNibble(data[j / 2], j, x);
    assert forall k | 0 <= k < data.Length && k != j / 2 :: data[k] == was[k];
    forall i | 0 <= i < 2 * data.Length ensures NibbleIn(data, i) == if i == j then x else NibbleAt(was, i) {
      assert i / 2 == j / 2 && i != j ==> i % 2 != j % 2;
    }
  }

  /** ENCODE_INT_INTERNAL into a zeroed array of size bytes. */
  method EncodeIntInternal(number: nat, size: nat) returns (data: array<byte>, len: nat)
    requires Digits(number) <= 16 && Digits(number) / 2 < size
    ensures fresh(data) && len <= data.Length && data[..len] == EncodeInt(number)
  {
    hide Nibble, NibbleIn, HasNibble;
    data := new byte[size](_ => 0);
    ZeroNibbles(data);
    var off, left := 1, number;
    while left != 0
      invariant off >= 1 && left == Tail(number, off - 1) && off - 1 + Digits(left) == Digits(number)
      invariant forall i | 0 <= i < 2 * size :: NibbleIn(data, i) == if 1 <= i < off then Tail(number, i - 1) % 16 else 0
      decreases left
    {
      PutNibble(data, off, left % 16);
      TailNext(number, off - 1);
      left := left / 16;
      off := off + 1;
    }
    var nibbles := if off > 2 then off - 2 else 0;
    PutNibble(data, 0, nibbles);
    len := (off + 1) / 2;
    ghost var p := data[..];
    forall i | 0 <= i < 2 * |p|
      ensures HasNibble(p, number, i)
    {
      NibblesThere(data, number, off, nibbles, i);
    }
    SameBytes(p, number);
  }

  lemma {:induction false} ZeroNibbles(data: array<byte>)
    requires forall k | 0 <= k < data.Length :: data[k] == 0
    ensures forall i | 0 <= i < 2 * data.Length :: NibbleIn(data, i) == 0
  {
  }

  lemma {:induction false} NibblesThere(data: array<byte>, n: nat, off: nat, nibbles: nat, i: nat)
    requires i < 2 * data.Length && off == Digits(n) + 1 && nibbles == if off > 2 then off - 2 else 0
    requires NibbleIn(data, i) == if i == 0 then nibbles else if 1 <= i < off then Tail(n, i - 1) % 16 else 0
    ensures HasNibble(data[..], n, i)
  {
    hide Tail;
  }

  lemma {:induction false} TailNext(n: nat, j: nat)
    ensures Tail(n, j + 1) == Tail(n, j) / 16
  {
    if j > 0 {
      TailNext(n / 16, j - 1);
    } else {
      assert Tail(n, 1) == Tail(n / 16, 0);
    }
  }

  ghost predicate HasNibble(p: seq<byte>, n: nat, i: nat)
    requires i / 2 < |p|
  {
    NibbleAt(p, i) == if i == 0 then Nibble(n, 0) else if i <= Digits(n) then Tail(n, i - 1) % 16 else 0
  }

  lemma {:induction false} HasEncoded(p: seq<byte>, n: nat, i: nat)
    requires Digits(n) <= 16 && i / 2 < Digits(n) / 2 + 1 <= |p| && HasNibble(p, n, i)
    ensures NibbleAt(p, i) == NibbleAt(EncodeInt(n), i)
  {
    EncodedNibble(n, [], i);
    assert EncodeInt(n) + [] == EncodeInt(n);
    if i > 0 {
      BeyondDigits(n, i - 1);
    }
  }

  /** Bytes with the nibbles of an encoding are the encoding. */
  lemma {:induction false} SameBytes(p: seq<byte>, n: nat)
    requires Digits(n) <= 16 && Digits(n) / 2 < |p|
    requires forall i | 0 <= i < 2 * |p| :: HasNibble(p, n, i)
    ensures p[..Digits(n) / 2 + 1] == EncodeInt(n)
  {
    hide HasNibble, Nibble, Tail, Digits;
    var e := EncodeInt(n);
    forall k | 0 <= k < |e| ensures p[k] == e[k] {
      HasEncoded(p, n, 2 * k);
      HasEncoded(p, n, 2 * k + 1);
      SameOctet(p[k], e[k]);
    }
  }

  lemma {:induction false} BeyondDigits(n: nat, i: nat)
    ensures i >= Digits(n) ==> Tail(n, i) == 0
  {
    if i >= Digits(n) {
      TailEnd(n, i);
    }
  }

  lemma {:induction false} SameOctet(a: byte, b: byte)
    requires a as nat / 16 == b as nat / 16 && a as nat % 16 == b as nat % 16
    ensures a == b
  {
  }

  /** evtag_encode_tag */
  method EncodeTagBytes(tag: nat) returns (data: seq<byte>)
    ensures data == EncodeTag(tag)
  {
    data := [];
    var left := tag;
    while left >= 128
      invariant data + EncodeTag(left) == EncodeTag(tag)
      decreases left
    {
      data := data + [(left % 128 + 128) as byte];
      left := left / 128;
    }
    data := data + [left as byte];
  }

  /** The case in which a sixth byte is looked at, though only five are pulled up. */
  predicate ReadsSixth(p: seq<byte>) {
    |p| > 5 && (forall j | 0 <= j < 5 :: p[j] >= 128) && p[4] as nat % 128 <= 15
  }

  /** For example a five-byte tag of zeros that goes on. */
  lemma SixthByte()
    ensures ReadsSixth([0x80, 0x80, 0x80, 0x80, 0x80, 0x00])
  {
  }

  /** decode_tag_internal, without the draining; seen is how many bytes it looks at. */
  method DecodeTagBytes(p: seq<byte>) returns (r: Decoded, seen: nat)
    ensures r == DecodeTag(p)
    ensures r.Decoded? ==> 1 <= r.length == seen <= |p| && seen <= 5
    ensures seen <= |p| && (seen <= 5 || (seen == 6 && r == Bad))
    ensures seen > 5 <==> ReadsSixth(p)
  {
    hide Pow128, DecodeTagFrom, ReadsSixth;
    var number: nat, count: nat := 0, 0;
    seen := 0;
    SixthWhen(p, 0);
    while count < |p|
      invariant 0 <= count <= |p| && count <= 5 && seen == count
      invariant forall j | 0 <= j < count :: p[j] >= 128
      invariant count == 5 ==> p[4] as nat % 128 <= 15
      invariant DecodeTagFrom(p, count, number) == DecodeTag(p)
      decreases |p| - count
    {
      TagStep(p, count, number);
      SixthWhen(p, count);
      seen := count + 1;
      var low := p[count] as nat % 128;
      if count > 4 || (count == 4 && low > 15) {
        return Bad, seen;
      }
      number := number + low * Pow128(count);
      count := count + 1;
      if p[count - 1] < 128 {
        return Decoded(number, count), seen;
      }
    }
    TagStep(p, count, number);
    SixthWhen(p, count);
    r := Bad;
  }

  lemma TagStep(p: seq<byte>, i: nat, number: nat)
    ensures DecodeTagFrom(p, i, number) ==
              if i >= |p| then Bad
              else if i > 4 || (i == 4 && p[i] as nat % 128 > 15) then Bad
              else if p[i] < 128 then Decoded(number + p[i] as nat % 128 * Pow128(i), i + 1)
              else DecodeTagFrom(p, i + 1, number + p[i] as nat % 128 * Pow128(i))
  {
    hide Pow128;
  }

  /** After i bytes that all go on. */
  lemma SixthWhen(p: seq<byte>, i: nat)
    requires i <= 5 && i <= |p| && (forall j | 0 <= j < i :: p[j] >= 128) && (i == 5 ==> p[4] as nat % 128 <= 15)
    ensures ReadsSixth(p) ==> i < |p| && (i < 5 ==> p[i] >= 128) && (i == 4 ==> p[4] as nat % 128 <= 15)
    ensures i == 5 && i < |p| ==> ReadsSixth(p)
  {
  }

  /** DECODE_INT_INTERNAL: from the highest nibble down. */
  method DecodeIntBytes(p: seq<byte>, maxNibbles: nat) returns (r: Decoded)
    ensures r == DecodeInt(p, maxNibbles)
    ensures r.Decoded? ==> 1 <= r.length <= |p|
  {
    if p == [] {
      return Bad;
    }
    var nibbles := p[0] as nat / 16 + 1;
    if nibbles > maxNibbles || nibbles / 2 + 1 > |p| {
      return Bad;
    }
    var number, left := 0, nibbles;
    while left > 0
      invariant 0 <= left <= nibbles && number == Value(p, left + 1, nibbles)
    {
      number := number * 16 + NibbleAt(p, left);
      left := left - 1;
    }
    r := Decoded(number, nibbles / 2 + 1);
  }
}
