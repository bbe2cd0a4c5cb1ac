/** Tagged items: tag, length, payload, one after another in a byte queue. */
module Tagging {
  import opened Bytes
  import opened Options
  import opened TagNumbers
  import opened Words

  datatype Item =
    | Raw(tag: nat, data: seq<byte>)
    | Text(tag: nat, text: seq<byte>)
    | Int32(tag: nat, n: nat)
    | Int64(tag: nat, n64: nat)
    | Time(tag: nat, sec: nat, usec: nat)

  /** What each item may hold: 32-bit tags and fields, and payloads below 2^31 bytes. */
  predicate ItemOk(x: Item) {
    x.tag < TWO32 &&
    match x
    case Raw(_, d) => |d| < TWO31
    case Text(_, t) => |t| < TWO31 && 0 !in t
    case Int32(_, n) => n < TWO32
    case Int64(_, n) => n < TWO64
    case Time(_, sec, usec) => sec < TWO32 && usec < TWO32
  }

  function Payload(x: Item): seq<byte> {
    match x
    case Raw(_, d) => d
    case Text(_, t) => t
    case Int32(_, n) => EncodeInt(n)
    case Int64(_, n) => EncodeInt(n)
    case Time(_, sec, usec) => EncodeInt(sec) + EncodeInt(usec)
  }

  /** evtag_marshal and its relatives. */
  function Marshal(x: Item): seq<byte> {
    EncodeTag(x.tag) + EncodeInt(|Payload(x)|) + Payload(x)
  }

  function MarshalAll(items: seq<Item>): seq<byte> {
    if items == [] then [] else Marshal(items[0]) + MarshalAll(items[1..])
  }

  /* ----- reading ----- */

  /** evtag_unmarshal_header: Huge when the length does not fit the int it is returned in. */
  datatype Header = NoHeader | Huge(length: nat, rest: seq<byte>) | Header(tag: nat, length: nat, rest: seq<byte>)

  function UnmarshalHeader(p: seq<byte>): Header {
    var t := DecodeTag(p);
    if t.Bad? || t.length > |p| then NoHeader
    else
      var q := p[t.length..];
      var l := DecodeInt(q, 8);
      if l.Bad? || l.length > |q| then NoHeader
      else if |q| - l.length < l.value then NoHeader
      else if l.value >= TWO31 then Huge(l.value, q[l.length..])
      else Header(t.value, l.value, q[l.length..])
  }

  /** What an unmarshalling call returns, and what is left to read. */
  datatype Result = Failed | Result(item: Item, left: seq<byte>)

  /** evtag_unmarshal */
  function UnmarshalRaw(p: seq<byte>): Result {
    match UnmarshalHeader(p)
    case Header(tag, n, q) => if n <= |q| then Result(Raw(tag, q[..n]), q[n..]) else Failed
    case _ => Failed
  }

  /** evtag_unmarshal_string */
  function UnmarshalText(p: seq<byte>, need: nat): Result {
    match UnmarshalHeader(p)
    case Header(tag, n, q) => if tag == need && n <= |q| then Result(Text(tag, q[..n]), q[n..]) else Failed
    case _ => Failed
  }

  /** evtag_unmarshal_fixed */
  function UnmarshalFixed(p: seq<byte>, need: nat, size: nat): Result {
    match UnmarshalHeader(p)
    case Header(tag, n, q) => if tag == need && n == size && n <= |q| then Result(Raw(tag, q[..n]), q[n..]) else Failed
    case _ => Failed
  }

  /** evtag_unmarshal_int and evtag_unmarshal_int64: the number is read up to
      where it ends, and its length is compared afterwards. */
  function UnmarshalNumber(p: seq<byte>, need: nat, maxNibbles: nat): Result {
    var t := DecodeTag(p);
    if t.Bad? || t.length > |p| || t.value != need then Failed
    else
      var q := p[t.length..];
      var l := DecodeInt(q, 8);
      if l.Bad? || l.length > |q| || |q| - l.length < l.value then Failed
      else
        var d := q[l.length..];
        var v := DecodeInt(d, maxNibbles);
        if v.Bad? || v.length > l.value then Failed
        else Result(if maxNibbles == 8 then Int32(need, v.value) else Int64(need, v.value), d[l.value..])
  }

  /** evtag_unmarshal_timeval */
  function UnmarshalTime(p: seq<byte>, need: nat): Result {
    match UnmarshalHeader(p)
    case Header(tag, n, q) =>
      if tag != need || n > |q| then Failed
      else
        var a := DecodeInt(q, 8);
        if a.Bad? || a.length > |q| then Failed
        else
          var b := DecodeInt(q[a.length..], 8);
          if b.Bad? || a.length + b.length > n then Failed
          else Result(Time(tag, a.value, b.value), q[n..])
    case _ => Failed
  }

  /** Reads an item of the kind and with the tag of x. */
  function UnmarshalLike(x: Item, p: seq<byte>): Result {
    match x
    case Raw(_, _) => UnmarshalRaw(p)
    case Text(tag, _) => UnmarshalText(p, tag)
    case Int32(tag, _) => UnmarshalNumber(p, tag, 8)
    case Int64(tag, _) => UnmarshalNumber(p, tag, 16)
    case Time(tag, _, _) => UnmarshalTime(p, tag)
  }

  /* ----- the round trip ----- */

  lemma {:induction false} Powers()
    ensures Pow16(8) == TWO32 && Pow16(16) == TWO64
  {
    assert Pow16(4) == 0x10000;
    assert Pow16(8) == TWO32;
    assert Pow16(12) == 0x1_0000_0000_0000;
  }

  lemma {:induction false} IntLength(n: nat)
    requires n < TWO64
    ensures 1 <= |EncodeInt(n)| <= 9
  {
    Powers();
    DigitsBound(n, 16);
  }

  /** A tag, a length and what follows are read back. */
  lemma {:induction false} HeaderRead(tag: nat, n: nat, q: seq<byte>)
    requires tag < TWO32 && n < TWO32 && n <= |q|
    ensures var p := EncodeTag(tag) + EncodeInt(n) + q;
            && DecodeTag(p) == Decoded(tag, |EncodeTag(tag)|)
            && p[|EncodeTag(tag)|..] == EncodeInt(n) + q
            && DecodeInt(EncodeInt(n) + q, 8) == Decoded(n, |EncodeInt(n)|)
            && (EncodeInt(n) + q)[|EncodeInt(n)|..] == q
            && UnmarshalHeader(p) == if n < TWO31 then Header(tag, n, q) else Huge(n, q)
  {
    hide EncodeTag, EncodeInt, DecodeTag, DecodeInt, Pow16;
    var e, p := EncodeTag(tag), EncodeTag(tag) + EncodeInt(n) + q;
    assert p == e + (EncodeInt(n) + q);
    TagRoundTrip(tag, EncodeInt(n) + q);
    Powers();
    IntRoundTrip(n, 8, q);
  }

  lemma {:induction false} PayloadShort(x: Item)
    requires ItemOk(x)
    ensures |Payload(x)| < TWO31
  {
    hide EncodeInt;
    match x
    case Int32(_, n) => IntLength(n);
    case Int64(_, n) => IntLength(n);
    case Time(_, sec, usec) => IntLength(sec); IntLength(usec);
    case _ =>
  }

  lemma {:induction false} NumberBack(tag: nat, n: nat, maxNibbles: nat, suffix: seq<byte>)
    requires tag < TWO32 && (maxNibbles == 8 || maxNibbles == 16) && n < Pow16(maxNibbles) && n < TWO64
    ensures UnmarshalNumber(EncodeTag(tag) + EncodeInt(|EncodeInt(n)|) + (EncodeInt(n) + suffix), tag, maxNibbles) ==
            Result(if maxNibbles == 8 then Int32(tag, n) else Int64(tag, n), suffix)
  {
    hide EncodeTag, EncodeInt, DecodeTag, DecodeInt, Pow16, UnmarshalHeader;
    IntLength(n);
    HeaderRead(tag, |EncodeInt(n)|, EncodeInt(n) + suffix);
    IntRoundTrip(n, maxNibbles, suffix);
  }

  lemma {:induction false} TimeBack(tag: nat, sec: nat, usec: nat, suffix: seq<byte>)
    requires tag < TWO32 && sec < TWO32 && usec < TWO32
    ensures var d := EncodeInt(sec) + EncodeInt(usec);
            UnmarshalTime(EncodeTag(tag) + EncodeInt(|d|) + (d + suffix), tag) == Result(Time(tag, sec, usec), suffix)
  {
    hide EncodeTag, EncodeInt, DecodeTag, DecodeInt, Pow16, UnmarshalHeader;
    var a, b := EncodeInt(sec), EncodeInt(usec);
    IntLength(sec);
    IntLength(usec);
    HeaderRead(tag, |a + b|, a + b + suffix);
    assert a + b + suffix == a + (b + suffix);
    Powers();
    IntRoundTrip(sec, 8, b + suffix);
    IntRoundTrip(usec, 8, suffix);
    assert (a + (b + suffix))[|a|..] == b + suffix;
  }

  lemma {:induction false} BytesBack(x: Item, suffix: seq<byte>)
    requires ItemOk(x) && (x.Raw? || x.Text?)
    ensures UnmarshalLike(x, Marshal(x) + suffix) == Result(x, suffix)
  {
    hide EncodeTag, EncodeInt, DecodeTag, DecodeInt, UnmarshalHeader, Marshal;
    MarshalParts(x, suffix);
    HeaderRead(x.tag, |Payload(x)|, Payload(x) + suffix);
  }

  /** Any item comes back, and exactly what follows it is left. */
  lemma {:induction false} ItemRoundTrip(x: Item, suffix: seq<byte>)
    requires ItemOk(x)
    ensures UnmarshalLike(x, Marshal(x) + suffix) == Result(x, suffix)
  {
    hide EncodeTag, EncodeInt, Pow16, Marshal, UnmarshalRaw, UnmarshalText, UnmarshalNumber, UnmarshalTime;
    MarshalParts(x, suffix);
    Powers();
    match x
    case Int32(tag, n) => NumberBack(tag, n, 8, suffix);
    case Int64(tag, n) => NumberBack(tag, n, 16, suffix);
    case Time(tag, sec, usec) => TimeBack(tag, sec, usec, suffix);
    case _ => BytesBack(x, suffix);
  }

  /** A fixed-length payload comes back exactly when its length is the one asked for. */
  lemma {:induction false} FixedRoundTrip(tag: nat, d: seq<byte>, size: nat, suffix: seq<byte>)
    requires tag < TWO32 && |d| < TWO31
    ensures UnmarshalFixed(Marshal(Raw(tag, d)) + suffix, tag, size) == if size == |d| then Result(Raw(tag, d), suffix) else Failed
  {
    hide EncodeTag, EncodeInt, DecodeTag, DecodeInt, UnmarshalHeader;
    HeaderRead(tag, |d|, d + suffix);
    assert Marshal(Raw(tag, d)) + suffix == EncodeTag(tag) + EncodeInt(|d|) + (d + suffix);
  }

  /** Reads as many items as there are in like, each as its counterpart. */
  function UnmarshalAll(like: seq<Item>, p: seq<byte>): (r: (seq<Item>, seq<byte>))
    decreases |like|
  {
    if like == [] then ([], p)
    else match UnmarshalLike(like[0], p)
      case Failed => ([], p)
      case Result(x, left) =>
        var more := UnmarshalAll(like[1..], left);
        ([x] + more.0, more.1)
  }

  /** Any sequence of items followed by anything comes back in order. */
  lemma {:induction false} SequenceRoundTrip(items: seq<Item>, suffix: seq<byte>)
    requires forall i | 0 <= i < |items| :: ItemOk(items[i])
    ensures UnmarshalAll(items, MarshalAll(items) + suffix) == (items, suffix)
    decreases |items|
  {
    hide Marshal, UnmarshalLike, ItemOk;
    if items != [] {
      var rest := MarshalAll(items[1..]) + suffix;
      assert MarshalAll(items) + suffix == Marshal(items[0]) + rest;
      ItemRoundTrip(items[0], rest);
      SequenceRoundTrip(items[1..], suffix);
      assert [items[0]] + items[1..] == items;
    } else {
      assert MarshalAll(items) + suffix == suffix;
    }
  }

  /* ----- peeking and consuming ----- */

  /** evtag_peek_length: the whole of the next item, in 32 bits. */
  function PeekLength(p: seq<byte>): Option<nat> {
    var t := DecodeTag(p);
    if t.Bad? || t.length > |p| then None
    else
      var l := DecodeInt(p[t.length..], 8);
      if l.Bad? then None else Some((l.value + l.length + t.length) % TWO32)
  }

  /** evtag_consume: what is left. A length that does not fit an int is negative
      there, and draining a negative length drains everything; the largest one
      looks like a failure. */
  function Consume(p: seq<byte>): Option<seq<byte>> {
    match UnmarshalHeader(p)
    case Header(_, n, q) => if n <= |q| then Some(q[n..]) else None
    case Huge(n, _) => if n == TWO32 - 1 then None else Some([])
    case NoHeader => None
  }

  lemma {:induction false} TagLength(p: seq<byte>, i: nat, number: nat)
    requires i <= 5
    ensures var t := DecodeTagFrom(p, i, number); t.Decoded? ==> i < t.length <= |p| && t.length <= 5
    decreases |p| - i
  {
    hide Pow128;
    if i < |p| && i <= 4 {
      TagLength(p, i + 1, number + p[i] as nat % 128 * Pow128(i));
    }
  }

  /** The numbers of a header that was read. */
  lemma {:induction false} HeaderParts(p: seq<byte>)
    requires !UnmarshalHeader(p).NoHeader?
    ensures var h, t := UnmarshalHeader(p), DecodeTag(p);
            && t.Decoded? && 0 < t.length <= 5 && t.length <= |p|
            && var l := DecodeInt(p[t.length..], 8);
            && l.Decoded? && 0 < l.length <= 5 && l.value == h.length < TWO32
            && |p| == t.length + l.length + |h.rest| && h.length <= |h.rest|
            && PeekLength(p) == Some((l.value + l.length + t.length) % TWO32)
            && (h.Huge? <==> l.value >= TWO31)
  {
    hide Value, DecodeTagFrom, NibbleAt;
    TagLength(p, 0, 0);
    var q := p[DecodeTag(p).length..];
    IntBound(q);
  }

  lemma {:induction false} IntBound(q: seq<byte>)
    ensures var l := DecodeInt(q, 8); l.Decoded? ==> l.length <= 5 && l.length <= |q| && l.value < TWO32
  {
    hide Value, Pow16;
    if DecodeInt(q, 8).Decoded? {
      var nibbles := q[0] as nat / 16 + 1;
      ValueBound(q, 1, nibbles);
      Powers();
      PowMono(nibbles, 8);
    }
  }

  lemma {:induction false} ValueBound(q: seq<byte>, i: nat, last: nat)
    requires last / 2 < |q| && 1 <= i <= last + 1
    ensures Value(q, i, last) < Pow16(last + 1 - i)
    decreases last + 1 - i
  {
    hide NibbleAt;
    if i <= last {
      ValueBound(q, i + 1, last);
      NibbleBound(q, i);
    }
  }

  lemma {:induction false} NibbleBound(q: seq<byte>, i: nat)
    requires i / 2 < |q|
    ensures NibbleAt(q, i) < 16
  {
  }

  lemma {:induction false} PowMono(a: nat, b: nat)
    requires a <= b
    ensures Pow16(a) <= Pow16(b)
    decreases b
  {
    if a < b {
      PowMono(a, b - 1);
    }
  }

  /** What is peeked is what is consumed exactly when the length fits an int, or
      the item reaches to the end of the buffer and its size fits 32 bits. */
  lemma {:induction false} PeekIsConsumed(p: seq<byte>)
    requires Consume(p).Some?
    ensures |Consume(p).value| <= |p|
    ensures var h := UnmarshalHeader(p);
            PeekLength(p) == Some(|p| - |Consume(p).value|) <==>
              h.Header? || (|h.rest| == h.length && |p| < TWO32)
  {
    hide UnmarshalHeader, DecodeTag, DecodeInt, PeekLength;
    HeaderParts(p);
    var h := UnmarshalHeader(p);
    var size := |p| - |h.rest| + h.length;
    SizeWraps(size);
  }

  /** A length that does not fit an int, and bytes behind the item: consuming leaves
      none of them, and peeking says otherwise. */
  lemma {:induction false} PeekDiffers(tag: nat, n: nat, q: seq<byte>)
    requires tag < TWO32 && TWO31 <= n < TWO32 - 1 && n < |q|
    ensures var p := EncodeTag(tag) + EncodeInt(n) + q;
            Consume(p) == Some([]) && PeekLength(p).Some? && PeekLength(p) != Some(|p|)
  {
    hide EncodeTag, EncodeInt, DecodeTag, DecodeInt, UnmarshalHeader, PeekLength;
    HeaderRead(tag, n, q);
    var p := EncodeTag(tag) + EncodeInt(n) + q;
    HeaderParts(p);
    PeekIsConsumed(p);
  }

  lemma {:induction false} SizeWraps(n: nat)
    ensures n < TWO32 ==> n % TWO32 == n
    ensures n >= TWO32 ==> n % TWO32 < TWO32 <= n
  {
  }

  /** Consuming drops one whole item of any kind, and no more. */
  lemma {:induction false} ConsumeItem(x: Item, suffix: seq<byte>)
    requires ItemOk(x)
    ensures Consume(Marshal(x) + suffix) == Some(suffix)
    ensures PeekLength(Marshal(x) + suffix) == Some(|Marshal(x)|)
  {
    hide EncodeTag, EncodeInt, DecodeTag, DecodeInt, UnmarshalHeader, PeekLength, Payload, ItemOk, Pow16;
    var d := Payload(x);
    ItemTag(x);
    PayloadShort(x);
    HeaderRead(x.tag, |d|, d + suffix);
    MarshalParts(x, suffix);
    PeekIsConsumed(Marshal(x) + suffix);
  }

  lemma {:induction false} ItemTag(x: Item)
    requires ItemOk(x)
    ensures x.tag < TWO32
  {
  }

  lemma {:induction false} MarshalParts(x: Item, suffix: seq<byte>)
    ensures var d := Payload(x);
            && Marshal(x) + suffix == EncodeTag(x.tag) + EncodeInt(|d|) + (d + suffix)
            && (d + suffix)[|d|..] == suffix
  {
    hide EncodeTag, EncodeInt, Payload;
  }
}
