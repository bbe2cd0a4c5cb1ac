/** Packets under construction: evdns_request_data_build and
    evdns_server_request_format_response, with what has been written so far
    kept as claims about the packet. */
module DnsPacket {
  import opened Bytes
  import opened DnsNames
  import opened DnsEncodes
  import opened DnsCompress

  /** name_parse is given buffers of this size. */
  const NAME_BUF: nat := 256

  function Big16(x: nat): seq<byte>
  {
    [(x / 256 % 256) as byte, (x % 256) as byte]
  }

  function Big32(x: nat): seq<byte>
  {
    Big16(x / 65536) + Big16(x % 65536)
  }

  /** ntohs and ntohl: the number that bytes in network order stand for. */
  function Number(b: seq<byte>): nat {
    if b == [] then 0 else Number(b[..|b| - 1]) * 256 + b[|b| - 1] as nat
  }

  lemma {:induction false} NumberTwo(b: seq<byte>)
    requires |b| == 2
    ensures Number(b) == b[0] as nat * 256 + b[1] as nat
  {
    assert b[..1][..0] == [] && b[..1][0] == b[0];
    assert Number(b[..1]) == b[0] as nat;
  }

  lemma {:induction false} TwoDigits(x: nat, q: nat)
    requires q == x / 256
    ensures x % 0x10000 == q % 256 * 256 + x % 256
  {
    var high, mid, low := q / 256, q % 256, x % 256;
    assert q == high * 256 + mid && x == q * 256 + low;
    assert x == high * 0x10000 + (mid * 256 + low);
  }

  /** What is written in network order is read back. */
  lemma {:induction false} Big16Reads(x: nat)
    ensures |Big16(x)| == 2 && Number(Big16(x)) == x % 0x10000
  {
    hide Number;
    NumberTwo(Big16(x));
    TwoDigits(x, x / 256);
  }

  lemma {:induction false} NumberJoin(a: seq<byte>, b: seq<byte>)
    requires |b| == 2
    ensures Number(a + b) == Number(a) * 0x10000 + Number(b)
  {
    var all := a + b;
    assert all[..|all| - 1] == a + b[..1] && (a + b[..1])[..|a|] == a;
    NumberTwo(b);
  }

  lemma {:induction false} Big32Reads(x: nat)
    requires x < 0x100000000
    ensures |Big32(x)| == 4 && Number(Big32(x)) == x
  {
    hide Number, Big16;
    Big16Reads(x / 65536);
    Big16Reads(x % 65536);
    NumberJoin(Big16(x / 65536), Big16(x % 65536));
  }

  /** Something a packet says: a name from one index to another, or plain bytes. */
  datatype Claim = Spelled(start: nat, name: seq<byte>, next: nat) | Written(at: nat, bytes: seq<byte>)

  ghost predicate Holds(p: seq<byte>, own: set<nat>, c: Claim) {
    match c
    case Spelled(start, name, next) =>
      && start <= |p| && |name| <= MAX_NAME
      && (WellFormed(name) ==> Encodes(p, own, start, Labels(name), start) && EndOf(p, start) == next)
    case Written(at, bytes) =>
      && at + |bytes| <= |p| && p[at..at + |bytes|] == bytes
      && forall k | at <= k < at + |bytes| :: k in own
  }

  /** What a reader of the finished packet finds. */
  ghost predicate Reads(p: seq<byte>, c: Claim) {
    match c
    case Spelled(start, name, next) =>
      WellFormed(name) ==> ParseFrom(p, start, [], -1, 0, NAME_BUF) == Parsed(Canonical(name), next)
    case Written(at, bytes) =>
      at + |bytes| <= |p| && p[at..at + |bytes|] == bytes
  }

  lemma {:induction false} HoldsKept(p: seq<byte>, own: set<nat>, c: Claim, q: seq<byte>, wide: set<nat>)
    requires Holds(p, own, c) && Agrees(p, q, own) && own <= wide
    ensures Holds(q, wide, c)
  {
    hide Encodes, EndOf, WellFormed, Labels;
    match c
    case Spelled(start, name, next) =>
      if WellFormed(name) {
        EncodesKept(p, own, start, Labels(name), start, q, wide, start);
      }
    case Written(at, bytes) =>
      forall k | at <= k < at + |bytes| ensures q[k] == bytes[k - at] {
        assert k in own && p[at..at + |bytes|][k - at] == bytes[k - at];
      }
      assert q[at..at + |bytes|] == bytes;
  }

  /** The round trip of a name: what the writer put in, name_parse gets out. */
  lemma {:induction false} HoldsReads(p: seq<byte>, own: set<nat>, c: Claim)
    requires Holds(p, own, c)
    ensures Reads(p, c)
  {
    hide Encodes, EndOf, WellFormed, Labels, ParseFrom, Spell;
    if c.Spelled? && WellFormed(c.name) {
      SpellLabels([], c.name);
      EncodesParse(p, own, c.start, Labels(c.name), c.start, [], -1, 0, NAME_BUF);
    }
  }

  /* ----- the state of a packet ----- */

  ghost predicate Inside(own: set<nat>, n: nat) {
    forall k | k in own :: k < n
  }

  ghost predicate AllHold(p: seq<byte>, own: set<nat>, claims: set<Claim>) {
    forall c | c in claims :: Holds(p, own, c)
  }

  ghost predicate Sound(p: seq<byte>, own: set<nat>, table: seq<Entry>, claims: set<Claim>) {
    Inside(own, |p|) && TableOk(p, own, table) && Small(table) && AllHold(p, own, claims)
  }

  lemma {:induction false} SoundKept(p: seq<byte>, own: set<nat>, table: seq<Entry>, claims: set<Claim>, q: seq<byte>, wide: set<nat>)
    requires Sound(p, own, table, claims) && Agrees(p, q, own) && own <= wide && Inside(wide, |q|)
    ensures Sound(q, wide, table, claims)
  {
    hide Holds, EntryOk, TableOk;
    TableKept(p, own, table, q, wide);
    forall c | c in claims ensures Holds(q, wide, c) {
      HoldsKept(p, own, c, q, wide);
    }
  }

  lemma {:induction false} SoundAppend(p: seq<byte>, own: set<nat>, table: seq<Entry>, claims: set<Claim>, bytes: seq<byte>)
    requires Sound(p, own, table, claims)
    ensures var q := p + bytes;
            Sound(q, own + Span(|p|, |q|), table, claims + {Written(|p|, bytes)})
  {
    hide EntryOk, TableOk, Encodes, WellFormed;
    var q := p + bytes;
    var wide := own + Span(|p|, |q|);
    SoundKept(p, own, table, claims, q, wide);
    assert q[|p|..|p| + |bytes|] == bytes;
    forall k | |p| <= k < |q| ensures k in wide {
      assert Within(|p|, k, |q|);
    }
    assert Holds(q, wide, Written(|p|, bytes));
  }

  /** A name just emitted. */
  lemma {:induction false} SoundEmit(p: seq<byte>, own: set<nat>, table: seq<Entry>, claims: set<Claim>, compress: bool, name: seq<byte>, limit: nat)
    requires Sound(p, own, table, claims) && limit <= POINTER_LIMIT && 0 !in name && |name| <= MAX_NAME
    requires Emit(p, table, compress, name, limit).code == 0
    ensures var r := Emit(p, table, compress, name, limit);
            && |p| <= |r.buf|
            && Sound(r.buf, own + Span(|p|, |r.buf|), r.table, claims + {Spelled(|p|, name, |r.buf|)})
  {
    hide EntryOk, Encodes, WellFormed, Emit, Labels, EndOf, Holds;
    var r := Emit(p, table, compress, name, limit);
    var wide := own + Span(|p|, |r.buf|);
    assert table + [] == table;
    assert Before(table, |p|) by { hide Sound; TableBefore(p, own, table); }
    EmitOk(p, own, table, [], compress, name, limit, |p|);
    SoundKept(p, own, table, claims, r.buf, wide);
    EmitSmall(p, table, compress, name, limit);
    assert Holds(r.buf, wide, Spelled(|p|, name, |r.buf|)) by { EmitHolds(p, own, table, name, r); }
    TableJoin(r.buf, wide, table, r.table);
  }

  lemma {:induction false} TableBefore(p: seq<byte>, own: set<nat>, table: seq<Entry>)
    requires TableOk(p, own, table)
    ensures Before(table, |p|)
  {
    hide Encodes, WellFormed;
    forall i | 0 <= i < |table| ensures table[i].pos < |p| { assert EntryOk(p, own, table[i]); }
  }

  lemma {:induction false} TableJoin(p: seq<byte>, own: set<nat>, table: seq<Entry>, more: seq<Entry>)
    requires |table| <= |more| && more[..|table|] == table
    requires TableOk(p, own, table) && TableOk(p, own, more[|table|..])
    ensures TableOk(p, own, more)
  {
    hide EntryOk;
    forall i | 0 <= i < |more| ensures EntryOk(p, own, more[i]) {
      if i < |table| { assert more[i] == table[i]; } else { assert more[i] == more[|table|..][i - |table|]; }
    }
  }

  lemma {:induction false} EmitHolds(p: seq<byte>, own: set<nat>, table: seq<Entry>, name: seq<byte>, r: Emitted)
    requires Achieves(p, own, table, name, |p|, r) && |name| <= MAX_NAME
    ensures Holds(r.buf, own + Span(|p|, |r.buf|), Spelled(|p|, name, |r.buf|))
  {
    hide Encodes, WellFormed, Labels, EndOf, TableOk;
  }

  lemma {:induction false} EmitSmall(p: seq<byte>, table: seq<Entry>, compress: bool, name: seq<byte>, limit: nat)
    requires Small(table) && limit <= POINTER_LIMIT
    ensures Small(Emit(p, table, compress, name, limit).table)
    decreases |name|
  {
    hide Emit, Find, DotAt, Terminated, LabelBytes, PointerBytes;
    EmitCases(p, table, compress, name, limit);
    var d := DotAt(name);
    if d < |name| && d <= MAX_LABEL && |p| + d + 1 <= limit {
      EmitSmall(p + LabelBytes(name[..d]), if compress then Remember(table, name, |p|) else table, compress, name[d + 1..], limit);
    }
  }

  /** Only the closing zero, which the source writes unchecked, can pass the limit. */
  lemma {:induction false} EmitFits(p: seq<byte>, table: seq<Entry>, compress: bool, name: seq<byte>, limit: nat)
    requires Small(table) && limit <= POINTER_LIMIT
    ensures var r := Emit(p, table, compress, name, limit); r.code == 0 ==> |r.buf| <= limit + 1
    ensures Emit(p, table, compress, name, limit).code in {0, -1, -2}
    decreases |name|
  {
    hide Emit, Find, DotAt;
    EmitCases(p, table, compress, name, limit);
    var d := DotAt(name);
    if d < |name| && d <= MAX_LABEL && |p| + d + 1 <= limit {
      EmitFits(p + LabelBytes(name[..d]), if compress then Remember(table, name, |p|) else table, compress, name[d + 1..], limit);
    }
  }

  /** Every label can be written. */
  predicate ShortLabels(name: seq<byte>)
    decreases |name|
  {
    DotAt(name) <= MAX_LABEL && (DotAt(name) < |name| ==> ShortLabels(name[DotAt(name) + 1..]))
  }

  /** No suffix of the name, at the start of a label, is in the table. */
  predicate Unlisted(table: seq<Entry>, name: seq<byte>)
    decreases |name|
  {
    Find(table, name) == |table| && (DotAt(name) < |name| ==> Unlisted(table, name[DotAt(name) + 1..]))
  }

  lemma {:induction false} FindMore(table: seq<Entry>, e: Entry, name: seq<byte>)
    requires e.name != name
    ensures Find(table + [e], name) == |table + [e]| <==> Find(table, name) == |table|
  {
    var more := table + [e];
    var i := Find(table, name);
    if i < |table| {
      assert more[i] == table[i];
    }
  }

  /** What is remembered of a name is longer than what is left of it. */
  lemma {:induction false} UnlistedMore(table: seq<Entry>, e: Entry, name: seq<byte>)
    requires |e.name| > |name|
    ensures Unlisted(table + [e], name) <==> Unlisted(table, name)
    decreases |name|
  {
    hide Find;
    FindMore(table, e, name);
    if DotAt(name) < |name| {
      UnlistedMore(table, e, name[DotAt(name) + 1..]);
    }
  }

  /** When only the closing zero passes the limit: the condition, before the call. */
  predicate EndsPast(p: seq<byte>, table: seq<Entry>, compress: bool, name: seq<byte>, limit: nat) {
    && ShortLabels(name) && (compress ==> Unlisted(table, name))
    && name != [] && name[|name| - 1] != DOT && |p| + |name| + 1 == limit
  }

  lemma {:induction false} EndsPastStep(p: seq<byte>, table: seq<Entry>, compress: bool, name: seq<byte>, limit: nat)
    requires DotAt(name) < |name| && DotAt(name) <= MAX_LABEL && (compress ==> Find(table, name) == |table|)
    ensures var d := DotAt(name);
            var table1 := if compress then Remember(table, name, |p|) else table;
            EndsPast(p, table, compress, name, limit) <==> EndsPast(p + LabelBytes(name[..d]), table1, compress, name[d + 1..], limit)
  {
    hide Find;
    var d := DotAt(name);
    var rest := name[d + 1..];
    if compress && |table| != MAX_LABELS {
      UnlistedMore(table, Entry(name, |p|), rest);
    }
    assert rest != [] ==> rest[|rest| - 1] == name[|name| - 1];
  }

  lemma {:induction false} LastPast(p: seq<byte>, name: seq<byte>, limit: nat)
    requires |name| <= MAX_LABEL && 0 !in name && DotAt(name) == |name| && |p| + |name| + 1 <= limit
    ensures |Terminated(p + LabelBytes(name))| > limit <==> name != [] && |p| + |name| + 1 == limit
    ensures name != [] ==> name[|name| - 1] != DOT
  {
    var b := p + LabelBytes(name);
    if name != [] {
      assert b[|b| - 1] == name[|name| - 1];
      assert name[..|name|] == name;
    } else {
      assert b[|b| - 1] == 0;
    }
  }

  /** A successful call ends past the limit, by one byte, exactly in that case. */
  lemma {:induction false} EmitPast(p: seq<byte>, table: seq<Entry>, compress: bool, name: seq<byte>, limit: nat)
    requires Small(table) && limit <= POINTER_LIMIT && 0 !in name
    ensures var r := Emit(p, table, compress, name, limit);
            r.code == 0 && |r.buf| > limit <==> EndsPast(p, table, compress, name, limit)
    decreases |name|
  {
    hide Emit, Find, DotAt, Terminated, LabelBytes;
    EmitCases(p, table, compress, name, limit);
    var d := DotAt(name);
    if compress && Find(table, name) < |table| {
    } else if d > MAX_LABEL || |p| + d + 1 > limit {
      TooLong(name);
    } else if d == |name| {
      assert name[..d] == name;
      LastPast(p, name, limit);
    } else {
      EndsPastStep(p, table, compress, name, limit);
      LabelSize(name[..d]);
      EmitPast(p + LabelBytes(name[..d]), if compress then Remember(table, name, |p|) else table, compress, name[d + 1..], limit);
    }
  }

  lemma {:induction false} LabelSize(lab: seq<byte>)
    requires |lab| <= MAX_LABEL
    ensures |LabelBytes(lab)| == |lab| + 1
  {
  }

  lemma {:induction false} TooLong(name: seq<byte>)
    ensures DotAt(name) <= |name|
  {
  }

  /** For example a one-letter name in two bytes of room. */
  lemma {:induction false} EmitPastLimit()
    ensures var r := Emit([], [], false, [97], 2); r.code == 0 && |r.buf| == 3
  {
    hide Find;
    var name: seq<byte> := [97];
    assert name[1..] == [] && DotAt(name) == 1;
    EmitCases([], [], false, name, 2);
  }

  /** A name that can be written: well formed and not too long. */
  predicate Tame(name: seq<byte>) {
    WellFormed(name) && |name| <= MAX_NAME
  }

  /** Two bytes more than its text are always room enough for a tame name. */
  lemma {:induction false} EmitRoom(p: seq<byte>, table: seq<Entry>, compress: bool, name: seq<byte>, limit: nat)
    requires Small(table) && limit <= POINTER_LIMIT && WellFormed(name) && |p| + |name| + 2 <= limit
    ensures var r := Emit(p, table, compress, name, limit); r.code == 0 && |r.buf| <= |p| + |name| + 2
    decreases |name|
  {
    hide Emit, Find;
    EmitCases(p, table, compress, name, limit);
    var d := DotAt(name);
    if !(compress && Find(table, name) < |table|) && d < |name| {
      EmitRoom(p + LabelBytes(name[..d]), if compress then Remember(table, name, |p|) else table, compress, name[d + 1..], limit);
    }
  }

  /* ----- how much is written, and what is remembered ----- */

  /** The bytes of the labels, each with its length, before the first suffix that
      the table has; one more than the name has if it has none. */
  function Plain(table: seq<Entry>, compress: bool, name: seq<byte>): nat
    decreases |name|
  {
    if compress && Find(table, name) < |table| then 0
    else if DotAt(name) == |name| then |name| + 1
    else DotAt(name) + 1 + Plain(table, compress, name[DotAt(name) + 1..])
  }

  /** Those labels are short enough. */
  predicate PlainShort(table: seq<Entry>, compress: bool, name: seq<byte>)
    decreases |name|
  {
    || (compress && Find(table, name) < |table|)
    || (DotAt(name) <= MAX_LABEL && (DotAt(name) < |name| ==> PlainShort(table, compress, name[DotAt(name) + 1..])))
  }

  /** The labels, and the pointer if they end at a suffix that the table has. */
  function Need(table: seq<Entry>, compress: bool, name: seq<byte>): nat {
    var n := Plain(table, compress, name);
    if n <= |name| then n + 2 else n
  }

  /** The zero that the last label needs behind it. */
  function Closing(table: seq<Entry>, compress: bool, name: seq<byte>): nat {
    if Plain(table, compress, name) > |name| && name != [] && name[|name| - 1] != DOT then 1 else 0
  }

  predicate Writable(n: nat, table: seq<Entry>, compress: bool, name: seq<byte>, limit: nat) {
    PlainShort(table, compress, name) && n + Need(table, compress, name) <= limit
  }

  /** What is remembered of a name is longer than what is left of it. */
  lemma {:induction false} PlainMore(table: seq<Entry>, e: Entry, compress: bool, name: seq<byte>)
    requires |e.name| > |name|
    ensures Plain(table + [e], compress, name) == Plain(table, compress, name)
    ensures PlainShort(table + [e], compress, name) <==> PlainShort(table, compress, name)
    decreases |name|
  {
    hide Find;
    FindMore(table, e, name);
    TooLong(name);
    assert Find(table, name) <= |table| && Find(table + [e], name) <= |table + [e]|;
    if DotAt(name) < |name| {
      PlainMore(table, e, compress, name[DotAt(name) + 1..]);
    }
  }

  /** A call succeeds exactly when the labels it has to spell are short and there is
      room for them and the pointer, and then writes that and no more. */
  lemma {:induction false} EmitExact(p: seq<byte>, table: seq<Entry>, compress: bool, name: seq<byte>, limit: nat)
    requires Small(table) && limit <= POINTER_LIMIT && 0 !in name
    ensures var r := Emit(p, table, compress, name, limit);
            && (r.code == 0 <==> Writable(|p|, table, compress, name, limit))
            && (r.code == 0 ==> |r.buf| == |p| + Need(table, compress, name) + Closing(table, compress, name))
    decreases |name|
  {
    hide Emit, Find, DotAt, Terminated, LabelBytes, Plain, PlainShort, Need, Closing;
    EmitCases(p, table, compress, name, limit);
    var d := DotAt(name);
    if compress && Find(table, name) < |table| {
      NeedPointer(table, name);
    } else if d == |name| {
      assert name[..d] == name;
      NeedLast(table, compress, name);
      if d <= MAX_LABEL && |p| + d + 1 <= limit { LastSize(p, name); }
    } else {
      var table1 := if compress then Remember(table, name, |p|) else table;
      NeedStep(table, compress, name, table1, |p|);
      if d <= MAX_LABEL && |p| + d + 1 <= limit {
        LabelSize(name[..d]);
        EmitExact(p + LabelBytes(name[..d]), table1, compress, name[d + 1..], limit);
      }
    }
  }

  lemma {:induction false} NeedPointer(table: seq<Entry>, name: seq<byte>)
    requires Find(table, name) < |table|
    ensures PlainShort(table, true, name) && Need(table, true, name) == 2 && Closing(table, true, name) == 0
  {
    hide Find, DotAt;
  }

  lemma {:induction false} NeedLast(table: seq<Entry>, compress: bool, name: seq<byte>)
    requires DotAt(name) == |name| && !(compress && Find(table, name) < |table|)
    ensures PlainShort(table, compress, name) <==> |name| <= MAX_LABEL
    ensures Need(table, compress, name) == |name| + 1
    ensures Closing(table, compress, name) == if name != [] && name[|name| - 1] != DOT then 1 else 0
  {
    hide Find, DotAt;
  }

  lemma {:induction false} NeedStep(table: seq<Entry>, compress: bool, name: seq<byte>, table1: seq<Entry>, pos: nat)
    requires DotAt(name) < |name| && !(compress && Find(table, name) < |table|)
    requires table1 == if compress then Remember(table, name, pos) else table
    ensures var d := DotAt(name); var rest := name[d + 1..];
            && (PlainShort(table, compress, name) <==> d <= MAX_LABEL && PlainShort(table1, compress, rest))
            && Need(table, compress, name) == d + 1 + Need(table1, compress, rest)
            && Closing(table, compress, name) == Closing(table1, compress, rest)
  {
    hide Find, DotAt, Plain, PlainShort;
    var d := DotAt(name);
    var rest := name[d + 1..];
    PlainMore(table, Entry(name, pos), compress, rest);
    PlainStep(table, compress, name);
    DotThere(name);
    assert rest != [] ==> rest[|rest| - 1] == name[|name| - 1];
  }

  lemma {:induction false} PlainStep(table: seq<Entry>, compress: bool, name: seq<byte>)
    requires DotAt(name) < |name| && !(compress && Find(table, name) < |table|)
    ensures var d := DotAt(name); var rest := name[d + 1..];
            && (PlainShort(table, compress, name) <==> d <= MAX_LABEL && PlainShort(table, compress, rest))
            && Plain(table, compress, name) == d + 1 + Plain(table, compress, rest)
  {
    hide Find, DotAt;
  }

  lemma {:induction false} DotThere(name: seq<byte>)
    requires DotAt(name) < |name|
    ensures name[DotAt(name)] == DOT
  {
  }

  lemma {:induction false} LastSize(p: seq<byte>, name: seq<byte>)
    requires |name| <= MAX_LABEL && 0 !in name && DotAt(name) == |name|
    ensures |Terminated(p + LabelBytes(name))| == |p| + |name| + 1 + if name != [] && name[|name| - 1] != DOT then 1 else 0
  {
    LastPast(p, name, |p| + |name| + 1);
    LabelSize(name);
  }

  lemma {:induction false} EmitGrows(p: seq<byte>, table: seq<Entry>, compress: bool, name: seq<byte>, limit: nat)
    requires Small(table) && limit <= POINTER_LIMIT
    ensures var r := Emit(p, table, compress, name, limit); |table| <= |r.table| && r.table[..|table|] == table
    decreases |name|
  {
    hide Emit, Find, DotAt, Terminated, LabelBytes, PointerBytes;
    EmitCases(p, table, compress, name, limit);
    var d := DotAt(name);
    if d < |name| && d <= MAX_LABEL && |p| + d + 1 <= limit {
      var table1 := if compress then Remember(table, name, |p|) else table;
      var r := Emit(p + LabelBytes(name[..d]), table1, compress, name[d + 1..], limit);
      EmitGrows(p + LabelBytes(name[..d]), table1, compress, name[d + 1..], limit);
      assert r.table[..|table|] == r.table[..|table1|][..|table|];
    }
  }

  /** Compression: a name written while the table has a free entry is from then on
      written as two bytes that point to where it was spelled first. */
  lemma {:induction false} NameRepeats(p: seq<byte>, table: seq<Entry>, name: seq<byte>, limit: nat, q: seq<byte>)
    requires Small(table) && limit <= POINTER_LIMIT && |table| < MAX_LABELS
    requires Emit(p, table, true, name, limit).code == 0 && |q| + 2 <= limit
    ensures var r, i := Emit(p, table, true, name, limit), Find(table, name);
            var first := if i < |table| then table[i].pos else |p|;
            && Small(r.table) && first < POINTER_LIMIT
            && Emit(q, r.table, true, name, limit) == Emitted(0, q + PointerBytes(first), r.table)
  {
    hide Emit, Find, DotAt, Terminated, LabelBytes, PointerBytes;
    var r, i := Emit(p, table, true, name, limit), Find(table, name);
    EmitCases(p, table, true, name, limit);
    EmitSmall(p, table, true, name, limit);
    if i == |table| {
      var table1, d := Remember(table, name, |p|), DotAt(name);
      if d < |name| {
        EmitGrows(p + LabelBytes(name[..d]), table1, true, name[d + 1..], limit);
      }
      assert r.table[..|table1|] == table1 && r.table[|table|] == table1[|table|];
      FoundFirst(table, r.table, name);
    }
    EmitCases(q, r.table, true, name, limit);
  }

  lemma {:induction false} FoundFirst(table: seq<Entry>, more: seq<Entry>, name: seq<byte>)
    requires Find(table, name) == |table| < |more| && more[..|table|] == table && more[|table|].name == name
    ensures Find(more, name) == |table|
  {
    forall k | 0 <= k < |table| ensures more[k].name != name {
      assert more[k] == more[..|table|][k];
    }
    FoundAt(more, name, |table|);
  }

  /* ----- the packet object ----- */

  class Packet {
    const limit: nat
    const compress: bool
    var buf: seq<byte>
    var table: seq<Entry>
    ghost var own: set<nat>
    ghost var claims: set<Claim>

    ghost predicate Valid()
      reads this
    {
      limit <= POINTER_LIMIT && Sound(buf, own, table, claims)
    }

    constructor (limit: nat, compress: bool)
      requires limit <= POINTER_LIMIT
      ensures Valid() && buf == [] && table == [] && claims == {}
      ensures this.limit == limit && this.compress == compress
    {
      this.limit, this.compress := limit, compress;
      buf, table := [], [];
      own, claims := {}, {};
    }

    /** APPEND16, APPEND32 and the copying of data. */
    method Append(bytes: seq<byte>) returns (ok: bool)
      requires Valid()
      modifies this
      ensures Valid()
      ensures ok == (old(|buf|) + |bytes| <= limit)
      ensures ok ==> buf == old(buf) + bytes && claims == old(claims) + {Written(old(|buf|), bytes)}
      ensures !ok ==> buf == old(buf) && claims == old(claims)
      ensures table == old(table)
    {
      hide Sound;
      ok := |buf| + |bytes| <= limit;
      if ok {
        SoundAppend(buf, own, table, claims, bytes);
        claims := claims + {Written(|buf|, bytes)};
        own := own + Span(|buf|, |buf + bytes|);
        buf := buf + bytes;
      }
    }

    /** dnslabel_table_get_pos */
    method GetPos(name: seq<byte>) returns (pos: int)
      requires Small(table)
      ensures var i := Find(table, name); pos == if i < |table| then table[i].pos else -1
    {
      var i := 0;
      while i < |table|
        invariant 0 <= i <= |table|
        invariant forall k | 0 <= k < i :: table[k].name != name
      {
        if table[i].name == name {
          FoundAt(table, name, i);
          return table[i].pos;
        }
        i := i + 1;
      }
      FoundAt(table, name, i);
      return -1;
    }

    /** The loop of dnsname_to_labels. */
    method EmitName(name: seq<byte>) returns (code: int)
      requires limit <= POINTER_LIMIT && Small(table)
      modifies this`buf, this`table
      ensures Emitted(code, buf, table) == Emit(old(buf), old(table), compress, name, limit)
    {
      hide Emit, Find, DotAt;
      var left := name;
      while true
        invariant Small(table)
        invariant Emit(buf, table, compress, left, limit) == Emit(old(buf), old(table), compress, name, limit)
        decreases |left|
      {
        EmitCases(buf, table, compress, left, limit);
        if compress {
          var ref := GetPos(left);
          if ref >= 0 {
            if |buf| + 2 > limit {
              return -2;
            }
            buf := buf + PointerBytes(ref);
            return 0;
          }
        }
        var d := DotAt(left);
        if d > MAX_LABEL {
          return -1;
        }
        if |buf| + d + 1 > limit {
          return -2;
        }
        if compress {
          table := Remember(table, left, |buf|);
        }
        buf := buf + LabelBytes(left[..d]);
        if d == |left| {
          break;
        }
        left := left[d + 1..];
      }
      buf := Terminated(buf);
      code := 0;
    }

    /** dnsname_to_labels */
    method ToLabels(name: seq<byte>) returns (code: int)
      requires Valid() && 0 !in name
      modifies this
      ensures code in {0, -1, -2}
      ensures code == 0 ==> Valid() && old(|buf|) <= |buf| <= limit + 1
      ensures code == 0 ==> claims == old(claims) + {Spelled(old(|buf|), name, |buf|)}
      ensures code == 0 ==> own == old(own) + Span(old(|buf|), |buf|)
      ensures code == 0 <==> |name| <= MAX_NAME && Writable(old(|buf|), old(table), compress, name, limit)
      ensures code == 0 ==> |buf| == old(|buf|) + Need(old(table), compress, name) + Closing(old(table), compress, name)
      ensures code == (if |name| > MAX_NAME then -2 else Emit(old(buf), old(table), compress, name, limit).code)
      ensures Tame(name) && old(|buf|) + |name| + 2 <= limit ==> code == 0 && |buf| <= old(|buf|) + |name| + 2
      ensures code == 0 && |buf| > limit <==> |name| <= MAX_NAME && EndsPast(old(buf), old(table), compress, name, limit)
    {
      hide Emit, TableOk, AllHold, Inside, EndsPast, Writable, Need, Closing;
      if |name| > MAX_NAME {
        return -2;
      }
      ghost var was, oldTable := buf, table;
      code := EmitName(name);
      EmitFits(was, oldTable, compress, name, limit);
      EmitPast(was, oldTable, compress, name, limit);
      EmitExact(was, oldTable, compress, name, limit);
      if WellFormed(name) && |was| + |name| + 2 <= limit {
        EmitRoom(was, oldTable, compress, name, limit);
      }
      if code == 0 {
        SoundEmit(was, own, oldTable, claims, compress, name, limit);
        own := own + Span(|was|, |buf|);
        claims := claims + {Spelled(|was|, name, |buf|)};
      }
    }

    /** Room for a length that is not known yet. */
    method Reserve()
      requires Valid()
      modifies this
      ensures Valid() && |buf| == old(|buf|) + 2 && claims == old(claims)
      ensures forall k | k in own :: k < old(|buf|)
    {
      hide TableOk, AllHold;
      SoundKept(buf, own, table, claims, buf + [0, 0], own);
      buf := buf + [0, 0];
    }

    /** The length written afterwards, into bytes that no name uses. */
    method Patch(at: nat, x: nat)
      requires Valid() && at + 2 <= |buf| && at !in own && at + 1 !in own
      modifies this
      ensures Valid() && |buf| == old(|buf|) && claims == old(claims) + {Written(at, Big16(x))}
    {
      hide TableOk, AllHold, Holds;
      ghost var was := buf;
      buf := buf[at := Big16(x)[0]][at + 1 := Big16(x)[1]];
      ghost var wide := own + {at, at + 1};
      SoundKept(was, own, table, claims, buf, wide);
      PatchHolds(buf, wide, at, Big16(x));
      SoundAdd(buf, wide, table, claims, Written(at, Big16(x)));
      own := wide;
      claims := claims + {Written(at, Big16(x))};
    }
  }

  lemma {:induction false} PatchHolds(p: seq<byte>, own: set<nat>, at: nat, bytes: seq<byte>)
    requires at + 2 <= |p| && |bytes| == 2 && p[at] == bytes[0] && p[at + 1] == bytes[1] && at in own && at + 1 in own
    ensures Holds(p, own, Written(at, bytes))
  {
    assert p[at..at + 2] == bytes;
  }

  lemma {:induction false} SoundAdd(p: seq<byte>, own: set<nat>, table: seq<Entry>, claims: set<Claim>, c: Claim)
    requires Sound(p, own, table, claims) && Holds(p, own, c)
    ensures Sound(p, own, table, claims + {c})
  {
    hide Holds, TableOk;
  }

  /** One turn of the loop of dnsname_to_labels. */
  lemma {:induction false} EmitCases(buf: seq<byte>, table: seq<Entry>, compress: bool, name: seq<byte>, limit: nat)
    requires Small(table) && limit <= POINTER_LIMIT
    ensures var i, d, r := Find(table, name), DotAt(name), Emit(buf, table, compress, name, limit);
            && d <= |name| && i <= |table|
            && (compress && i < |table| ==>
                  r == if |buf| + 2 > limit then Emitted(-2, buf, table) else Emitted(0, buf + PointerBytes(table[i].pos), table))
            && (!(compress && i < |table|) && d > MAX_LABEL ==> r == Emitted(-1, buf, table))
            && (!(compress && i < |table|) && d <= MAX_LABEL && |buf| + d + 1 > limit ==> r == Emitted(-2, buf, table))
            && (!(compress && i < |table|) && d <= MAX_LABEL && |buf| + d + 1 <= limit ==>
                  var table1 := if compress then Remember(table, name, |buf|) else table;
                  var buf1 := buf + LabelBytes(name[..d]);
                  && Small(table1)
                  && r == if d == |name| then Emitted(0, Terminated(buf1), table1)
                          else Emit(buf1, table1, compress, name[d + 1..], limit))
  {
    hide Find, DotAt, Terminated, LabelBytes, PointerBytes;
  }

  lemma {:induction false} FoundAt(table: seq<Entry>, name: seq<byte>, i: nat)
    requires i <= |table| && (i < |table| ==> table[i].name == name)
    requires forall k | 0 <= k < i :: table[k].name != name
    ensures Find(table, name) == i
  {
  }
}
