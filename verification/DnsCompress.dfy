/** dnsname_to_labels and its compression table, as functions of the packet so
    far, and the proof that what they write can be read back. */
module DnsCompress {
  import opened Bytes
  import opened DnsNames
  import opened DnsEncodes

  const MAX_LABELS: nat := 128
  /** Pointers have 14 bits. */
  const POINTER_LIMIT: nat := 0x4000

  datatype Entry = Entry(name: seq<byte>, pos: nat)

  /** dnslabel_table_get_pos: the index of the first entry for the name, or the table's length. */
  function Find(table: seq<Entry>, name: seq<byte>): (i: nat)
    ensures i <= |table| && (i < |table| ==> table[i].name == name)
    ensures forall k | 0 <= k < i :: table[k].name != name
  {
    if table == [] || table[0].name == name then 0 else 1 + Find(table[1..], name)
  }

  /** dnslabel_table_add: a full table stays as it is. */
  function Remember(table: seq<Entry>, name: seq<byte>, pos: nat): seq<Entry> {
    if |table| == MAX_LABELS then table else table + [Entry(name, pos)]
  }

  /** What a call leaves: 0 or the negative error, the packet and the table. */
  datatype Emitted = Emitted(code: int, buf: seq<byte>, table: seq<Entry>)

  function PointerBytes(pos: nat): seq<byte>
    requires pos < POINTER_LIMIT
  {
    [(192 + pos / 256) as byte, (pos % 256) as byte]
  }

  function Terminated(buf: seq<byte>): seq<byte> {
    if buf == [] || buf[|buf| - 1] != 0 then buf + [0] else buf
  }

  function LabelBytes(lab: seq<byte>): seq<byte>
    requires |lab| <= MAX_LABEL
  {
    [|lab| as byte] + lab
  }

  predicate Small(table: seq<Entry>) {
    forall i | 0 <= i < |table| :: table[i].pos < POINTER_LIMIT
  }

  /** The loop of dnsname_to_labels, from the label at the head of name. */
  function Emit(buf: seq<byte>, table: seq<Entry>, compress: bool, name: seq<byte>, limit: nat): Emitted
    requires Small(table) && limit <= POINTER_LIMIT
    decreases |name|
  {
    var i := Find(table, name);
    if compress && i < |table| then
      if |buf| + 2 > limit then Emitted(-2, buf, table) else Emitted(0, buf + PointerBytes(table[i].pos), table)
    else
      var d := DotAt(name);
      if d > MAX_LABEL then Emitted(-1, buf, table)
      else if |buf| + d + 1 > limit then Emitted(-2, buf, table)
      else
        var table1 := if compress then Remember(table, name, |buf|) else table;
        var buf1 := buf + LabelBytes(name[..d]);
        if d == |name| then Emitted(0, Terminated(buf1), table1)
        else Emit(buf1, table1, compress, name[d + 1..], limit)
  }

  /* ----- what the table means ----- */

  /** A remembered suffix, when well formed, is what the packet spells at its position. */
  ghost predicate EntryOk(buf: seq<byte>, own: set<nat>, e: Entry) {
    e.pos < |buf| && (WellFormed(e.name) ==> Encodes(buf, own, e.pos, Labels(e.name), e.pos))
  }

  ghost predicate TableOk(buf: seq<byte>, own: set<nat>, table: seq<Entry>) {
    forall i | 0 <= i < |table| :: EntryOk(buf, own, table[i])
  }

  ghost function Span(a: nat, b: nat): set<nat> {
    set k | a <= k < b && Within(a, k, b)
  }

  predicate Within(a: nat, k: nat, b: nat) {
    a <= k < b
  }

  ghost predicate Longer(table: seq<Entry>, n: nat) {
    forall i | 0 <= i < |table| :: n < |table[i].name|
  }

  ghost predicate Before(table: seq<Entry>, start: nat) {
    forall i | 0 <= i < |table| :: table[i].pos < start
  }

  ghost predicate Extends(buf: seq<byte>, more: seq<byte>) {
    |buf| <= |more| && more[..|buf|] == buf
  }

  /** What emitting a name onto buf achieves: new bytes at the end that encode
      the name, and new entries that are right. */
  ghost predicate Achieves(buf: seq<byte>, own: set<nat>, table: seq<Entry>, name: seq<byte>, start: nat, r: Emitted) {
    var wide := own + Span(|buf|, |r.buf|);
    && Extends(buf, r.buf)
    && |buf| < |r.buf|
    && |table| <= |r.table| && r.table[..|table|] == table
    && TableOk(r.buf, wide, r.table[|table|..])
    && (WellFormed(name) ==> Encodes(r.buf, wide, |buf|, Labels(name), start) && EndOf(r.buf, |buf|) == |r.buf|)
  }

  lemma {:induction false} PointerOk(buf: seq<byte>, own: set<nat>, e: Entry, start: nat)
    requires EntryOk(buf, own, e) && e.pos < start <= |buf| && e.pos < POINTER_LIMIT && WellFormed(e.name)
    ensures var q := buf + PointerBytes(e.pos);
            Encodes(q, own + Span(|buf|, |q|), |buf|, Labels(e.name), start) && EndOf(q, |buf|) == |q|
  {
    hide WellFormed, Labels, LabelAt;
    var q := buf + PointerBytes(e.pos);
    EncodesKept(buf, own, e.pos, Labels(e.name), e.pos, q, own + Span(|buf|, |q|), start - 1);
    assert Target(q[|buf|], q[|buf| + 1]) == e.pos;
  }

  /** A label before an encoded list of labels. */
  lemma {:induction false} LabelOk(buf: seq<byte>, own: set<nat>, lab: seq<byte>, q: seq<byte>, wide: set<nat>, labels: seq<seq<byte>>, h: nat)
    requires 1 <= |lab| <= MAX_LABEL && Extends(buf + LabelBytes(lab), q)
    requires own + Span(|buf|, |buf| + 1 + |lab|) <= wide
    requires Encodes(q, wide, |buf| + 1 + |lab|, labels, h)
    ensures Encodes(q, wide, |buf|, [lab] + labels, h) && EndOf(q, |buf|) == EndOf(q, |buf| + 1 + |lab|)
  {
    var b := buf + LabelBytes(lab);
    assert ([lab] + labels)[1..] == labels;
    assert q[|buf|] == b[|buf|];
    assert q[|buf| + 1..|b|] == q[..|b|][|buf| + 1..] == lab;
    assert LabelAt(q, wide, |buf|, lab) by {
      hide Encodes;
      forall k | |buf| < k < |buf| + 1 + |lab| ensures k in wide {
        assert k in Span(|buf|, |buf| + 1 + |lab|);
      }
    }
    assert |buf| in Span(|buf|, |buf| + 1 + |lab|);
  }

  /** Encoded entries stay encoded while the packet grows. */
  lemma {:induction false} TableKept(buf: seq<byte>, own: set<nat>, table: seq<Entry>, q: seq<byte>, wide: set<nat>)
    requires TableOk(buf, own, table) && Agrees(buf, q, own) && own <= wide
    ensures TableOk(q, wide, table)
  {
    forall i | 0 <= i < |table| ensures EntryOk(q, wide, table[i]) {
      EntryKept(buf, own, table[i], q, wide);
    }
  }

  lemma {:induction false} EntryKept(buf: seq<byte>, own: set<nat>, e: Entry, q: seq<byte>, wide: set<nat>)
    requires EntryOk(buf, own, e) && Agrees(buf, q, own) && own <= wide
    ensures EntryOk(q, wide, e)
  {
    hide Encodes, Labels, WellFormed;
    if WellFormed(e.name) {
      EncodesKept(buf, own, e.pos, Labels(e.name), e.pos, q, wide, e.pos);
    }
  }

  /** Only entries older than this name can be found, since the ones added
      while writing it have longer names. */
  lemma {:induction false} FindsOld(good: seq<Entry>, pend: seq<Entry>, name: seq<byte>)
    requires Longer(pend, |name|)
    ensures var i := Find(good + pend, name); i < |good + pend| ==> i < |good|
  {
  }

  lemma {:induction false} LastLabel(buf: seq<byte>, own: set<nat>, name: seq<byte>, h: nat)
    requires |name| <= MAX_LABEL && 0 !in name && DotAt(name) == |name|
    ensures var q := Terminated(buf + LabelBytes(name));
            && Extends(buf, q) && |buf| < |q|
            && Encodes(q, own + Span(|buf|, |q|), |buf|, Labels(name), h) && EndOf(q, |buf|) == |q|
  {
    hide WellFormed, DotAt;
    var b := buf + LabelBytes(name);
    var q := Terminated(b);
    assert |buf| in Span(|buf|, |q|);
    if name == [] {
      assert q == b;
    } else {
      assert b[|b| - 1] == name[|name| - 1];
      assert |b| in Span(|buf|, |q|);
      var wide := own + Span(|buf|, |q|);
      assert Encodes(q, wide, |b|, [], h) && EndOf(q, |b|) == |q|;
      assert Extends(b, q);
      SpanWidens(own, |buf|, |buf| + 1 + |name|, |q|);
      LabelOk(buf, own, name, q, wide, [], h);
    }
  }

  lemma {:induction false} SpanWidens(own: set<nat>, a: nat, b: nat, c: nat)
    requires a <= b <= c
    ensures own + Span(a, b) <= own + Span(a, c)
    ensures own + Span(a, b) + Span(b, c) == own + Span(a, c)
  {
  }

  /** A pointer to an entry spells the entry's name. */
  lemma {:induction false} EmitPointer(buf: seq<byte>, own: set<nat>, table: seq<Entry>, i: nat, start: nat)
    requires i < |table| && EntryOk(buf, own, table[i]) && table[i].pos < start <= |buf| && table[i].pos < POINTER_LIMIT
    ensures Achieves(buf, own, table, table[i].name, start, Emitted(0, buf + PointerBytes(table[i].pos), table))
  {
    hide Encodes, WellFormed, Labels, EntryOk;
    if WellFormed(table[i].name) {
      PointerOk(buf, own, table[i], start);
    }
  }

  lemma {:induction false} EmitLast(buf: seq<byte>, own: set<nat>, table: seq<Entry>, compress: bool, name: seq<byte>, start: nat)
    requires |name| <= MAX_LABEL && 0 !in name && DotAt(name) == |name| && start <= |buf|
    ensures var table1 := if compress then Remember(table, name, |buf|) else table;
            Achieves(buf, own, table, name, start, Emitted(0, Terminated(buf + LabelBytes(name)), table1))
  {
    hide Encodes, WellFormed, Labels, DotAt, EndOf;
    LastLabel(buf, own, name, start);
    LastLabel(buf, own, name, |buf|);
  }

  ghost predicate Ready(buf: seq<byte>, own: set<nat>, good: seq<Entry>, start: nat) {
    && start <= |buf|
    && Before(good, start) && TableOk(buf, own, good)
    && forall k | k in own :: k < |buf|
  }

  /** What the rest of the name achieves, seen from one label earlier. */
  lemma {:induction false} LabelThenRest(buf: seq<byte>, own: set<nat>, table: seq<Entry>, compress: bool, name: seq<byte>, start: nat, r: Emitted)
    requires var d := DotAt(name);
             && d < |name| && d <= MAX_LABEL && start <= |buf|
             && var buf1 := buf + LabelBytes(name[..d]);
             && var table1 := if compress then Remember(table, name, |buf|) else table;
             && Achieves(buf1, own + Span(|buf|, |buf1|), table1, name[d + 1..], start, r)
    ensures Achieves(buf, own, table, name, start, r)
  {
    hide Encodes, EndOf, Span, Labels, TableOk, DotAt;
    var d := DotAt(name);
    var buf1 := buf + LabelBytes(name[..d]);
    var table1 := if compress then Remember(table, name, |buf|) else table;
    var wide := own + Span(|buf|, |r.buf|);
    SpanWidens(own, |buf|, |buf1|, |r.buf|);
    assert r.buf[..|buf|] == r.buf[..|buf1|][..|buf|] == buf;
    assert r.table[..|table|] == r.table[..|table1|][..|table|] == table;
    if WellFormed(name) {
      assert |name[..d]| == d && |buf1| == |buf| + 1 + d;
      LabelOk(buf, own, name[..d], r.buf, wide, Labels(name[d + 1..]), start);
      FirstLabel(name);
      assert [name[..d]] + Labels(name[d + 1..]) == Labels(name);
      EncodesKept(r.buf, wide, |buf|, Labels(name), start, r.buf, wide, |buf|);
    }
    NewEntries(r, wide, table, table1, Entry(name, |buf|));
  }

  /** The new entries are the one just made, if any, and those of the rest. */
  lemma {:induction false} NewEntries(r: Emitted, wide: set<nat>, table: seq<Entry>, table1: seq<Entry>, e: Entry)
    requires table1 == table || table1 == table + [e]
    requires |table1| <= |r.table| && r.table[..|table1|] == table1
    requires TableOk(r.buf, wide, r.table[|table1|..]) && EntryOk(r.buf, wide, e)
    ensures TableOk(r.buf, wide, r.table[|table|..])
  {
    hide EntryOk;
    var more := r.table[|table|..];
    forall i | 0 <= i < |more| ensures EntryOk(r.buf, wide, more[i]) {
      if table1 != table && i == 0 {
        assert more[0] == r.table[..|table1|][|table|] == e;
      } else {
        var k := |table| + i - |table1|;
        assert more[i] == r.table[|table1|..][k];
      }
    }
  }

  /** dnsname_to_labels keeps its word: a call that succeeds appends an encoding
      of the name and remembers only suffixes the packet really spells. */
  lemma {:induction false} EmitOk(buf: seq<byte>, own: set<nat>, good: seq<Entry>, pend: seq<Entry>, compress: bool, name: seq<byte>, limit: nat, start: nat)
    requires Small(good + pend) && limit <= POINTER_LIMIT && 0 !in name
    requires Ready(buf, own, good, start) && Longer(pend, |name|)
    ensures var r := Emit(buf, good + pend, compress, name, limit);
            r.code == 0 ==> Achieves(buf, own, good + pend, name, start, r)
    decreases |name|
  {
    hide Encodes, EndOf, WellFormed, Labels, Span, Achieves, Terminated, LabelBytes, PointerBytes, EntryOk;
    var table := good + pend;
    var r := Emit(buf, table, compress, name, limit);
    var i := Find(table, name);
    var d := DotAt(name);
    if r.code != 0 {
    } else if compress && i < |table| {
      FindsOld(good, pend, name);
      assert table[i] == good[i];
      EmitPointer(buf, own, table, i, start);
    } else if d == |name| {
      assert name[..d] == name;
      EmitLast(buf, own, table, compress, name, start);
    } else {
      EmitStep(buf, own, good, pend, compress, name, limit, start);
    }
  }

  lemma {:induction false} EmitStep(buf: seq<byte>, own: set<nat>, good: seq<Entry>, pend: seq<Entry>, compress: bool, name: seq<byte>, limit: nat, start: nat)
    requires Small(good + pend) && limit <= POINTER_LIMIT && 0 !in name
    requires start <= |buf| && Ready(buf, own, good, start) && Longer(pend, |name|)
    requires var d := DotAt(name); d < |name| && d <= MAX_LABEL && |buf| + d + 1 <= limit
    requires !compress || Find(good + pend, name) == |good + pend|
    requires Emit(buf, good + pend, compress, name, limit).code == 0
    ensures Achieves(buf, own, good + pend, name, start, Emit(buf, good + pend, compress, name, limit))
    decreases |name|, 0
  {
    hide Encodes, EndOf, WellFormed, Labels, Span, Achieves, EntryOk, TableOk, Ready, Longer, LabelBytes, Terminated, PointerBytes;
    var table := good + pend;
    var d := DotAt(name);
    var rest := name[d + 1..];
    var buf1 := buf + LabelBytes(name[..d]);
    var pend1 := if compress && |table| != MAX_LABELS then pend + [Entry(name, |buf|)] else pend;
    var table1 := if compress then Remember(table, name, |buf|) else table;
    assert table1 == good + pend1;
    var own1 := own + Span(|buf|, |buf1|);
    ReadyKept(buf, own, good, start, LabelBytes(name[..d]));
    PendLonger(pend, pend1, name, |buf|, rest);
    var r := Emit(buf1, table1, compress, rest, limit);
    assert r == Emit(buf, table, compress, name, limit);
    EmitOk(buf1, own1, good, pend1, compress, rest, limit, start);
    assert Achieves(buf1, own1, table1, rest, start, r);
    LabelThenRest(buf, own, table, compress, name, start, r);
  }

  lemma {:induction false} ReadyKept(buf: seq<byte>, own: set<nat>, good: seq<Entry>, start: nat, more: seq<byte>)
    requires Ready(buf, own, good, start)
    ensures Ready(buf + more, own + Span(|buf|, |buf + more|), good, start)
  {
    hide EntryOk, TableOk;
    TableKept(buf, own, good, buf + more, own + Span(|buf|, |buf + more|));
  }

  lemma {:induction false} PendLonger(pend: seq<Entry>, pend1: seq<Entry>, name: seq<byte>, pos: nat, rest: seq<byte>)
    requires Longer(pend, |name|) && |rest| < |name|
    requires pend1 == pend || pend1 == pend + [Entry(name, pos)]
    ensures Longer(pend1, |rest|)
  {
  }
}
