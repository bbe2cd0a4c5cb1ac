/** Whole packets: questions and resource records written by the server side
    and the question written by the client side, read back part by part. */
module DnsResponse {
  import opened Bytes
  import DnsNames
  import DnsCompress
  import opened DnsPacket

  const RESPONSE_BUF: nat := 1500
  const UDP_LIMIT: nat := 512
  const HEADER: nat := 12

  datatype Part =
    | Question(name: seq<byte>, kind: nat, cls: nat)
    | Record(name: seq<byte>, kind: nat, cls: nat, ttl: nat, isName: bool, data: seq<byte>)

  /** Where a part starts, where its owner name ends, and where the part ends. */
  datatype Place = Place(start: nat, mid: nat, next: nat)

  ghost function PartClaims(part: Part, at: Place): set<Claim> {
    {Spelled(at.start, part.name, at.mid), Written(at.mid, Big16(part.kind)), Written(at.mid + 2, Big16(part.cls))} +
    if part.Question? then {} else
    {Written(at.mid + 4, Big32(part.ttl)), Written(at.mid + 8, Big16(DataLength(at)))} +
    if part.isName then {Spelled(at.mid + 10, part.data, at.next)} else {Written(at.mid + 10, part.data)}
  }

  /** The value of RDLENGTH. */
  ghost function DataLength(at: Place): nat {
    if at.mid + 10 <= at.next then at.next - at.mid - 10 else 0
  }

  ghost predicate PlaceFits(part: Part, at: Place) {
    && at.start <= at.mid
    && (part.Question? ==> at.next == at.mid + 4)
    && (part.Record? ==> at.mid + 10 <= at.next && (!part.isName ==> at.next == at.mid + 10 + |part.data|))
  }

  ghost predicate PartIn(claims: set<Claim>, part: Part, at: Place) {
    PlaceFits(part, at) && PartClaims(part, at) <= claims
  }

  /** The parts lie one after another from one index to another. */
  ghost predicate LaidOut(claims: set<Claim>, parts: seq<Part>, places: seq<Place>, from: nat, to: nat)
    decreases |parts|
  {
    && |parts| == |places|
    && if parts == [] then from == to
       else
         var n := |parts| - 1;
         && PartIn(claims, parts[n], places[n]) && places[n].next == to
         && LaidOut(claims, parts[..n], places[..n], from, places[n].start)
  }

  lemma {:induction false} LaidOutKept(claims: set<Claim>, parts: seq<Part>, places: seq<Place>, from: nat, to: nat, more: set<Claim>)
    requires LaidOut(claims, parts, places, from, to) && claims <= more
    ensures LaidOut(more, parts, places, from, to)
    decreases |parts|
  {
    hide PartClaims, PlaceFits;
    if parts != [] {
      var n := |parts| - 1;
      LaidOutKept(claims, parts[..n], places[..n], from, places[n].start, more);
    }
  }

  lemma {:induction false} LaidOutMore(claims: set<Claim>, parts: seq<Part>, places: seq<Place>, from: nat, to: nat,
                                       more: set<Claim>, part: Part, at: Place)
    requires LaidOut(claims, parts, places, from, to) && claims <= more
    requires PartIn(more, part, at) && at.start == to
    ensures LaidOut(more, parts + [part], places + [at], from, at.next)
  {
    hide PartIn;
    LaidOutKept(claims, parts, places, from, to, more);
    assert (parts + [part])[..|parts|] == parts && (places + [at])[..|parts|] == places;
  }

  predicate CString(s: seq<byte>) {
    0 !in s
  }

  predicate PartOk(part: Part) {
    && CString(part.name) && part.kind < 0x10000 && part.cls < 0x10000
    && (part.Record? ==> |part.data| < 0x10000 && part.ttl < 0x100000000 && (part.isName ==> CString(part.data)))
  }

  /** All names of the part can be written. */
  predicate PartTame(part: Part) {
    Tame(part.name) && (part.Record? && part.isName ==> Tame(part.data))
  }

  /** What a part needs at most, without any compression. */
  function Room(part: Part): nat {
    |part.name| + 2 +
    if part.Question? then 4 else if part.isName then 10 + |part.data| + 2 else 10 + |part.data|
  }

  function RoomAll(parts: seq<Part>): nat {
    if parts == [] then 0 else RoomAll(parts[..|parts| - 1]) + Room(parts[|parts| - 1])
  }

  lemma {:induction false} RoomMore(parts: seq<Part>, i: nat)
    requires i < |parts|
    ensures RoomAll(parts[..i + 1]) == RoomAll(parts[..i]) + Room(parts[i])
    ensures RoomAll(parts[..i + 1]) <= RoomAll(parts)
    decreases |parts|
  {
    assert parts[..i + 1][..i] == parts[..i];
    if i + 1 < |parts| {
      var shorter := parts[..|parts| - 1];
      assert shorter[..i + 1] == parts[..i + 1] && shorter[..i] == parts[..i];
      RoomMore(shorter, i);
    } else {
      assert parts[..i + 1] == parts;
    }
  }

  ghost predicate AllTame(parts: seq<Part>) {
    forall i | 0 <= i < |parts| :: PartTame(parts[i])
  }

  /** The index after a question that starts at n. */
  function QuestionEnd(n: nat, table: seq<DnsCompress.Entry>, compress: bool, name: seq<byte>): nat {
    n + Need(table, compress, name) + Closing(table, compress, name) + 4
  }

  method WriteQuestion(w: Packet, part: Part) returns (code: int, ghost at: Place)
    requires w.Valid() && PartOk(part) && part.Question?
    modifies w
    ensures code in {0, -1, -2, 1}
    ensures code == 0 ==> w.Valid() && at.start == old(|w.buf|) && at.next == |w.buf| <= w.limit
    ensures code == 0 ==> old(w.claims) <= w.claims && PartIn(w.claims, part, at)
    ensures code == 0 <==> |part.name| <= DnsNames.MAX_NAME && Writable(old(|w.buf|), old(w.table), w.compress, part.name, w.limit) &&
                           QuestionEnd(old(|w.buf|), old(w.table), w.compress, part.name) <= w.limit
    ensures PartTame(part) && old(|w.buf|) + Room(part) <= w.limit ==> code == 0 && |w.buf| <= old(|w.buf|) + Room(part)
  {
    hide Sound;
    at := Place(|w.buf|, 0, 0);
    code := w.ToLabels(part.name);
    if code < 0 {
      return;
    }
    at := at.(mid := |w.buf|);
    var ok := w.Append(Big16(part.kind));
    if ok {
      ok := w.Append(Big16(part.cls));
    }
    at := at.(next := |w.buf|);
    code := if ok then 0 else 1;
  }

  /** The owner name and the fixed fields of a record, up to its data length. */
  method WriteOwner(w: Packet, part: Part) returns (ok: bool, ghost mid: nat)
    requires w.Valid() && PartOk(part) && part.Record?
    modifies w
    ensures ok ==> w.Valid() && old(|w.buf|) <= mid && |w.buf| == mid + 8 && old(w.claims) <= w.claims
    ensures ok ==> {Spelled(old(|w.buf|), part.name, mid), Written(mid, Big16(part.kind)), Written(mid + 2, Big16(part.cls)),
                    Written(mid + 4, Big32(part.ttl))} <= w.claims
    ensures Tame(part.name) && old(|w.buf|) + |part.name| + 10 <= w.limit ==> ok && |w.buf| <= old(|w.buf|) + |part.name| + 10
  {
    hide Sound;
    mid := 0;
    var code := w.ToLabels(part.name);
    ok := code >= 0;
    if ok {
      mid := |w.buf|;
      ok := w.Append(Big16(part.kind));
    }
    if ok {
      ok := w.Append(Big16(part.cls));
    }
    if ok {
      ok := w.Append(Big32(part.ttl));
    }
  }

  /** Data that is itself a name: its length is filled in afterwards. */
  method WriteNameData(w: Packet, data: seq<byte>) returns (ok: bool)
    requires w.Valid() && CString(data)
    modifies w
    ensures ok ==> w.Valid() && old(|w.buf|) + 2 <= |w.buf| && old(w.claims) <= w.claims
    ensures ok ==> {Written(old(|w.buf|), Big16(|w.buf| - old(|w.buf|) - 2)), Spelled(old(|w.buf|) + 2, data, |w.buf|)} <= w.claims
    ensures Tame(data) && old(|w.buf|) + |data| + 4 <= w.limit ==> ok && |w.buf| <= old(|w.buf|) + |data| + 4
  {
    hide Sound;
    var at := |w.buf|;
    w.Reserve();
    var code := w.ToLabels(data);
    ok := code >= 0;
    if ok {
      w.Patch(at, |w.buf| - at - 2);
    }
  }

  method WriteRawData(w: Packet, data: seq<byte>) returns (ok: bool)
    requires w.Valid() && |data| < 0x10000
    modifies w
    ensures ok ==> w.Valid() && |w.buf| == old(|w.buf|) + 2 + |data| && old(w.claims) <= w.claims
    ensures ok ==> {Written(old(|w.buf|), Big16(|data|)), Written(old(|w.buf|) + 2, data)} <= w.claims
    ensures old(|w.buf|) + |data| + 2 <= w.limit ==> ok
  {
    hide Sound;
    ok := w.Append(Big16(|data|));
    if ok {
      ok := w.Append(data);
    }
  }

  method WriteRecord(w: Packet, part: Part) returns (ok: bool, ghost at: Place)
    requires w.Valid() && PartOk(part) && part.Record?
    modifies w
    ensures ok ==> w.Valid() && at.start == old(|w.buf|) && at.next == |w.buf|
    ensures ok ==> old(w.claims) <= w.claims && PartIn(w.claims, part, at)
    ensures PartTame(part) && old(|w.buf|) + Room(part) <= w.limit ==> ok && |w.buf| <= old(|w.buf|) + Room(part)
  {
    hide Sound;
    at := Place(|w.buf|, 0, 0);
    ghost var mid;
    ok, mid := WriteOwner(w, part);
    if !ok {
      return;
    }
    if part.isName {
      ok := WriteNameData(w, part.data);
    } else {
      ok := WriteRawData(w, part.data);
    }
    at := Place(at.start, mid, |w.buf|);
  }

  /** One of the three sections of records. */
  method WriteRecords(w: Packet, parts: seq<Part>, ghost from: nat, ghost before: seq<Part>, ghost places: seq<Place>)
    returns (ok: bool, ghost more: seq<Place>)
    requires w.Valid() && LaidOut(w.claims, before, places, from, |w.buf|)
    requires forall i | 0 <= i < |parts| :: PartOk(parts[i]) && parts[i].Record?
    modifies w
    ensures ok ==> w.Valid() && old(w.claims) <= w.claims
    ensures ok ==> LaidOut(w.claims, before + parts, more, from, |w.buf|)
    ensures AllTame(parts) && old(|w.buf|) + RoomAll(parts) <= w.limit ==> ok && |w.buf| <= old(|w.buf|) + RoomAll(parts)
  {
    hide Sound, LaidOut, PartIn, Room, PartTame, RoomAll;
    more := places;
    var i := 0;
    ok := true;
    assert before + parts[..0] == before && parts[..0] == [];
    RoomNone();
    while i < |parts|
      invariant 0 <= i <= |parts| && ok && w.Valid() && old(w.claims) <= w.claims
      invariant LaidOut(w.claims, before + parts[..i], more, from, |w.buf|)
      invariant AllTame(parts) && old(|w.buf|) + RoomAll(parts) <= w.limit ==> |w.buf| <= old(|w.buf|) + RoomAll(parts[..i])
    {
      RoomMore(parts, i);
      ghost var claims, to := w.claims, |w.buf|;
      ghost var at;
      ok, at := WriteRecord(w, parts[i]);
      if !ok {
        return;
      }
      LaidOutMore(claims, before + parts[..i], more, from, to, w.claims, parts[i], at);
      assert before + parts[..i] + [parts[i]] == before + parts[..i + 1];
      more := more + [at];
      i := i + 1;
    }
    assert parts[..|parts|] == parts;
  }

  method WriteQuestions(w: Packet, parts: seq<Part>) returns (code: int, ghost places: seq<Place>)
    requires w.Valid()
    requires forall i | 0 <= i < |parts| :: PartOk(parts[i]) && parts[i].Question?
    modifies w
    ensures code in {0, -1, -2, 1}
    ensures code == 0 ==> w.Valid() && old(w.claims) <= w.claims
    ensures code == 0 ==> LaidOut(w.claims, parts, places, old(|w.buf|), |w.buf|)
    ensures AllTame(parts) && old(|w.buf|) + RoomAll(parts) <= w.limit ==> code == 0 && |w.buf| <= old(|w.buf|) + RoomAll(parts)
  {
    hide Sound, LaidOut, PartIn, Room, PartTame, RoomAll;
    places := [];
    var i := 0;
    code := 0;
    assert parts[..0] == [];
    RoomNone();
    assert LaidOut(w.claims, parts[..0], [], |w.buf|, |w.buf|) by { LaidOutNone(w.claims, |w.buf|); }
    while i < |parts|
      invariant 0 <= i <= |parts| && code == 0 && w.Valid() && old(w.claims) <= w.claims
      invariant LaidOut(w.claims, parts[..i], places, old(|w.buf|), |w.buf|)
      invariant AllTame(parts) && old(|w.buf|) + RoomAll(parts) <= w.limit ==> |w.buf| <= old(|w.buf|) + RoomAll(parts[..i])
    {
      RoomMore(parts, i);
      ghost var claims, to := w.claims, |w.buf|;
      ghost var at;
      code, at := WriteQuestion(w, parts[i]);
      if code != 0 {
        return;
      }
      LaidOutMore(claims, parts[..i], places, old(|w.buf|), to, w.claims, parts[i], at);
      assert parts[..i] + [parts[i]] == parts[..i + 1];
      places := places + [at];
      i := i + 1;
    }
    assert parts[..|parts|] == parts;
  }

  lemma {:induction false} RoomNone()
    ensures RoomAll([]) == 0
  {
  }

  lemma {:induction false} LaidOutNone(claims: set<Claim>, n: nat)
    ensures LaidOut(claims, [], [], n, n)
  {
  }

  /* ----- whole packets ----- */

  datatype Reply = Refused(code: int) | Truncated | Sent(bytes: seq<byte>)

  ghost predicate AllRead(p: seq<byte>, claims: set<Claim>) {
    forall c | c in claims :: Reads(p, c)
  }

  function Header(transId: nat, flags: nat, counts: seq<nat>): seq<byte>
    requires |counts| == 4
  {
    Big16(transId) + Big16(flags) + Big16(counts[0]) + Big16(counts[1]) + Big16(counts[2]) + Big16(counts[3])
  }

  lemma {:induction false} SoundReads(p: seq<byte>, own: set<nat>, table: seq<DnsCompress.Entry>, claims: set<Claim>)
    requires Sound(p, own, table, claims)
    ensures AllRead(p, claims)
  {
    hide Reads, Holds, DnsCompress.TableOk;
    forall c | c in claims ensures Reads(p, c) {
      HoldsReads(p, own, c);
    }
  }

  /** What a reader finds in the header (section 4.1.1 of RFC 1035). */
  ghost predicate HeaderSays(p: seq<byte>, transId: nat, flags: nat, counts: seq<nat>)
    requires |counts| == 4
  {
    && |p| >= HEADER
    && Number(p[0..2]) == transId % 0x10000 && Number(p[2..4]) == flags % 0x10000
    && Number(p[4..6]) == counts[0] % 0x10000 && Number(p[6..8]) == counts[1] % 0x10000
    && Number(p[8..10]) == counts[2] % 0x10000 && Number(p[10..12]) == counts[3] % 0x10000
  }

  lemma {:induction false} FieldReads(p: seq<byte>, at: nat, x: nat, head: seq<byte>)
    requires at + 2 <= |head| <= |p| && p[..|head|] == head && head[at] == Big16(x)[0] && head[at + 1] == Big16(x)[1]
    ensures Number(p[at..at + 2]) == x % 0x10000
  {
    hide Number;
    Big16Reads(x);
    assert p[..|head|][at] == p[at] && p[..|head|][at + 1] == p[at + 1];
    assert p[at..at + 2] == Big16(x);
  }

  /** The header written is the header read. */
  lemma {:induction false} HeaderFields(p: seq<byte>, transId: nat, flags: nat, counts: seq<nat>)
    requires |counts| == 4 && |p| >= HEADER && p[..HEADER] == Header(transId, flags, counts)
    ensures HeaderSays(p, transId, flags, counts)
  {
    hide Number;
    var head := Header(transId, flags, counts);
    FieldReads(p, 0, transId, head);
    FieldReads(p, 2, flags, head);
    FieldReads(p, 4, counts[0], head);
    FieldReads(p, 6, counts[1], head);
    FieldReads(p, 8, counts[2], head);
    FieldReads(p, 10, counts[3], head);
  }

  lemma {:induction false} HeaderReads(p: seq<byte>, claims: set<Claim>, head: seq<byte>)
    requires AllRead(p, claims) && Written(0, head) in claims
    ensures |head| <= |p| && p[..|head|] == head
  {
    assert Reads(p, Written(0, head));
    assert p[0..|head|] == p[..|head|];
  }

  /** The four lists of a server's answer. */
  datatype Sections = Sections(questions: seq<Part>, answer: seq<Part>, authority: seq<Part>, additional: seq<Part>)

  predicate SectionsOk(s: Sections) {
    && (forall i | 0 <= i < |s.questions| :: PartOk(s.questions[i]) && s.questions[i].Question?)
    && (forall i | 0 <= i < |s.answer| :: PartOk(s.answer[i]) && s.answer[i].Record?)
    && (forall i | 0 <= i < |s.authority| :: PartOk(s.authority[i]) && s.authority[i].Record?)
    && (forall i | 0 <= i < |s.additional| :: PartOk(s.additional[i]) && s.additional[i].Record?)
  }

  ghost predicate SectionsTame(s: Sections) {
    AllTame(s.questions) && AllTame(s.answer) && AllTame(s.authority) && AllTame(s.additional)
  }

  function SectionsRoom(s: Sections): nat {
    RoomAll(s.questions) + RoomAll(s.answer) + RoomAll(s.authority) + RoomAll(s.additional)
  }

  /** evdns_server_request_format_response: an answer that is not truncated reads
      back part by part, every name through whatever pointers it uses. One that can
      be written is truncated only if all of it, written out, is longer than 512. */
  method FormatResponse(transId: nat, flags: bv16, s: Sections, err: int)
    returns (r: Reply, ghost whole: seq<byte>, ghost claims: set<Claim>, ghost places: seq<Place>)
    requires SectionsOk(s)
    ensures err < 0 || err > 15 ==> r == Refused(-1)
    ensures r.Refused? ==> err < 0 || err > 15 || r.code in {-1, -2}
    ensures 0 <= err <= 15 && SectionsTame(s) && HEADER + SectionsRoom(s) <= UDP_LIMIT ==> r.Sent?
    ensures 0 <= err <= 15 && SectionsTame(s) && HEADER + SectionsRoom(s) <= RESPONSE_BUF ==>
              (r == if |whole| > UDP_LIMIT then Truncated else Sent(whole)) && Faithful(whole, transId, flags, s, err, claims, places)
    ensures r.Sent? ==> r.bytes == whole && |whole| <= UDP_LIMIT && Faithful(whole, transId, flags, s, err, claims, places)
  {
    hide Sound, LaidOut, AllRead, SectionsOk, SectionsTame, SectionsRoom, Header, HeaderSays, AnswerFlags;
    whole, claims, places := [], {}, [];
    if err < 0 || err > 15 {
      return Refused(-1), whole, claims, places;
    }
    var w := new Packet(RESPONSE_BUF, true);
    var all, counts := AnswerFlags(flags, err) as nat, Counts(s);
    HeaderSize(transId, all, counts);
    var head := Header(transId, all, counts);
    var ok := w.Append(head);
    var code;
    code, places := WriteSections(w, s);
    if code < 0 {
      return Refused(code), whole, claims, places;
    }
    whole, claims := w.buf, w.claims;
    if code == 0 {
      SoundReads(whole, w.own, w.table, claims);
      HeaderReads(whole, claims, head);
      HeaderFields(whole, transId, all, counts);
    }
    r := if code != 0 || |w.buf| > UDP_LIMIT then Truncated else Sent(w.buf);
  }

  /** Everything after the header; 1 if the buffer is too small. */
  method WriteSections(w: Packet, s: Sections) returns (code: int, ghost places: seq<Place>)
    requires w.Valid() && SectionsOk(s)
    modifies w
    ensures code in {0, -1, -2, 1}
    ensures code == 0 ==> w.Valid() && old(w.claims) <= w.claims && LaidOut(w.claims, AllParts(s), places, old(|w.buf|), |w.buf|)
    ensures SectionsTame(s) && old(|w.buf|) + SectionsRoom(s) <= w.limit ==>
              code == 0 && |w.buf| <= old(|w.buf|) + SectionsRoom(s)
  {
    hide Sound, LaidOut, PartOk, AllTame, RoomAll;
    code, places := WriteQuestions(w, s.questions);
    if code != 0 {
      return;
    }
    var ok;
    ok, places := WriteRecords(w, s.answer, old(|w.buf|), s.questions, places);
    if ok {
      ok, places := WriteRecords(w, s.authority, old(|w.buf|), s.questions + s.answer, places);
    }
    if ok {
      ok, places := WriteRecords(w, s.additional, old(|w.buf|), s.questions + s.answer + s.authority, places);
    }
    code := if ok then 0 else 1;
  }

  function AllParts(s: Sections): seq<Part> {
    s.questions + s.answer + s.authority + s.additional
  }

  function Counts(s: Sections): seq<nat> {
    [|s.questions|, |s.answer|, |s.authority|, |s.additional|]
  }

  /** The response bit and the error code are set, and the asker's other bits are kept. */
  function AnswerFlags(flags: bv16, err: int): (r: bv16)
    requires 0 <= err <= 15
    ensures r & 0x8000 == 0x8000 && r & 0xf == (flags & 0xf) | err as bv16 && r & 0x7ff0 == flags & 0x7ff0
  {
    flags | 0x8000 | err as bv16
  }

  lemma {:induction false} HeaderSize(transId: nat, flags: nat, counts: seq<nat>)
    requires |counts| == 4
    ensures |Header(transId, flags, counts)| == HEADER
  {
  }

  /** The packet says what the answer is, from its header to its last part. */
  ghost predicate Faithful(p: seq<byte>, transId: nat, flags: bv16, s: Sections, err: int, claims: set<Claim>, places: seq<Place>)
    requires 0 <= err <= 15
  {
    && HeaderSays(p, transId, AnswerFlags(flags, err) as nat, Counts(s))
    && AllRead(p, claims) && LaidOut(claims, AllParts(s), places, HEADER, |p|)
  }

  /** evdns_request_data_build: the question sent, if any, reads back. */
  method RequestDataBuild(name: seq<byte>, transId: nat, kind: nat, cls: nat, bufLen: nat)
    returns (r: Reply, ghost claims: set<Claim>, ghost at: Place)
    requires PartOk(Question(name, kind, cls)) && bufLen <= DnsCompress.POINTER_LIMIT
    ensures Tame(name) && HEADER + |name| + 6 <= bufLen ==> r.Sent?
    ensures r.Sent? ==> HEADER <= |r.bytes| <= bufLen
    ensures r.Sent? ==> AllRead(r.bytes, claims) && PartIn(claims, Question(name, kind, cls), at)
    ensures r.Sent? ==> at.start == HEADER && at.next == |r.bytes|
    ensures r.Sent? ==> HeaderSays(r.bytes, transId, 0x0100, [1, 0, 0, 0])
    ensures r.Sent? <==> |name| <= DnsNames.MAX_NAME && Writable(HEADER, [], false, name, bufLen) && QuestionEnd(HEADER, [], false, name) <= bufLen
  {
    hide Sound, PartIn, PartOk, AllRead;
    var w := new Packet(bufLen, false);
    var ok := w.Append(Header(transId, 0x0100, [1, 0, 0, 0]));
    claims, at := {}, Place(0, 0, 0);
    if !ok {
      return Refused(-1), claims, at;
    }
    var code;
    code, at := WriteQuestion(w, Question(name, kind, cls));
    claims := w.claims;
    if code != 0 {
      return Refused(if code < 0 then code else -1), claims, at;
    }
    SoundReads(w.buf, w.own, w.table, w.claims);
    HeaderReads(w.buf, claims, Header(transId, 0x0100, [1, 0, 0, 0]));
    HeaderFields(w.buf, transId, 0x0100, [1, 0, 0, 0]);
    r := Sent(w.buf);
  }
}
