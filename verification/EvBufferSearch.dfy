/** Searching an evbuffer across its chunks, and reading it line by line. */
module EvBufferSearch {
  import opened Bytes
  import opened Options
  import opened EvBuffer
  import Words

  const CR: byte := 13
  const LF: byte := 10
  const CHUNK_SZ: nat := 128

  /** struct evbuffer_ptr; pos is -1 when nothing was found. */
  datatype Ptr = Ptr(pos: int, chain: Chain?, at: nat)

  const NOT_FOUND := Ptr(-1, null, 0)

  /** p is the place `at` of chunk number i, and knows its position. */
  ghost predicate PtrAt(b: Buffer, p: Ptr, i: int)
    reads b
  {
    b.PlaceOk(p.chain, i, p.at) && p.pos == b.PlacePos(i, p.at)
  }

  /* ----- what is searched for ----- */

  predicate MatchAt(s: seq<byte>, p: nat, what: seq<byte>) {
    p + |what| <= |s| && s[p..p + |what|] == what
  }

  ghost predicate NoMatch(s: seq<byte>, what: seq<byte>, from: nat, to: nat) {
    forall p | from <= p < to :: !MatchAt(s, p, what)
  }

  /** memchr: the first place of c, or the length. */
  function FirstOf(s: seq<byte>, c: byte): (k: nat)
    ensures k <= |s| && (k < |s| ==> s[k] == c) && forall j | 0 <= j < k :: s[j] != c
  {
    if s == [] || s[0] == c then 0 else 1 + FirstOf(s[1..], c)
  }

  /** A stretch without the first byte has no match. */
  lemma {:induction false} NoFirst(s: seq<byte>, what: seq<byte>, from: nat, piece: seq<byte>, k: nat)
    requires what != [] && from + |piece| <= |s| && piece == s[from..from + |piece|] && k <= |piece|
    requires forall j | 0 <= j < k :: piece[j] != what[0]
    ensures NoMatch(s, what, from, from + k)
  {
    forall p | from <= p < from + k ensures !MatchAt(s, p, what) {
      assert s[p] == piece[p - from];
    }
  }

  lemma {:induction false} NoMatchJoin(s: seq<byte>, what: seq<byte>, a: nat, b: nat, c: nat)
    requires NoMatch(s, what, a, b) && NoMatch(s, what, b, c)
    ensures NoMatch(s, what, a, c)
  {
    hide MatchAt;
  }

  /* ----- evbuffer_ptr_memcmp ----- */

  /** memcmp on as many bytes as the second has: the sign of the first difference. */
  function Memcmp(a: seq<byte>, b: seq<byte>): (r: int)
    requires |a| == |b|
    ensures r == 0 <==> a == b
  {
    if a == [] then 0
    else if a[0] != b[0] then (if a[0] < b[0] then -1 else 1)
    else assert a == [a[0]] + a[1..] && b == [b[0]] + b[1..]; Memcmp(a[1..], b[1..])
  }

  /** What two stretches share in front does not matter, and once they differ
      what follows does not. */
  lemma {:induction false} MemcmpConcat(a: seq<byte>, b: seq<byte>, c: seq<byte>, d: seq<byte>)
    requires |a| == |c| && |b| == |d|
    ensures Memcmp(a + b, c + d) == if a == c then Memcmp(b, d) else Memcmp(a, c)
  {
    if a == [] {
      assert a + b == b && c + d == d;
    } else {
      assert (a + b)[1..] == a[1..] + b && (c + d)[1..] == c[1..] + d;
      assert a == [a[0]] + a[1..] && c == [c[0]] + c[1..];
      MemcmpConcat(a[1..], b, c[1..], d);
    }
  }

  /** The beginning, the next n bytes and the rest. */
  lemma {:induction false} Thirds(s: seq<byte>, done: nat, n: nat)
    requires done + n <= |s|
    ensures s == s[..done] + (s[done..done + n] + s[done + n..]) && s[..done + n] == s[..done] + s[done..done + n]
  {
  }

  /** A piece that stands after an equal beginning. */
  lemma {:induction false} MemcmpPiece(s: seq<byte>, what: seq<byte>, done: nat, n: nat)
    requires |s| == |what| && done + n <= |what| && s[..done] == what[..done]
    ensures s[done..done + n] == what[done..done + n] ==> s[..done + n] == what[..done + n]
    ensures s[done..done + n] != what[done..done + n] ==>
              Memcmp(s, what) == Memcmp(s[done..done + n], what[done..done + n])
  {
    hide Memcmp;
    Thirds(s, done, n);
    Thirds(what, done, n);
    var s1, s2, w1, w2 := s[done..done + n], s[done + n..], what[done..done + n], what[done + n..];
    MemcmpConcat(s[..done], s1 + s2, what[..done], w1 + w2);
    MemcmpConcat(s1, s2, w1, w2);
  }

  /** One chunk's worth of the comparison of `all`, the bytes from `from` on, with
      `what`. */
  method ComparePiece(b: Buffer, c: Chain, ghost i: int, at: nat, what: seq<byte>, ghost from: nat, ghost all: seq<byte>,
                      done: nat)
    returns (r: int, n: nat)
    requires b.Valid() && b.PlaceOk(c, i, at) && b.PlacePos(i, at) == from + done && done < |what|
    requires from + |what| <= |b.Content()| && all == b.Content()[from..from + |what|] && all[..done] == what[..done]
    ensures c.InBounds() && at <= c.off && done + n <= |what|
    ensures r == 0 ==> all[..done + n] == what[..done + n]
    ensures r != 0 ==> r == Memcmp(all, what)
    ensures done + n < |what| ==>
              b.PlaceOk(c.next, i + 1, 0) && b.PlacePos(i + 1, 0) == from + done + n
    ensures c.next == null && done + n < |what| ==> false
  {
    hide Join, LastData, Buffer.Spine, Buffer.NodeOk, Buffer.PlacePos, Memcmp;
    b.PlaceInside(c, i, at);
    n := if |what| - done + at > c.off then c.off - at else |what| - done;
    var piece := b.Piece(c, i, at, n);
    SliceSlice(b.Content(), from, from + |what|, done, done + n);
    MemcmpPiece(all, what, done, n);
    r := Memcmp(piece, what[done..done + n]);
    b.PlaceInside(c.next, i + 1, 0);
  }

  /** evbuffer_ptr_memcmp: the bytes at p against those of `what`, across any
      chunk boundaries. */
  method PtrMemcmp(b: Buffer, p: Ptr, ghost i0: int, what: seq<byte>) returns (r: int)
    requires b.Valid() && (p.pos >= 0 ==> PtrAt(b, p, i0))
    ensures b.totalLen == |b.Content()|
    ensures r == if p.pos < 0 || p.pos + |what| > b.totalLen then -1
                 else Memcmp(b.Content()[p.pos..p.pos + |what|], what)
  {
    hide Join, LastData, Buffer.Spine, Buffer.NodeOk, Buffer.PlacePos, Memcmp;
    if p.pos < 0 || p.pos + |what| > b.totalLen {
      return -1;
    }
    ghost var from: nat := p.pos;
    ghost var all := b.Content()[from..from + |what|];
    var c, at: nat, done: nat := p.chain, p.at, 0;
    ghost var i := i0;
    b.PlaceInside(c, i, at);
    while done < |what| && c != null
      invariant done <= |what| && all[..done] == what[..done]
      invariant done < |what| ==> c != null && b.PlaceOk(c, i, at) && b.PlacePos(i, at) == from + done
      decreases |b.chains| - i
      modifies {}
    {
      var n;
      r, n := ComparePiece(b, c, i, at, what, from, all, done);
      if r != 0 {
        return;
      }
      done := done + n;
      c, at, i := c.next, 0, i + 1;
    }
    assert what[..done] == what && all[..done] == all;
    r := Memcmp(what, what);
  }

  /* ----- evbuffer_search_range ----- */

  /** Where a search stops: the end of the buffer, or the given place. */
  ghost function Limit(b: Buffer, end: Option<Ptr>): int
    reads b
  {
    if end.None? then b.totalLen else end.value.pos
  }

  /** Takes one step of the search: over the bytes of this chunk before the next
      place where the first byte stands, and compares there. */
  method SearchChunk(b: Buffer, p: Ptr, ghost i: int, what: seq<byte>) returns (seen: bool, hit: bool, q: Ptr)
    requires b.Valid() && PtrAt(b, p, i) && p.chain != null && what != []
    ensures p.pos <= q.pos && NoMatch(b.Content(), what, p.pos, q.pos)
    ensures seen ==> PtrAt(b, q, i) && q.at < q.chain.off && q.chain == p.chain && (hit <==> MatchAt(b.Content(), q.pos, what))
    ensures !seen ==> !hit && PtrAt(b, q, i + 1) && q.at == 0 && i < |b.chains| && q.chain == p.chain.next
  {
    hide Join, LastData, Buffer.Spine, Buffer.NodeOk;
    b.PlaceInside(p.chain, i, p.at);
    var piece := b.Piece(p.chain, i, p.at, p.chain.off - p.at);
    var k := FirstOf(piece, what[0]);
    NoFirst(b.Content(), what, p.pos, piece, k);
    seen := k < |piece|;
    if seen {
      q := Ptr(p.pos + k, p.chain, p.at + k);
      var r := PtrMemcmp(b, q, i, what);
      hit := r == 0;
    } else {
      hit, q := false, Ptr(p.pos + k, p.chain.next, 0);
    }
  }

  /** Just after a place where the comparison failed. */
  method StepOver(b: Buffer, q: Ptr, ghost i: int, what: seq<byte>) returns (r: Ptr, ghost j: int)
    requires b.Valid() && PtrAt(b, q, i) && q.chain != null && q.chain.InBounds() && q.at < q.chain.off
    requires !MatchAt(b.Content(), q.pos, what)
    ensures PtrAt(b, r, j) && r.pos == q.pos + 1 && i <= j
    ensures NoMatch(b.Content(), what, q.pos, r.pos)
  {
    hide Join, LastData, Buffer.Spine, Buffer.NodeOk;
    b.PlaceInside(q.chain, i, q.at);
    if q.at + 1 == q.chain.off {
      r, j := Ptr(q.pos + 1, q.chain.next, 0), i + 1;
    } else {
      r, j := Ptr(q.pos + 1, q.chain, q.at + 1), i;
    }
  }

  /** The leftmost place at or after start where the bytes stand and end by end. */
  method SearchRange(b: Buffer, what: seq<byte>, start: Option<Ptr>, ghost si: int, end: Option<Ptr>, ghost ei: int)
    returns (r: Ptr, ghost ri: int)
    requires b.Valid() && (start.Some? ==> PtrAt(b, start.value, si)) && (end.Some? ==> PtrAt(b, end.value, ei))
    ensures var from := if start.Some? then start.value.pos else 0;
            && from >= 0
            && (what == [] || |what| > Words.SSIZE_MAX ==> r.pos == from)
            && (0 < |what| <= Words.SSIZE_MAX ==>
                  && (r.pos >= 0 ==> from <= r.pos && MatchAt(b.Content(), r.pos, what)
                                     && r.pos + |what| <= Limit(b, end) && NoMatch(b.Content(), what, from, r.pos))
                  && (r.pos < 0 ==> r == NOT_FOUND && forall p | from <= p && p + |what| <= Limit(b, end) :: !MatchAt(b.Content(), p, what)))
    ensures r.pos >= 0 ==> PtrAt(b, r, ri)
  {
    hide Join, LastData, Buffer.NodeOk, Buffer.PlacePos, MatchAt, NoMatch;
    var p := if start.Some? then start.value else Ptr(0, b.first, 0);
    ghost var i := if start.Some? then si else 0;
    AtStart(b);
    ghost var from: nat := p.pos;
    if what == [] || |what| > Words.SSIZE_MAX {
      return p, i;
    }
    NoneYet(b.Content(), what, from);
    while p.chain != null
      invariant PtrAt(b, p, i) && from <= p.pos && NoMatch(b.Content(), what, from, p.pos)
      decreases b.totalLen - p.pos, |b.chains| - i
      modifies {}
    {
      b.PlaceInside(p.chain, i, p.at);
      var seen, hit, q := SearchChunk(b, p, i, what);
      NoMatchJoin(b.Content(), what, from, p.pos, q.pos);
      if hit {
        if end.Some? && q.pos + |what| > end.value.pos {
          FirstTooLate(b.Content(), what, from, q.pos, end.value.pos);
          return NOT_FOUND, 0;
        }
        HitInside(b.Content(), what, q.pos);
        return q, i;
      }
      if seen {
        ghost var j;
        p, j := StepOver(b, q, i, what);
        NoMatchJoin(b.Content(), what, from, q.pos, p.pos);
        b.PlaceInside(p.chain, j, p.at);
        i := j;
      } else {
        if end.Some? && p.chain == end.value.chain {
          EndHere(b, p, i, end.value, ei, q);
          TooFar(b.Content(), what, from, q.pos, end.value.pos);
          return NOT_FOUND, 0;
        }
        p, i := q, i + 1;
      }
    }
    b.PlaceInside(p.chain, i, p.at);
    if end.Some? {
      b.PlaceInside(end.value.chain, ei, end.value.at);
    }
    TooFar(b.Content(), what, from, p.pos, Limit(b, end));
    r, ri := NOT_FOUND, 0;
  }

  lemma {:induction false} AtStart(b: Buffer)
    requires b.Valid()
    ensures b.PlaceOk(b.first, 0, 0) && b.PlacePos(0, 0) == 0 && b.totalLen == |b.Content()|
  {
    hide LastData;
    assert b.windows[..0] == [];
  }

  lemma {:induction false} NoneYet(s: seq<byte>, what: seq<byte>, from: nat)
    ensures NoMatch(s, what, from, from)
  {
  }

  lemma {:induction false} HitInside(s: seq<byte>, what: seq<byte>, p: nat)
    requires MatchAt(s, p, what)
    ensures p + |what| <= |s|
  {
  }

  /** No match before `to`, and what begins at or after it ends too late. */
  lemma {:induction false} TooFar(s: seq<byte>, what: seq<byte>, from: nat, to: nat, limit: int)
    requires NoMatch(s, what, from, to) && limit <= to && what != []
    ensures forall p | from <= p && p + |what| <= limit :: !MatchAt(s, p, what)
  {
    hide MatchAt;
  }

  lemma {:induction false} FirstTooLate(s: seq<byte>, what: seq<byte>, from: nat, first: nat, limit: int)
    requires NoMatch(s, what, from, first) && first + |what| > limit
    ensures forall p | from <= p && p + |what| <= limit :: !MatchAt(s, p, what)
  {
    hide MatchAt;
  }

  /** The end is in this chunk, so it is not after the next one begins. */
  lemma {:induction false} EndHere(b: Buffer, p: Ptr, i: int, end: Ptr, ei: int, q: Ptr)
    requires b.Valid() && PtrAt(b, p, i) && PtrAt(b, end, ei) && p.chain == end.chain && p.chain != null
    requires PtrAt(b, q, i + 1) && q.at == 0
    ensures end.pos <= q.pos
  {
    hide Join, LastData, Buffer.NodeOk;
    assert ei == i;
    b.PlaceInside(end.chain, ei, end.at);
  }

  /* ----- the end of a line ----- */

  datatype EolStyle = EolAny | EolCrlf | EolCrlfStrict | EolLf | EolNul

  predicate IsEol(c: byte) {
    c == CR || c == LF
  }

  /** find_eol_char: the first CR or LF, looked for a stretch at a time. */
  method FindEolChar(s: seq<byte>) returns (k: nat)
    ensures k <= |s| && (k < |s| ==> IsEol(s[k])) && forall j | 0 <= j < k :: !IsEol(s[j])
  {
    k := 0;
    while k < |s|
      invariant 0 <= k && forall j | 0 <= j < k && j < |s| :: !IsEol(s[j])
      decreases |s| - k
    {
      var chunk := if k + CHUNK_SZ < |s| then CHUNK_SZ else |s| - k;
      var part := s[k..k + chunk];
      var cr, lf := FirstOf(part, CR), FirstOf(part, LF);
      forall j | k <= j < k + chunk ensures s[j] == part[j - k] { }
      if cr < chunk {
        return k + if lf < chunk && lf < cr then lf else cr;
      } else if lf < chunk {
        return k + lf;
      }
      k := k + CHUNK_SZ;
    }
    k := |s|;
  }

  /** What is looked for: CR or LF, or one given byte. */
  datatype Wanted = AnyEol | Just(c: byte)

  predicate Wants(w: Wanted, c: byte) {
    if w.AnyEol? then IsEol(c) else c == w.c
  }

  ghost predicate NoneWanted(s: seq<byte>, w: Wanted, from: nat, to: nat) {
    to <= |s| && forall p | from <= p < to :: !Wants(w, s[p])
  }

  method FindInPiece(piece: seq<byte>, w: Wanted) returns (k: nat)
    ensures k <= |piece| && (k < |piece| ==> Wants(w, piece[k])) && forall j | 0 <= j < k :: !Wants(w, piece[j])
  {
    if w.AnyEol? {
      k := FindEolChar(piece);
    } else {
      k := FirstOf(piece, w.c);
    }
  }

  /** evbuffer_strchr and evbuffer_find_eol_char: the first wanted byte from p on. */
  method Scan(b: Buffer, p: Ptr, ghost i0: int, w: Wanted) returns (r: Ptr, ghost ri: int)
    requires b.Valid() && PtrAt(b, p, i0)
    ensures r.pos < 0 ==> r == NOT_FOUND && NoneWanted(b.Content(), w, p.pos, |b.Content()|)
    ensures r.pos >= 0 ==> p.pos <= r.pos < |b.Content()| && PtrAt(b, r, ri) && r.chain != null
                           && Wants(w, b.Content()[r.pos]) && NoneWanted(b.Content(), w, p.pos, r.pos)
  {
    hide Join, LastData, Buffer.Spine, Buffer.NodeOk, Buffer.PlacePos;
    var q := p;
    ghost var i := i0;
    b.PlaceInside(q.chain, i, q.at);
    while q.chain != null
      invariant PtrAt(b, q, i) && p.pos <= q.pos && NoneWanted(b.Content(), w, p.pos, q.pos)
      decreases |b.chains| - i
      modifies {}
    {
      ghost var all := b.Content();
      b.PlaceInside(q.chain, i, q.at);
      var piece := b.Piece(q.chain, i, q.at, q.chain.off - q.at);
      var k := FindInPiece(piece, w);
      WantedPiece(all, w, p.pos, q.pos, piece, k);
      if k < |piece| {
        r, ri := Ptr(q.pos + k, q.chain, q.at + k), i;
        Forward(b, q, i, k);
        return;
      }
      q, i := Ptr(q.pos + (q.chain.off - q.at), q.chain.next, 0), i + 1;
    }
    b.PlaceInside(q.chain, i, q.at);
    r, ri := NOT_FOUND, 0;
  }

  lemma {:induction false} WantedPiece(all: seq<byte>, w: Wanted, from: nat, at: nat, piece: seq<byte>, k: nat)
    requires NoneWanted(all, w, from, at) && at + |piece| <= |all| && piece == all[at..at + |piece|] && k <= |piece|
    requires forall j | 0 <= j < k :: !Wants(w, piece[j])
    ensures NoneWanted(all, w, from, at + k) && (k < |piece| ==> all[at + k] == piece[k])
  {
    hide Wants;
    forall p | from <= p < at + k ensures !Wants(w, all[p]) {
      if p >= at {
        assert all[p] == piece[p - at];
      }
    }
  }

  lemma {:induction false} Forward(b: Buffer, q: Ptr, i: int, k: nat)
    requires b.Valid() && PtrAt(b, q, i) && q.chain != null && i < |b.windows| && q.at + k <= |b.windows[i]|
    ensures PtrAt(b, Ptr(q.pos + k, q.chain, q.at + k), i)
  {
    hide Join, LastData, Buffer.Spine, Buffer.NodeOk;
  }

  /** How many bytes from p on are CR or LF. */
  function RunOf(s: seq<byte>, p: nat): (n: nat)
    requires p <= |s|
    ensures p + n <= |s| && (forall j | p <= j < p + n :: IsEol(s[j])) && (p + n < |s| ==> !IsEol(s[p + n]))
    decreases |s| - p
  {
    if p == |s| || !IsEol(s[p]) then 0 else 1 + RunOf(s, p + 1)
  }

  lemma {:induction false} RunMore(s: seq<byte>, p: nat, n: nat)
    requires p + n <= |s| && forall j | p <= j < p + n :: IsEol(s[j])
    ensures RunOf(s, p) == n + RunOf(s, p + n)
    decreases n
  {
    if n > 0 {
      RunMore(s, p + 1, n - 1);
    }
  }

  method SpanChunk(b: Buffer, c: Chain, ghost i: int, at: nat, ghost from: nat) returns (k: nat, whole: bool)
    requires b.Valid() && b.PlaceOk(c, i, at) && b.PlacePos(i, at) == from
    ensures from + k <= |b.Content()| && RunOf(b.Content(), from) == k + RunOf(b.Content(), from + k)
    ensures whole ==> b.PlaceOk(c.next, i + 1, 0) && b.PlacePos(i + 1, 0) == from + k && i < |b.chains|
    ensures whole && c.next == null ==> from + k == |b.Content()|
    ensures !whole ==> RunOf(b.Content(), from + k) == 0
  {
    hide Join, LastData, Buffer.Spine, Buffer.NodeOk, Buffer.PlacePos, RunOf;
    b.PlaceInside(c, i, at);
    var piece := b.Piece(c, i, at, c.off - at);
    k := LeadingEol(piece);
    RunInPiece(b.Content(), from, piece, k);
    whole := k == |piece|;
    b.PlaceInside(c.next, i + 1, 0);
  }

  /** evbuffer_strspn with CR and LF. */
  method SpanEol(b: Buffer, p: Ptr, ghost i0: int) returns (n: nat)
    requires b.Valid() && PtrAt(b, p, i0)
    ensures 0 <= p.pos <= |b.Content()| && n == RunOf(b.Content(), p.pos)
  {
    hide Join, LastData, Buffer.Spine, Buffer.NodeOk, Buffer.PlacePos, RunOf;
    b.PlaceInside(p.chain, i0, p.at);
    RunEnd(b.Content());
    n := 0;
    if p.chain == null {
      return;
    }
    var c: Chain, at: nat := p.chain, p.at;
    ghost var i := i0;
    while true
      invariant b.PlaceOk(c, i, at) && b.PlacePos(i, at) == p.pos + n && 0 <= p.pos && p.pos + n <= |b.Content()|
      invariant RunOf(b.Content(), p.pos) == n + RunOf(b.Content(), p.pos + n)
      decreases |b.chains| - i
      modifies {}
    {
      var k, whole := SpanChunk(b, c, i, at, p.pos + n);
      n := n + k;
      if !whole || c.next == null {
        return;
      }
      c, at, i := c.next, 0, i + 1;
    }
  }

  method LeadingEol(s: seq<byte>) returns (k: nat)
    ensures k <= |s| && (forall j | 0 <= j < k :: IsEol(s[j])) && (k < |s| ==> !IsEol(s[k]))
  {
    k := 0;
    while k < |s| && IsEol(s[k])
      invariant 0 <= k <= |s| && forall j | 0 <= j < k :: IsEol(s[j])
    {
      k := k + 1;
    }
  }

  lemma {:induction false} RunInPiece(s: seq<byte>, p: nat, piece: seq<byte>, k: nat)
    requires p + |piece| <= |s| && piece == s[p..p + |piece|] && k <= |piece|
    requires (forall j | 0 <= j < k :: IsEol(piece[j])) && (k < |piece| ==> !IsEol(piece[k]))
    ensures RunOf(s, p) == k + RunOf(s, p + k) && (k < |piece| ==> RunOf(s, p + k) == 0)
  {
    forall j | p <= j < p + k ensures IsEol(s[j]) { assert s[j] == piece[j - p]; }
    RunMore(s, p, k);
    assert k < |piece| ==> s[p + k] == piece[k];
  }

  lemma {:induction false} RunEnd(s: seq<byte>)
    ensures RunOf(s, |s|) == 0
  {
  }

  /* ----- evbuffer_ptr_set and evbuffer_ptr_subtract ----- */

  /** Goes `left` bytes on from a place: to a byte, to the end, or nowhere. */
  method PtrWalk(b: Buffer, c0: Chain?, ghost i0: int, at0: nat, left0: nat, target: nat) returns (r: Ptr, ghost ri: int)
    requires b.Valid() && b.PlaceOk(c0, i0, at0) && target == b.PlacePos(i0, at0) + left0
    ensures target <= b.totalLen ==> r.pos == target && PtrAt(b, r, ri)
    ensures target > b.totalLen ==> r == NOT_FOUND
    ensures target < b.totalLen ==> (r.chain != null && r.chain.InBounds() && r.at < r.chain.off)
  {
    hide Join, LastData, Buffer.Spine, Buffer.NodeOk;
    var c, at: nat, left: nat := c0, at0, left0;
    ghost var i := i0;
    b.PlaceInside(c, i, at);
    while c != null && at + left >= c.off
      invariant b.PlaceOk(c, i, at) && b.PlacePos(i, at) + left == target
      invariant c != null ==> c.InBounds() && i < |b.windows| && c.off == |b.windows[i]| && at <= c.off
      invariant b.PlacePos(i, at) <= b.totalLen && (c == null ==> b.PlacePos(i, at) == b.totalLen)
      decreases |b.chains| - i
      modifies {}
    {
      b.PlaceInside(c, i, at);
      left := left - (c.off - at);
      c, at, i := c.next, 0, i + 1;
      b.PlaceInside(c, i, at);
    }
    if c != null {
      r, ri := Ptr(target, c, at + left), i;
      b.PlaceInside(c, i, at + left);
    } else if left == 0 {
      r, ri := Ptr(target, null, 0), i;
    } else {
      r, ri := NOT_FOUND, 0;
    }
  }

  /** evbuffer_ptr_set with EVBUFFER_PTR_SET */
  method PtrSet(b: Buffer, position: nat) returns (r: Ptr, ghost ri: int)
    requires b.Valid()
    ensures position <= b.totalLen ==> r.pos == position && PtrAt(b, r, ri)
    ensures position > b.totalLen ==> r == NOT_FOUND
    ensures position < b.totalLen ==> r.chain != null && r.chain.InBounds() && r.at < r.chain.off
  {
    AtStart(b);
    r, ri := PtrWalk(b, b.first, 0, 0, position, position);
  }

  /** evbuffer_ptr_set with EVBUFFER_PTR_ADD: code is what it returns. */
  method PtrAdd(b: Buffer, p: Ptr, ghost i: int, howfar: nat) returns (code: int, r: Ptr, ghost ri: int)
    requires b.Valid() && (p.pos >= 0 ==> PtrAt(b, p, i))
    ensures code == if p.pos < 0 || p.pos + howfar > Words.SIZE_MAX || p.pos + howfar > b.totalLen then -1 else 0
    ensures code == 0 ==> r.pos == p.pos + howfar && PtrAt(b, r, ri)
    ensures code == -1 ==> r == if p.pos < 0 || p.pos + howfar > Words.SIZE_MAX then p else NOT_FOUND
  {
    if p.pos < 0 || Words.SIZE_MAX - howfar < p.pos {
      return -1, p, i;
    }
    r, ri := PtrWalk(b, p.chain, i, p.at, howfar, p.pos + howfar);
    code := if r.pos < 0 then -1 else 0;
  }

  /** evbuffer_ptr_subtract: -1 when there is not so much in front. */
  method PtrSubtract(b: Buffer, p: Ptr, ghost i: int, howfar: nat) returns (code: int, r: Ptr, ghost ri: int)
    requires b.Valid() && (p.pos >= 0 ==> PtrAt(b, p, i))
    ensures code == if howfar <= p.pos then 0 else -1
    ensures code == -1 ==> r == p
    ensures code == 0 ==> r.pos == p.pos - howfar && PtrAt(b, r, ri)
    ensures code == 0 && howfar > 0 ==> r.chain != null && r.chain.InBounds() && r.at < r.chain.off
  {
    hide Join, LastData, Buffer.Spine, Buffer.NodeOk;
    if p.pos < 0 || howfar > p.pos {
      return -1, p, i;
    }
    b.PlaceInside(p.chain, i, p.at);
    code := 0;
    if p.chain != null && howfar <= p.at {
      r, ri := Ptr(p.pos - howfar, p.chain, p.at - howfar), i;
    } else {
      r, ri := PtrSet(b, p.pos - howfar);
    }
  }

  /* ----- evbuffer_search_eol ----- */

  const CRLF: seq<byte> := [CR, LF]

  function Sought(style: EolStyle): Wanted {
    match style
    case EolAny => AnyEol
    case EolNul => Just(0)
    case _ => Just(LF)
  }

  /** The first end of line from `from` on is at p and n bytes long. */
  ghost predicate EolFound(s: seq<byte>, from: nat, style: EolStyle, p: nat, n: nat) {
    && from <= p && p + n <= |s|
    && match style
       case EolCrlfStrict => n == 2 && MatchAt(s, p, CRLF) && NoMatch(s, CRLF, from, p)
       case EolAny => p < |s| && IsEol(s[p]) && NoneWanted(s, AnyEol, from, p) && n == RunOf(s, p)
       case EolCrlf =>
         && n > 0 && s[p + n - 1] == LF && NoneWanted(s, Just(LF), from, p + n - 1)
         && (if p + n - 1 > from && s[p + n - 2] == CR then n == 2 else n == 1)
       case _ => n == 1 && Wants(Sought(style), s[p]) && NoneWanted(s, Sought(style), from, p)
  }

  /** There is none. */
  ghost predicate EolNone(s: seq<byte>, from: nat, style: EolStyle) {
    if style == EolCrlfStrict then forall p | from <= p && p + 2 <= |s| :: !MatchAt(s, p, CRLF)
    else NoneWanted(s, Sought(style), from, |s|)
  }

  method SearchScan(b: Buffer, p: Ptr, ghost i: int, style: EolStyle) returns (r: Ptr, n: nat)
    requires b.Valid() && PtrAt(b, p, i) && style != EolCrlfStrict
    ensures r.pos < 0 ==> r == NOT_FOUND && n == 0 && EolNone(b.Content(), p.pos, style)
    ensures r.pos >= 0 ==> EolFound(b.Content(), p.pos, style, r.pos, n)
  {
    hide Join, LastData, Buffer.Spine, Buffer.NodeOk, Buffer.PlacePos, NoneWanted, RunOf;
    ghost var all := b.Content();
    ghost var ri;
    r, ri := Scan(b, p, i, Sought(style));
    n := 0;
    if r.pos < 0 {
      return;
    }
    if style == EolAny {
      n := SpanEol(b, r, ri);
    } else if style == EolCrlf {
      n := 1;
      if r.pos != p.pos {
        var code, q, qi := PtrSubtract(b, r, ri, 1);
        b.PlaceInside(r.chain, ri, r.at);
        b.PlaceInside(q.chain, qi, q.at);
        var c := b.Piece(q.chain, qi, q.at, 1);
        assert c[0] == all[q.pos];
        if c[0] == CR {
          r, n := q, 2;
        }
      }
    } else {
      n := 1;
    }
  }

  method SearchEol(b: Buffer, start: Option<Ptr>, ghost si: int, style: EolStyle) returns (r: Ptr, n: nat)
    requires b.Valid() && (start.Some? ==> PtrAt(b, start.value, si))
    ensures var from := if start.Some? then start.value.pos else 0;
            && from >= 0
            && (r.pos < 0 ==> r == NOT_FOUND && n == 0 && EolNone(b.Content(), from, style))
            && (r.pos >= 0 ==> EolFound(b.Content(), from, style, r.pos, n))
  {
    hide Join, LastData, Buffer.Spine, Buffer.NodeOk, Buffer.PlacePos, EolFound, EolNone;
    AtStart(b);
    if start.Some? && start.value.chain == null {
      b.PlaceInside(null, si, start.value.at);
      NothingLeft(b.Content(), style);
      return NOT_FOUND, 0;
    }
    var p := if start.Some? then start.value else Ptr(0, b.first, 0);
    ghost var i := if start.Some? then si else 0;
    if style == EolCrlfStrict {
      ghost var ri;
      r, ri := SearchRange(b, CRLF, Some(p), i, None, 0);
      StrictFound(b.Content(), p.pos, r.pos);
      n := if r.pos < 0 then 0 else 2;
    } else {
      r, n := SearchScan(b, p, i, style);
    }
  }

  lemma {:induction false} NothingLeft(s: seq<byte>, style: EolStyle)
    ensures EolNone(s, |s|, style)
  {
  }

  lemma {:induction false} StrictFound(s: seq<byte>, from: nat, p: int)
    ensures p >= 0 && from <= p && MatchAt(s, p, CRLF) && NoMatch(s, CRLF, from, p) ==> EolFound(s, from, EolCrlfStrict, p, 2)
    ensures (forall q | from <= q && q + |CRLF| <= |s| :: !MatchAt(s, q, CRLF)) ==> EolNone(s, from, EolCrlfStrict)
  {
  }

  /* ----- evbuffer_readln ----- */

  /** A line does not contain what ends it. */
  ghost predicate Unbroken(line: seq<byte>, style: EolStyle) {
    if style == EolCrlfStrict then forall p | 0 <= p && p + 2 <= |line| :: !MatchAt(line, p, CRLF)
    else NoneWanted(line, Sought(style), 0, |line|)
  }

  lemma {:induction false} LineUnbroken(s: seq<byte>, style: EolStyle, p: nat, n: nat)
    requires EolFound(s, 0, style, p, n)
    ensures Unbroken(s[..p], style)
  {
    hide RunOf, Wants;
    var line := s[..p];
    if style == EolCrlfStrict {
      forall q | 0 <= q && q + 2 <= |line| ensures !MatchAt(line, q, CRLF) {
        assert line[q..q + 2] == s[q..q + 2];
        assert !MatchAt(s, q, CRLF);
      }
    } else {
      forall q | 0 <= q < p ensures !Wants(Sought(style), line[q]) {
        assert line[q] == s[q];
      }
    }
  }

  /** The first line, if the buffer has one: content is line, terminator, rest. */
  method ReadLn(b: Buffer, style: EolStyle) returns (line: Option<seq<byte>>, ghost eol: seq<byte>)
    requires b.Valid()
    modifies b, (set x | x in b.chains)
    ensures b.Valid() && b.freezeStart == old(b.freezeStart)
    ensures line.Some? ==>
              && old(b.Content()) == line.value + eol + b.Content()
              && EolFound(old(b.Content()), 0, style, |line.value|, |eol|)
              && Unbroken(line.value, style)
    ensures line.None? ==> b.Content() == old(b.Content()) && (b.freezeStart || EolNone(b.Content(), 0, style))
  {
    hide Join, LastData, Buffer.Spine, Buffer.NodeOk, EolFound, EolNone, Unbroken;
    eol := [];
    if b.freezeStart {
      return None, eol;
    }
    ghost var all := b.Content();
    AtStart(b);
    var r, n := SearchEol(b, None, 0, style);
    if r.pos < 0 {
      return None, eol;
    }
    EolInside(all, style, r.pos, n);
    LineUnbroken(all, style, r.pos, n);
    var got, text := b.Remove(r.pos);
    ghost var rest := b.Content();
    AtStart(b);
    var drained := b.Drain(n);
    eol := all[r.pos..r.pos + n];
    Pieces(all, text, rest, r.pos, n);
    line := Some(text);
  }

  lemma {:induction false} EolInside(s: seq<byte>, style: EolStyle, p: nat, n: nat)
    requires EolFound(s, 0, style, p, n)
    ensures p + n <= |s|
  {
  }

  lemma {:induction false} Pieces(all: seq<byte>, text: seq<byte>, rest: seq<byte>, p: nat, n: nat)
    requires all == text + rest && |text| == p && p + n <= |all|
    ensures text == all[..p] && n <= |rest| && all == text + all[p..p + n] + rest[n..]
  {
  }
}
