/** Making data contiguous and making room. */
module EvBufferExpand {
  import opened Bytes
  import opened EvBuffer

  lemma {:induction false} JoinMiddleGrows(ws: seq<seq<byte>>, i0: nat, i: nat)
    requires i0 <= i < |ws|
    ensures Join(ws[i0..i + 1]) == Join(ws[i0..i]) + ws[i]
  {
    assert ws[i0..i + 1] == ws[i0..i] + [ws[i]];
    JoinConcat(ws[i0..i], [ws[i]]);
    JoinOne(ws[i]);
  }

  /** The copying loop of evbuffer_pullup, from chunk i0 on: everything that is
      pulled whole, and whether the chunk that holds last_with_datap was among
      it. */
  method Gather(b: Buffer, c0: Chain?, ghost i0: nat, need: nat)
    returns (out: seq<byte>, c: Chain?, left: nat, lostSlot: bool, ghost i: nat)
    requires b.Valid() && b.chains != [] && i0 <= |b.chains|
    requires c0 == if i0 < |b.chains| then b.chains[i0] else null
    ensures i0 <= i <= |b.chains| && c == if i < |b.chains| then b.chains[i] else null
    ensures out == Join(b.windows[i0..i]) && left + |out| == need
    ensures c != null ==> left < |b.windows[i]|
    ensures lostSlot == (i0 <= b.dataAt - 1 < i)
  {
    hide Join, Buffer.Spine, Buffer.NodeOk, Chain.Sound, LastData;
    JoinNil();
    assert b.windows[i0..i0] == [];
    out, c, left, lostSlot, i := [], c0, need, false, i0;
    DistinctOf(b);
    if c != null {
      b.Node(i);
    }
    while c != null && left >= c.off
      invariant i0 <= i <= |b.chains| && c == if i < |b.chains| then b.chains[i] else null
      invariant c != null ==> c.InBounds() && c.Window() == b.windows[i] && c.off == |b.windows[i]|
      invariant out == Join(b.windows[i0..i]) && left + |out| == need
      invariant lostSlot == (i0 <= b.dataAt - 1 < i)
      decreases |b.chains| - i
    {
      b.Node(i);
      JoinMiddleGrows(b.windows, i0, i);
      out := out + c.Window();
      left := left - c.off;
      lostSlot := lostSlot || NextOf(c) == b.lastWithData;
      c := c.next;
      i := i + 1;
      if c != null {
        b.Node(i);
      }
    }
  }

  lemma DistinctOf(b: Buffer)
    requires b.Valid()
    ensures Distinct(b.chains)
    ensures b.chains != [] ==> b.first == b.chains[0] && b.dataAt < |b.chains|
  {
  }

  /** What pulling up does to the windows: the first `size` bytes come first, in
      one piece, and what is left of chunk i follows. */
  lemma {:induction false} JoinPulled(ws: seq<seq<byte>>, k: nat, i: nat, left: nat)
    requires LastData(ws, k) && i <= k < |ws| && left < |ws[i]|
    ensures var head := Join(ws[..i]) + ws[i][..left];
            var ws' := [head] + ws[i..][0 := ws[i][left..]];
            && Join(ws') == Join(ws)
            && (head != [] ==> LastData(ws', k - i + 1))
  {
    hide Join, LastData;
    var head := Join(ws[..i]) + ws[i][..left];
    var rest := ws[i..][0 := ws[i][left..]];
    JoinDrained(ws, k, i, left);
    JoinTaken(ws, i, left);
    JoinCons(head, rest);
    LastDataCons(rest, k - i, head);
  }

  /** The list becomes `tmp`, refilled, followed by what is left from chunk i on. */
  method SwapFront(b: Buffer, tmp: Chain, mem: seq<byte>, misalign: nat, size: nat,
                   c: Chain, left: nat, ghost i: nat)
    requires b.Spine() && i < |b.chains| && c == b.chains[i] && left < |b.windows[i]|
    requires tmp !in b.chains[i..] && !tmp.immutable
    requires misalign + size <= |mem| && 0 < size
    modifies b`first, b`chains, b`windows, c`mem, c`misalign, c`off, tmp
    ensures b.Spine()
    ensures b.chains == [tmp] + old(b.chains)[i..]
    ensures b.windows == [mem[misalign..misalign + size]] + old(b.windows)[i..][0 := old(b.windows)[i][left..]]
  {
    assert c == b.chains[i..][0];
    hide Buffer.Spine, Buffer.NodeOk, Segment;
    b.DropTo(i, c, left);
    tmp.mem, tmp.misalign, tmp.off := mem, misalign, size;
    b.PutFirst(tmp);
  }

  /** The end of evbuffer_pullup when some data is left in chunk i. */
  method PutGathered(b: Buffer, tmp: Chain, mem: seq<byte>, misalign: nat, size: nat,
                     c: Chain, left: nat, lostSlot: bool, ghost i: nat)
    requires b.Valid() && i <= b.dataAt < |b.chains| && c == b.chains[i] && left < |b.windows[i]|
    requires tmp !in b.chains[i..] && !tmp.immutable
    requires misalign + size <= |mem| && 0 < size
    requires mem[misalign..misalign + size] == Join(b.windows[..i]) + b.windows[i][..left]
    requires b.dataAt == i && !lostSlot ==> b.lastWithData == NextOf(tmp)
    requires lostSlot ==> b.dataAt == i
    modifies b`first, b`chains, b`windows, b`lastWithData, b`dataAt, c`mem, c`misalign, c`off, tmp
    ensures b.Valid() && b.Content() == old(b.Content())
    ensures b.chains == [tmp] + old(b.chains)[i..] && |b.windows[0]| == size
  {
    ghost var ws, cs, k := b.windows, b.chains[i..], b.dataAt;
    hide Join, Buffer.Spine, Buffer.NodeOk, Segment, LastData;
    JoinPulled(ws, k, i, left);
    SwapFront(b, tmp, mem, misalign, size, c, left, i);
    MarkPulled(b, tmp, lostSlot, cs, k - i);
  }

  /** last_with_datap after that: `tmp` was put in front of `cs`, whose chunk k
      is the last one with data. */
  method MarkPulled(b: Buffer, tmp: Chain, lostSlot: bool, ghost cs: seq<Chain>, ghost k: nat)
    requires b.Spine() && b.chains == [tmp] + cs && k < |cs| && LastData(b.windows, k + 1)
    requires lostSlot ==> k == 0
    requires !lostSlot ==> b.lastWithData == NextOf(if k == 0 then tmp else cs[k - 1])
    requires b.last == cs[|cs| - 1] && b.totalLen == |Join(b.windows)|
    modifies b`lastWithData, b`dataAt
    ensures b.Valid()
  {
    b.Node(0);
    b.Node(1);
    assert b.windows[1] != [];
    hide Join, Buffer.Spine, Buffer.NodeOk, Segment, LastData, Chain.Sound;
    if lostSlot {
      b.lastWithData := if tmp.next != null && tmp.next.off != 0 then NextOf(tmp) else First;
    }
    b.dataAt := k + 1;
  }

  /** The end of evbuffer_pullup when everything was pulled. */
  method PutAll(b: Buffer, tmp: Chain, mem: seq<byte>, misalign: nat, size: nat)
    requires b.Valid() && !tmp.immutable
    requires misalign + size <= |mem| && 0 < size
    requires mem[misalign..misalign + size] == b.Content()
    modifies b`first, b`last, b`chains, b`windows, b`lastWithData, b`dataAt, tmp
    ensures b.Valid() && b.Content() == old(b.Content())
    ensures b.chains == [tmp] && |b.windows[0]| == size
  {
    ghost var w := mem[misalign..misalign + size];
    JoinOne(w);
    hide Join;
    tmp.mem, tmp.misalign, tmp.off, tmp.next := mem, misalign, size, null;
    b.Single(tmp);
    b.first, b.last, b.lastWithData := tmp, tmp, First;
    b.chains, b.windows, b.dataAt := [tmp], [w], 0;
  }

  /** Past its early exits, evbuffer_pullup with the chunk to pull into. */
  method PullInto(b: Buffer, tmp: Chain, mem: seq<byte>, misalign: nat, n: nat,
                  start: Chain?, base: seq<byte>, ghost i0: nat)
    requires b.Valid() && b.chains != [] && !tmp.immutable
    requires |b.windows[0]| < n <= b.totalLen && misalign + n <= |mem|
    requires i0 <= 1 && start == if i0 < |b.chains| then b.chains[i0] else null
    requires base == Join(b.windows[..i0])
    requires if i0 == 1 then tmp == b.chains[0] else tmp !in b.chains
    modifies b`first, b`last, b`chains, b`windows, b`lastWithData, b`dataAt, (set x | x in b.chains), tmp
    ensures b.Valid() && b.Content() == old(b.Content())
    ensures b.chains != [] && b.chains[0] == tmp && |b.windows[0]| == n
    ensures forall x | x in b.chains :: x == tmp || x in old(b.chains)
  {
    DistinctOf(b);
    ghost var ws := b.windows;
    hide Join, Buffer.Spine, Buffer.NodeOk, Segment, Chain.Sound;
    var out, c, left, lostSlot, i := Gather(b, start, i0, n - |base|);
    JoinSplit(ws[..i], i0);
    assert ws[..i][..i0] == ws[..i0] && ws[..i][i0..] == ws[i0..i];
    if c == null {
      assert ws[..i] == ws;
      var whole := base + out;
      PutAll(b, tmp, Write(mem, misalign, whole), misalign, n);
    } else {
      b.Node(i);
      var whole := base + out + c.Window()[..left];
      PutGathered(b, tmp, Write(mem, misalign, whole), misalign, n, c, left, lostSlot, i);
    }
  }

  /** The first chunk neither has n bytes nor has the memory for them, and no chunk
      to be had would. */
  predicate NoPlaceFor(b: Buffer, n: nat)
    reads b`first, b.first
  {
    b.first != null && b.first.off < n && |b.first.mem| - b.first.misalign < n && n > ROOM
  }

  /** evbuffer_pullup: null, and exactly when, or the first chunk, now holding the
      first n bytes in one piece. */
  method Pullup(b: Buffer, size: int) returns (r: Chain?)
    requires b.Valid()
    modifies b`first, b`last, b`chains, b`windows, b`lastWithData, b`dataAt, (set x | x in b.chains)
    ensures b.Valid() && b.Content() == old(b.Content())
    ensures var n := if size < 0 then b.totalLen else size;
            && (r == null <==> n == 0 || n > b.totalLen || old(NoPlaceFor(b, n)))
            && (r != null ==>
                  && b.chains != [] && r == b.chains[0] && r.InBounds()
                  && n <= r.off && r.Window()[..n] == b.Content()[..n])
    ensures forall x | x in b.chains :: x in old(b.chains) || fresh(x)
  {
    var n := if size < 0 then b.totalLen else size;
    JoinNil();
    hide Join, Buffer.Spine, Buffer.NodeOk, Segment, Chain.Sound, LastData;
    if n == 0 || n > b.totalLen {
      return null;
    }
    DistinctOf(b);
    b.Node(0);
    var c := b.first;
    if c.off >= n {
      FirstPiece(b, n);
      return c;
    }
    Soundness(c);
    if |c.mem| - c.misalign >= n {
      JoinOne(b.windows[0]);
      assert b.windows[..1] == [b.windows[0]];
      PullInto(b, c, c.mem, c.misalign, n, c.next, c.Window(), 1);
      r := c;
    } else {
      var tmp := ChainNew(n);
      if tmp == null {
        return null;
      }
      assert b.windows[..0] == [];
      PullInto(b, tmp, tmp.mem, 0, n, c, [], 0);
      r := tmp;
    }
    b.Node(0);
    FirstPiece(b, n);
  }

  lemma Soundness(c: Chain)
    requires c.Sound()
    ensures c.immutable ==> |c.mem| - c.misalign == c.off
  {
  }

  lemma FirstPiece(b: Buffer, n: nat)
    requires b.Valid() && b.chains != [] && n <= |b.windows[0]|
    ensures n <= |b.Content()| && b.windows[0][..n] == b.Content()[..n]
  {
    assert b.windows[..0] == [];
    JoinTaken(b.windows, 0, n);
  }

  /* ----- room in one chunk ----- */

  lemma {:induction false} DistinctReplace(cs: seq<Chain>, k: nat, c: Chain)
    requires Distinct(cs) && k < |cs| && c !in cs
    ensures Distinct(cs[k := c])
  {
  }

  /** Puts `tmp` in the place of the first chunk. */
  method ReplaceFirst(b: Buffer, c: Chain, tmp: Chain)
    requires b.Spine() && b.chains != [] && c == b.chains[0]
    requires tmp !in b.chains && tmp.Sound() && tmp.Window() == b.windows[0]
    modifies b`first, b`chains, tmp`next
    ensures b.Spine()
    ensures b.chains == old(b.chains)[0 := tmp] && b.windows == old(b.windows)
  {
    ghost var cs := b.chains;
    b.Node(0);
    DistinctReplace(cs, 0, tmp);
    hide Chain.Sound, Chain.Window, Distinct;
    tmp.next := c.next;
    b.first := tmp;
    b.chains := cs[0 := tmp];
    forall i ensures SegmentNode(b.chains, b.windows, i) {
      assert old(b.NodeOk(i));
    }
  }

  method Relink(previous: Chain, c: Chain, tmp: Chain)
    requires previous != tmp && previous != c
    modifies previous`next, tmp`next
    ensures previous.next == tmp && tmp.next == old(c.next)
  {
    tmp.next := c.next;
    previous.next := tmp;
  }

  /** Puts `tmp` in the place of the chunk after `previous`. */
  method ReplaceNext(b: Buffer, previous: Chain, c: Chain, tmp: Chain, ghost k: nat)
    requires b.Spine() && 0 < k < |b.chains| && c == b.chains[k] && previous == b.chains[k - 1]
    requires tmp !in b.chains && tmp.Sound() && tmp.Window() == b.windows[k]
    modifies b`chains, tmp`next, previous`next
    ensures b.Spine()
    ensures b.chains == old(b.chains)[k := tmp] && b.windows == old(b.windows)
  {
    ghost var cs := b.chains;
    b.Node(k);
    b.Node(k - 1);
    DistinctReplace(cs, k, tmp);
    assert forall i | 0 <= i < |cs| && i != k - 1 :: cs[i] != previous;
    hide Chain.Sound, Chain.Window, Distinct;
    Relink(previous, c, tmp);
    b.chains := cs[k := tmp];
    forall i ensures SegmentNode(b.chains, b.windows, i) {
      assert old(b.NodeOk(i));
      assert 0 <= i < |cs| && i != k ==> b.chains[i] == cs[i];
    }
  }

  /** Puts `tmp` in the place of chunk k, which the slot leads to. */
  method Replace(b: Buffer, at: Slot, c: Chain, tmp: Chain, ghost k: nat)
    requires b.Spine() && k < |b.chains| && c == b.chains[k] && at == b.SlotAt(k)
    requires tmp !in b.chains && tmp.Sound() && tmp.Window() == b.windows[k]
    modifies b`first, b`chains, tmp`next, (set x | x in b.chains)`next
    ensures b.Spine()
    ensures b.chains == old(b.chains)[k := tmp] && b.windows == old(b.windows)
  {
    hide Buffer.Spine, Chain.Sound, Chain.Window;
    if at.First? {
      ReplaceFirst(b, c, tmp);
    } else {
      ReplaceNext(b, at.chain, c, tmp, k);
    }
  }

  /** The resize in evbuffer_expand_singlechain: the last chunk with data moves
      to a larger chunk. */
  method Resize(b: Buffer, c: Chain, tmp: Chain)
    requires b.Valid() && b.dataAt < |b.chains| && c == b.chains[b.dataAt]
    requires tmp !in b.chains && !tmp.immutable && |tmp.mem| >= c.off && |tmp.mem| > 0
    modifies b`first, b`last, b`chains, b`windows, tmp, (set x | x in b.chains)`next
    ensures b.Valid() && b.Content() == old(b.Content()) && b.dataAt == old(b.dataAt)
    ensures b.chains == old(b.chains)[b.dataAt := tmp]
    ensures tmp.InBounds() && tmp.misalign == 0 && tmp.off == old(c.off) && |tmp.mem| == |old(tmp.mem)|
  {
    ghost var k := b.dataAt;
    b.Node(k);
    DistinctOf(b);
    assert c == b.last <==> k == |b.chains| - 1;
    hide Join, Buffer.Spine, Buffer.NodeOk, Segment, LastData;
    tmp.Fill(0, c.Window());
    assert tmp.Sound() && tmp.misalign == 0;
    Replace(b, b.lastWithData, c, tmp, k);
    if b.last == c {
      b.last := tmp;
    }
  }

  /** evbuffer_chain_align on chunk k. */
  method Align(b: Buffer, c: Chain, ghost k: nat)
    requires b.Valid() && k < |b.chains| && c == b.chains[k] && (c.immutable ==> c.mem == [])
    modifies b`windows, c`mem, c`misalign, c`off
    ensures b.Valid() && b.windows == old(b.windows)
    ensures c.InBounds() && c.misalign == 0 && c.off == old(c.off) && |c.mem| == |old(c.mem)|
  {
    b.Node(k);
    assert c.mem == [] || (!c.immutable && |c.mem| > 0);
    hide Join, Buffer.Spine, Buffer.NodeOk, Segment, LastData, Chain.Sound;
    ghost var ws := b.windows;
    var mem := Write(c.mem, 0, c.Window());
    assert mem[0..c.off] == ws[k];
    b.Refill(c, k, mem, 0, c.off);
    assert b.windows == ws;
  }

  /** evbuffer_chain_insert_new */
  method InsertNew(b: Buffer, datlen: nat) returns (result: Chain?)
    requires b.Valid()
    modifies b`first, b`last, b`lastWithData, b`totalLen, b`chains, b`windows, b`dataAt,
             (set x | x in b.chains)`next
    ensures b.Valid() && b.Content() == old(b.Content())
    ensures result == null <==> datlen > ROOM
    ensures result != null ==>
              && b.chains != [] && result == b.chains[|b.chains| - 1]
              && result.InBounds() && result.SpaceLen() >= datlen
              && (old(b.Content()) != [] ==> b.dataAt < |b.chains| - 1)
    ensures forall x | x in b.chains :: x in old(b.chains) || fresh(x)
  {
    hide Join, Buffer.Spine, Buffer.NodeOk, Segment, LastData;
    result := ChainNew(datlen);
    if result != null {
      b.ChainInsert(result);
    }
  }

  /** The last choice of evbuffer_expand_singlechain: leave the last chunk with
      data as it is, or move it to a larger one. */
  method ExpandFull(b: Buffer, c: Chain, datlen: nat) returns (result: Chain?, ghost at: int)
    requires b.Valid() && b.dataAt < |b.chains| && c == b.chains[b.dataAt] && !c.immutable && c.InBounds()
    modifies b`first, b`last, b`lastWithData, b`totalLen, b`chains, b`windows, b`dataAt,
             (set x | x in b.chains)
    ensures b.Valid() && b.Content() == old(b.Content())
    ensures result == null ==> old(c.off) + datlen > ROOM
    ensures result != null ==>
              && b.dataAt <= at < |b.chains| && result == b.chains[at]
              && result.InBounds() && result.SpaceLen() >= datlen
    ensures forall x | x in b.chains :: x in old(b.chains) || fresh(x)
  {
    hide Join, Buffer.Spine, Buffer.NodeOk, Segment, LastData, Chain.Sound;
    at := b.dataAt;
    b.Node(at);
    if c.SpaceLen() < |c.mem| / 8 || c.off > 4096 || datlen >= CHAIN_MAX - c.off {
      if c.next != null {
        b.Node(at + 1);
        if c.next.SpaceLen() >= datlen {
          return c.next, at + 1;
        }
      }
      result := InsertNew(b, datlen);
      at := |b.chains| - 1;
      DistinctOf(b);
    } else {
      result := ChainNew(c.off + datlen);
      if result != null {
        Resize(b, c, result);
      }
    }
  }

  /** evbuffer_expand_singlechain once it has found `c`, the first chunk that is
      not full, as chunk number j. */
  method ExpandChunk(b: Buffer, c: Chain, datlen: nat, ghost j: nat)
    returns (result: Chain?, ghost at: int)
    requires b.Valid() && b.dataAt <= j < |b.chains| && c == b.chains[j] && !c.immutable
    modifies b`first, b`last, b`lastWithData, b`totalLen, b`chains, b`windows, b`dataAt,
             (set x | x in b.chains)
    ensures b.Valid() && b.Content() == old(b.Content())
    ensures result == null ==> old(c.off) + datlen > ROOM
    ensures result != null ==>
              && b.dataAt <= at < |b.chains| && result == b.chains[at]
              && result.InBounds() && result.SpaceLen() >= datlen
    ensures forall x | x in b.chains :: x in old(b.chains) || fresh(x)
  {
    at := j;
    b.Node(j);
    DistinctOf(b);
    AfterData(b, j);
    hide Join, Buffer.Spine, Buffer.NodeOk, Segment, LastData, Chain.Sound;
    if c.SpaceLen() >= datlen {
      return c, j;
    }
    if c.off == 0 {
      result := InsertNew(b, datlen);
      at := |b.chains| - 1;
      DistinctOf(b);
      return;
    }
    if Buffer.ShouldRealign(c, datlen) {
      Align(b, c, j);
      return c, j;
    }
    result, at := ExpandFull(b, c, datlen);
  }

  lemma AfterData(b: Buffer, j: nat)
    requires b.Valid() && b.dataAt <= j < |b.chains|
    ensures b.windows[j] != [] ==> j == b.dataAt
  {
  }

  /** evbuffer_expand_singlechain: the content is kept, and there is room for
      datlen more bytes in one chunk at or after the last data. */
  method ExpandSingleChain(b: Buffer, datlen: nat) returns (result: Chain?, ghost at: int)
    requires b.Valid()
    modifies b`first, b`last, b`lastWithData, b`totalLen, b`chains, b`windows, b`dataAt,
             (set x | x in b.chains)
    ensures b.Valid() && b.Content() == old(b.Content())
    ensures result == null ==> datlen + old(b.totalLen) > ROOM
    ensures result != null ==>
              && b.dataAt <= at < |b.chains| && result == b.chains[at]
              && result.InBounds() && result.SpaceLen() >= datlen
    ensures forall x | x in b.chains :: x in old(b.chains) || fresh(x)
  {
    at := b.dataAt;
    var c := b.DataChunk();
    hide Join, Buffer.Spine, Buffer.NodeOk, Segment, Chain.Sound, LastData;
    if c != null {
      DistinctOf(b);
      b.Node(at);
      WindowFits(b, at);
      if c.SpaceLen() == 0 {
        c := c.next;
        at := at + 1;
        if c != null {
          b.Node(at);
          WindowFits(b, at);
        }
      }
    }
    if c == null || c.immutable {
      result := InsertNew(b, datlen);
      at := |b.chains| - 1;
      DistinctOf(b);
    } else {
      result, at := ExpandChunk(b, c, datlen, at);
    }
  }

  lemma WindowFits(b: Buffer, i: nat)
    requires b.Valid() && i < |b.windows|
    ensures |b.windows[i]| <= b.totalLen
  {
    JoinTaken(b.windows, i, |b.windows[i]|);
  }

  /* ----- room in a few chunks ----- */

  function Sum(s: seq<nat>): nat {
    if s == [] then 0 else Sum(s[..|s| - 1]) + s[|s| - 1]
  }

  /** How many of the chunks have room at all. */
  function Used(s: seq<nat>): nat {
    if s == [] then 0 else Used(s[..|s| - 1]) + (if s[|s| - 1] > 0 then 1 else 0)
  }

  ghost predicate SpaceAt(b: Buffer, at: int, spaces: seq<nat>, i: int)
    reads b`chains, b.chains
  {
    0 <= i < |spaces| && 0 <= at + i < |b.chains| ==>
      b.chains[at + i].InBounds() && b.chains[at + i].SpaceLen() == spaces[i]
  }

  /** The chunks from number `at` on have the room that `spaces` says. */
  ghost predicate HasSpaces(b: Buffer, at: int, spaces: seq<nat>)
    reads b`chains, b.chains
  {
    && 0 <= at <= at + |spaces| <= |b.chains|
    && (forall i {:trigger SpaceAt(b, at, spaces, i)} :: SpaceAt(b, at, spaces, i))
  }

  lemma {:induction false} SumSnoc(s: seq<nat>, x: nat)
    ensures Sum(s + [x]) == Sum(s) + x
    ensures Used(s + [x]) == Used(s) + (if x > 0 then 1 else 0)
  {
    assert (s + [x])[..|s|] == s;
  }

  /** An empty chunk is added behind the last one. */
  method AppendEmpty(b: Buffer, tmp: Chain)
    requires b.Valid() && b.chains != []
    requires tmp !in b.chains && tmp.next == null && tmp.Sound() && tmp.off == 0
    modifies b`first, b`last, b`chains, b`windows, (set x | x in b.chains)`next
    ensures b.Valid() && b.Content() == old(b.Content())
    ensures b.chains == old(b.chains) + [tmp]
  {
    b.Single(tmp);
    assert tmp.Window() == [];
    JoinConcat(b.windows, [[]]);
    JoinOne([]);
    LastDataSnoc(b.windows, b.dataAt);
    hide Join, Buffer.Spine, Buffer.NodeOk, Segment, LastData;
    b.Hang(NextOf(b.last), tmp, [tmp], [[]]);
    b.last := tmp;
  }

  lemma {:induction false} LastDataSnoc(ws: seq<seq<byte>>, k: nat)
    requires LastData(ws, k) && ws != []
    ensures LastData(ws + [[]], k)
  {
  }

  lemma NoSpaces(b: Buffer)
    requires b.dataAt <= |b.chains|
    ensures HasSpaces(b, b.dataAt, [])
  {
  }

  /** The walk of evbuffer_expand_fast_: add up the room from the last data on,
      realigning empty chunks, until it is enough or n chunks are used. */
  method CountRoom(b: Buffer, datlen: nat, n: nat)
    returns (avail: nat, used: nat, c: Chain?, ghost spaces: seq<nat>)
    requires b.Valid() && b.chains != [] && n >= 2
    modifies b`windows, (set x | x in b.chains)`mem, (set x | x in b.chains)`misalign, (set x | x in b.chains)`off
    ensures b.Valid() && b.windows == old(b.windows)
    ensures HasSpaces(b, b.dataAt, spaces) && Sum(spaces) == avail && Used(spaces) == used <= n
    ensures avail < datlen && used < n ==> b.dataAt + |spaces| == |b.chains|
    ensures used > 0 ==> spaces != []
  {
    hide Join, Buffer.Spine, Buffer.NodeOk, Segment, LastData, Chain.Sound, HasSpaces;
    DistinctOf(b);
    NoSpaces(b);
    avail, used, spaces := 0, 0, [];
    c := b.DataChunk();
    while c != null
      invariant b.Valid() && b.windows == old(b.windows) && b.dataAt + |spaces| <= |b.chains|
      invariant c == if b.dataAt + |spaces| < |b.chains| then b.chains[b.dataAt + |spaces|] else null
      invariant HasSpaces(b, b.dataAt, spaces) && Sum(spaces) == avail && Used(spaces) == used < n
      invariant used > 0 ==> spaces != []
      decreases |b.chains| - |spaces|
    {
      var space := RoomOf(b, c, spaces);
      SumSnoc(spaces, space);
      spaces := spaces + [space];
      avail := avail + space;
      if space > 0 {
        used := used + 1;
      }
      if avail >= datlen || used == n {
        break;
      }
      c := c.next;
    }
  }

  /** One chunk of that walk. */
  method RoomOf(b: Buffer, c: Chain, ghost spaces: seq<nat>) returns (space: nat)
    requires b.Valid() && HasSpaces(b, b.dataAt, spaces)
    requires b.dataAt + |spaces| < |b.chains| && c == b.chains[b.dataAt + |spaces|]
    modifies b`windows, c`mem, c`misalign, c`off
    ensures b.Valid() && b.windows == old(b.windows)
    ensures HasSpaces(b, b.dataAt, spaces + [space])
    ensures c.next == if b.dataAt + |spaces| + 1 < |b.chains| then b.chains[b.dataAt + |spaces| + 1] else null
  {
    ghost var i := b.dataAt + |spaces|;
    b.Node(i);
    DistinctOf(b);
    hide Join, Buffer.Spine, Buffer.NodeOk, Segment, LastData;
    if c.off != 0 {
      space := c.SpaceLen();
    } else {
      Align(b, c, i);
      space := |c.mem|;
    }
    ghost var s := spaces + [space];
    forall j ensures SpaceAt(b, b.dataAt, s, j) {
      assert old(SpaceAt(b, b.dataAt, spaces, j));
    }
  }

  lemma OneSpace(b: Buffer, at: int, space: nat)
    requires 0 <= at < |b.chains| && b.chains[at].InBounds() && b.chains[at].SpaceLen() == space
    ensures HasSpaces(b, at, [space]) && Sum([space]) == space && Used([space]) <= 1
  {
    SumSnoc([], space);
  }

  lemma TwoSpaces(b: Buffer, at: int, one: nat, two: nat)
    requires 0 <= at < |b.chains| - 1
    requires b.chains[at].InBounds() && b.chains[at].SpaceLen() == one
    requires b.chains[at + 1].InBounds() && b.chains[at + 1].SpaceLen() == two
    ensures HasSpaces(b, at, [one, two]) && Sum([one, two]) == one + two && Used([one, two]) <= 2
  {
    SumSnoc([], one);
    SumSnoc([one], two);
    assert [one] + [two] == [one, two];
  }

  /** evbuffer_expand_fast_ when the first n chunks with room were not enough:
      every empty chunk is let go and one new chunk makes up the difference. */
  method ReplaceEmpties(b: Buffer, datlen: nat) returns (r: int, ghost at: int, ghost spaces: seq<nat>)
    requires b.Valid() && b.chains != []
    requires b.chains[b.dataAt].InBounds() && b.chains[b.dataAt].SpaceLen() <= datlen
    modifies b`first, b`last, b`lastWithData, b`chains, b`windows, b`dataAt, b`totalLen, (set x | x in b.chains)
    ensures b.Valid() && b.Content() == old(b.Content())
    ensures r == 0 || r == -1
    ensures r == -1 ==> datlen > ROOM
    ensures r == 0 ==> HasSpaces(b, at, spaces) && b.dataAt <= at && Sum(spaces) >= datlen && Used(spaces) <= 2
    ensures forall x | x in b.chains :: x in old(b.chains) || fresh(x)
  {
    hide Join, Buffer.Spine, Buffer.NodeOk, Segment, Chain.Sound, LastData, HasSpaces, Sum, Used;
    var c := b.DataChunk();
    DistinctOf(b);
    b.Node(b.dataAt);
    if c.off == 0 {
      NothingInside(b);
      b.ZeroChain();
      r, at, spaces := ExpandByOne(b, datlen);
    } else {
      r, at, spaces := ReplaceTail(b, c, datlen);
    }
  }

  /** An empty chunk is the last one with data only when there is no data. */
  lemma NothingInside(b: Buffer)
    requires b.Valid() && b.chains != [] && b.windows[b.dataAt] == []
    ensures b.Content() == []
  {
    JoinEmpty(b.windows);
  }

  /** The same when some chunk has data: the empty ones behind it are let go. */
  method ReplaceTail(b: Buffer, c: Chain, datlen: nat) returns (r: int, ghost at: int, ghost spaces: seq<nat>)
    requires b.Valid() && b.dataAt < |b.chains| && c == b.chains[b.dataAt]
    requires c.InBounds() && c.SpaceLen() <= datlen
    modifies b`first, b`last, b`chains, b`windows, (set x | x in b.chains)`next
    ensures b.Valid() && b.Content() == old(b.Content())
    ensures r == 0 || r == -1
    ensures r == -1 ==> datlen > ROOM
    ensures r == 0 ==> HasSpaces(b, at, spaces) && b.dataAt <= at && Sum(spaces) >= datlen && Used(spaces) <= 2
    ensures forall x | x in b.chains :: x in old(b.chains) || fresh(x)
  {
    hide Join, Buffer.Spine, Buffer.NodeOk, Segment, Chain.Sound, LastData, HasSpaces, Sum, Used;
    var avail := c.SpaceLen();
    TrimEmpties(b, c);
    at, spaces := b.dataAt, [];
    var tmp := ChainNew(datlen - avail);
    if tmp == null {
      return -1, at, spaces;
    }
    var space := tmp.SpaceLen();
    AppendEmpty(b, tmp);
    TwoSpaces(b, at, avail, space);
    r, spaces := 0, [avail, space];
  }

  /** Ends the list after the last chunk with data. */
  method TrimEmpties(b: Buffer, c: Chain)
    requires b.Valid() && b.dataAt < |b.chains| && c == b.chains[b.dataAt]
    modifies b`first, b`last, b`chains, b`windows, (set x | x in b.chains)`next
    ensures b.Valid() && b.Content() == old(b.Content())
    ensures b.chains == old(b.chains)[..b.dataAt + 1]
  {
    ghost var n := b.dataAt + 1;
    JoinSplit(b.windows, n);
    JoinEmpty(b.windows[n..]);
    hide Join, Buffer.Spine, Buffer.NodeOk, Segment;
    b.Cut(n, NextOf(c));
    b.last := c;
  }

  /** The first case of evbuffer_expand_fast_: nothing there to write to. */
  method ExpandByOne(b: Buffer, datlen: nat) returns (r: int, ghost at: int, ghost spaces: seq<nat>)
    requires b.Valid()
    modifies b`first, b`last, b`lastWithData, b`chains, b`windows, b`dataAt, b`totalLen, (set x | x in b.chains)`next
    ensures b.Valid() && b.Content() == old(b.Content())
    ensures r == (if datlen > ROOM then -1 else 0)
    ensures r == 0 ==> HasSpaces(b, at, spaces) && b.dataAt <= at && Sum(spaces) >= datlen && Used(spaces) <= 1
    ensures r == 0 && old(b.Content()) != [] ==> b.dataAt < |b.chains| - 1
    ensures forall x | x in b.chains :: x in old(b.chains) || fresh(x)
  {
    hide Join, Buffer.Spine, Buffer.NodeOk, Segment, Chain.Sound, LastData, HasSpaces, Sum, Used;
    var c := InsertNew(b, datlen);
    at, spaces := 0, [];
    if c == null {
      return -1, at, spaces;
    }
    DistinctOf(b);
    at, spaces := |b.chains| - 1, [c.SpaceLen()];
    OneSpace(b, at, c.SpaceLen());
    r := 0;
  }

  /** evbuffer_expand_fast_ when there is still a chunk to be used. */
  method ExpandByRest(b: Buffer, rest: nat, ghost spaces: seq<nat>) returns (r: int, ghost spaces': seq<nat>)
    requires b.Valid() && b.chains != [] && HasSpaces(b, b.dataAt, spaces)
    requires b.dataAt + |spaces| == |b.chains|
    modifies b`first, b`last, b`chains, b`windows, (set x | x in b.chains)`next
    ensures b.Valid() && b.Content() == old(b.Content()) && b.dataAt == old(b.dataAt)
    ensures r == (if rest > ROOM then -1 else 0)
    ensures r == 0 ==> HasSpaces(b, b.dataAt, spaces') && Sum(spaces') >= Sum(spaces) + rest
                       && Used(spaces') <= Used(spaces) + 1
    ensures forall x | x in b.chains :: x in old(b.chains) || fresh(x)
  {
    hide Join, Buffer.Spine, Buffer.NodeOk, Segment, Chain.Sound, LastData, HasSpaces;
    var tmp := ChainNew(rest);
    spaces' := spaces;
    if tmp == null {
      return -1, spaces';
    }
    AppendEmptyRoom(b, tmp, spaces);
    SumSnoc(spaces, tmp.SpaceLen());
    spaces' := spaces + [tmp.SpaceLen()];
    r := 0;
  }

  /** evbuffer_expand_fast_: the content is kept, and there is room for datlen
      more bytes in at most n chunks at or after the last data. */
  method ExpandFast(b: Buffer, datlen: nat, n: nat) returns (r: int, ghost at: int, ghost spaces: seq<nat>)
    requires b.Valid() && n >= 2
    modifies b`first, b`last, b`lastWithData, b`chains, b`windows, b`dataAt, b`totalLen, (set x | x in b.chains)
    ensures b.Valid() && b.Content() == old(b.Content())
    ensures r == 0 || r == -1
    ensures r == -1 ==> datlen > ROOM
    ensures r == 0 ==> HasSpaces(b, at, spaces) && b.dataAt <= at && Sum(spaces) >= datlen && Used(spaces) <= n
    ensures r == 0 && old(b.Content() != [] && b.last != null && b.last.immutable) ==> b.dataAt < |b.chains| - 1
    ensures forall x | x in b.chains :: x in old(b.chains) || fresh(x)
  {
    hide Join, Buffer.Spine, Buffer.NodeOk, Segment, Chain.Sound, LastData, HasSpaces, Sum, Used;
    DistinctOf(b);
    if b.last == null || b.last.immutable {
      r, at, spaces := ExpandByOne(b, datlen);
      return;
    }
    var avail, used, c;
    avail, used, c, spaces := CountRoom(b, datlen, n);
    at := b.dataAt;
    if avail >= datlen {
      return 0, at, spaces;
    }
    if used < n {
      r, spaces := ExpandByRest(b, datlen - avail, spaces);
    } else {
      SpacesBound(b, at, spaces);
      r, at, spaces := ReplaceEmpties(b, datlen);
    }
  }

  lemma {:induction false} SumAtLeast(s: seq<nat>, i: nat)
    requires i < |s|
    ensures s[i] <= Sum(s)
  {
    if i < |s| - 1 {
      SumAtLeast(s[..|s| - 1], i);
    }
  }

  lemma SpacesBound(b: Buffer, at: int, spaces: seq<nat>)
    requires HasSpaces(b, at, spaces) && spaces != []
    ensures b.chains[at].InBounds() && b.chains[at].SpaceLen() <= Sum(spaces)
  {
    assert SpaceAt(b, at, spaces, 0);
    SumAtLeast(spaces, 0);
  }

  method AppendEmptyRoom(b: Buffer, tmp: Chain, ghost spaces: seq<nat>)
    requires b.Valid() && b.chains != [] && HasSpaces(b, b.dataAt, spaces)
    requires b.dataAt + |spaces| == |b.chains|
    requires tmp !in b.chains && tmp.next == null && tmp.Sound() && tmp.off == 0
    modifies b`first, b`last, b`chains, b`windows, (set x | x in b.chains)`next
    ensures b.Valid() && b.Content() == old(b.Content())
    ensures b.chains == old(b.chains) + [tmp]
    ensures tmp.InBounds() && HasSpaces(b, b.dataAt, spaces + [tmp.SpaceLen()])
  {
    hide Join, Buffer.Spine, Buffer.NodeOk, Segment, LastData;
    AppendEmpty(b, tmp);
    ghost var s := spaces + [tmp.SpaceLen()];
    forall j ensures SpaceAt(b, b.dataAt, s, j) {
      assert old(SpaceAt(b, b.dataAt, spaces, j));
    }
  }
}
