/** Moving data between two buffers without copying it. */
module EvBufferMove {
  import opened Bytes
  import opened EvBuffer
  import Words

  /** No chunk is in both lists. */
  ghost predicate Apart(a: Buffer, b: Buffer)
    reads a`chains, b`chains
  {
    forall c | c in a.chains :: c !in b.chains
  }

  /** A list with data, hung behind a list without empty chunks. */
  lemma {:induction false} LastDataConcat(kept: seq<seq<byte>>, ws: seq<seq<byte>>, k: nat)
    requires forall i | 0 <= i < |kept| :: kept[i] != []
    requires LastData(ws, k) && Join(ws) != []
    ensures LastData(kept + ws, |kept| + k)
    ensures k < |ws| && ws[k] != []
  {
    JoinNil();
    if ws[k] == [] {
      JoinToLast(ws, k);
    }
  }

  /** The second half of APPEND_CHAIN, on a list already cut. */
  method AttachAll(dst: Buffer, chp: Slot, src: Buffer)
    requires dst != src && dst.Spine() && src.Valid() && Apart(dst, src)
    requires chp == dst.SlotAt(|dst.chains|) && src.totalLen != 0
    requires forall i | 0 <= i < |dst.windows| :: dst.windows[i] != []
    requires dst.totalLen == |Join(dst.windows)|
    modifies dst`first, dst`last, dst`lastWithData, dst`totalLen, dst`chains, dst`windows, dst`dataAt,
             (set x | x in dst.chains)`next
    ensures dst.Valid() && dst.Content() == old(dst.Content()) + src.Content()
    ensures dst.chains == old(dst.chains) + src.chains
  {
    hide Join, Buffer.Spine, Buffer.NodeOk, LastData, Segment, Buffer.Valid;
    ghost var front := dst.chains;
    SameCount(dst);
    WithData(src);
    LastDataConcat(dst.windows, src.windows, src.dataAt);
    JoinConcat(dst.windows, src.windows);
    dst.Hang(chp, src.first, src.chains, src.windows);
    TakeMarks(dst, chp, src, front);
  }

  lemma SameCount(b: Buffer)
    requires b.Spine()
    ensures |b.windows| == |b.chains|
  {
  }

  /** A buffer with data has chunks, and one of them is marked. */
  lemma WithData(b: Buffer)
    requires b.Valid() && b.totalLen != 0
    ensures b.Spine() && Segment(b.chains, b.windows) && LastData(b.windows, b.dataAt)
    ensures b.totalLen == |Join(b.windows)| && b.dataAt < |b.chains| == |b.windows| && b.first == b.chains[0]
    ensures b.last == b.chains[|b.chains| - 1] && b.lastWithData == b.SlotAt(b.dataAt)
  {
    JoinNil();
  }

  /** The marks of the list that was hung on behind `front` become those of the
      whole list. */
  method TakeMarks(dst: Buffer, chp: Slot, src: Buffer, ghost front: seq<Chain>)
    requires dst != src && dst.Spine() && |dst.windows| == |dst.chains|
    requires dst.chains == front + src.chains && src.dataAt < |src.chains|
    requires src.lastWithData == src.SlotAt(src.dataAt) && src.last == src.chains[|src.chains| - 1]
    requires chp == if front == [] then First else NextOf(front[|front| - 1])
    requires LastData(dst.windows, |front| + src.dataAt)
    requires dst.totalLen + src.totalLen == |Join(dst.windows)|
    modifies dst`last, dst`lastWithData, dst`totalLen, dst`dataAt
    ensures dst.Valid()
  {
    hide Join, Buffer.Spine, LastData;
    dst.lastWithData := if src.lastWithData == First then chp else src.lastWithData;
    dst.dataAt := |front| + src.dataAt;
    dst.last := src.last;
    dst.totalLen := dst.totalLen + src.totalLen;
  }

  /** APPEND_CHAIN */
  method AppendChain(dst: Buffer, src: Buffer)
    requires dst != src && dst.Valid() && src.Valid() && Apart(dst, src)
    requires dst.totalLen != 0 && src.totalLen != 0
    modifies dst`first, dst`last, dst`lastWithData, dst`totalLen, dst`chains, dst`windows, dst`dataAt,
             (set x | x in dst.chains)`next
    ensures dst.Valid() && dst.Content() == old(dst.Content()) + src.Content()
    ensures forall x | x in dst.chains :: x in old(dst.chains) || x in src.chains
  {
    JoinNil();
    assert dst.chains != [];
    hide Join, Buffer.Spine, Buffer.NodeOk, LastData;
    var chp := dst.FreeTrailingEmpty();
    AttachAll(dst, chp, src);
  }

  /** COPY_CHAIN, the old chunks of `dst` let go. */
  method CopyChain(dst: Buffer, src: Buffer)
    requires dst != src && src.Valid()
    modifies dst
    ensures dst.Valid() && dst.chains == src.chains
    ensures dst.windows == src.windows && dst.dataAt == src.dataAt
    ensures dst.freezeStart == old(dst.freezeStart) && dst.freezeEnd == old(dst.freezeEnd)
  {
    hide Segment, LastData, Join;
    dst.first := src.first;
    dst.lastWithData := if src.lastWithData == First then First else src.lastWithData;
    dst.last := src.last;
    dst.totalLen := src.totalLen;
    dst.chains, dst.windows, dst.dataAt := src.chains, src.windows, src.dataAt;
  }

  /** evbuffer_add_buffer */
  method AddBuffer(dst: Buffer, src: Buffer) returns (r: int)
    requires dst.Valid() && src.Valid() && (dst != src ==> Apart(dst, src))
    modifies dst, src, (set x | x in dst.chains)`next
    ensures dst.Valid() && src.Valid() && (dst != src ==> Apart(dst, src))
    ensures r == (if old(src.Content()) != [] && dst != src && (old(dst.freezeEnd) || old(src.freezeStart)) then -1 else 0)
    ensures r == -1 || dst == src || old(src.Content()) == [] ==>
              dst.Content() == old(dst.Content()) && src.Content() == old(src.Content())
    ensures r == 0 && dst != src ==>
              dst.Content() == old(dst.Content()) + old(src.Content()) && src.Content() == []
  {
    hide Buffer.Spine, Buffer.NodeOk, LastData;
    if src.totalLen == 0 || dst == src {
      return 0;
    }
    if dst.freezeEnd || src.freezeStart {
      return -1;
    }
    if dst.totalLen == 0 {
      CopyChain(dst, src);
    } else {
      AppendChain(dst, src);
    }
    src.ZeroChain();
    return 0;
  }

  /** A list with data put in front of another: the result has no empty chunk
      before its last data exactly when the front list ended in data. */
  lemma {:induction false} LastDataInFront(ws: seq<seq<byte>>, j: nat, us: seq<seq<byte>>, k: nat)
    requires LastData(ws, j) && Join(ws) != []
    requires LastData(us, k) && Join(us) != []
    ensures LastData(ws + us, |ws| + k) <==> j == |ws| - 1
  {
    LastDataConcat([], ws, j);
    LastDataConcat([], us, k);
    var s := ws + us;
    if j != |ws| - 1 {
      assert s[|ws| - 1] == ws[|ws| - 1] == [];
    }
  }

  /** The pointer work of PREPEND_CHAIN. */
  method HangInFront(dst: Buffer, src: Buffer)
    requires dst != src && dst.Spine() && src.Spine() && Apart(src, dst)
    requires src.chains != [] && src.last == src.chains[|src.chains| - 1]
    modifies dst`first, dst`chains, dst`windows, src.last`next
    ensures dst.Spine()
    ensures dst.chains == src.chains + old(dst.chains) && dst.windows == src.windows + old(dst.windows)
  {
    ghost var n := |src.chains|;
    assert src.NodeOk(n - 1);
    DistinctConcat(src.chains, dst.chains);
    src.last.next := dst.first;
    dst.first := src.first;
    dst.chains, dst.windows := src.chains + dst.chains, src.windows + dst.windows;
    forall i ensures SegmentNode(dst.chains, dst.windows, i) {
      assert old(src.NodeOk(i)) && old(dst.NodeOk(i - n));
      if 0 <= i < n - 1 {
        assert src.chains[i] != src.chains[n - 1];
      } else if n <= i < |dst.chains| {
        assert dst.chains[i] in old(dst.chains);
      }
    }
  }

  /** Everything Valid() says but that no empty chunk precedes the last data. */
  ghost predicate Linked(b: Buffer)
    reads b, b.chains
  {
    && b.Spine()
    && |b.windows| == |b.chains|
    && b.lastWithData == b.SlotAt(b.dataAt) && b.dataAt < |b.chains| && b.windows[b.dataAt] != []
    && (forall i | b.dataAt < i < |b.windows| :: b.windows[i] == [])
    && b.last == b.chains[|b.chains| - 1]
    && b.totalLen == |Join(b.windows)|
  }

  /** PREPEND_CHAIN */
  method PrependChain(dst: Buffer, src: Buffer)
    requires dst != src && dst.Valid() && src.Valid() && Apart(src, dst)
    requires dst.totalLen != 0 && src.totalLen != 0
    modifies dst`first, dst`lastWithData, dst`totalLen, dst`chains, dst`windows, dst`dataAt, src.last`next
    ensures Linked(dst) && dst.Content() == src.Content() + old(dst.Content())
    ensures dst.Valid() <==> src.dataAt == |src.chains| - 1
    ensures dst.chains == src.chains + old(dst.chains)
  {
    hide Join, Buffer.Spine, Buffer.NodeOk, LastData, Segment, Buffer.Valid, Linked;
    ghost var n := |src.chains|;
    WithData(src);
    WithData(dst);
    LastDataInFront(src.windows, src.dataAt, dst.windows, dst.dataAt);
    LastDataConcat([], dst.windows, dst.dataAt);
    LastDataTail(src.windows, dst.windows, dst.dataAt);
    JoinConcat(src.windows, dst.windows);
    HangInFront(dst, src);
    KeepMarks(dst, src, n);
  }

  /** The marks of the list that got n chunks in front stay where they were. */
  method KeepMarks(dst: Buffer, src: Buffer, ghost n: nat)
    requires dst != src && dst.Spine() && 0 < n < |dst.chains| == |dst.windows|
    requires src.last == dst.chains[n - 1] && dst.last == dst.chains[|dst.chains| - 1]
    requires dst.dataAt + n < |dst.chains| && dst.windows[n + dst.dataAt] != []
    requires dst.lastWithData == if dst.dataAt == 0 then First else NextOf(dst.chains[n + dst.dataAt - 1])
    requires forall i | n + dst.dataAt < i < |dst.windows| :: dst.windows[i] == []
    requires dst.totalLen + src.totalLen == |Join(dst.windows)|
    modifies dst`lastWithData, dst`totalLen, dst`dataAt
    ensures Linked(dst) && (dst.Valid() <==> LastData(dst.windows, n + old(dst.dataAt)))
  {
    hide Join, Buffer.Spine, LastData;
    dst.totalLen := dst.totalLen + src.totalLen;
    dst.lastWithData := if dst.lastWithData == First then NextOf(src.last) else dst.lastWithData;
    dst.dataAt := n + dst.dataAt;
  }

  lemma {:induction false} LastDataTail(ws: seq<seq<byte>>, us: seq<seq<byte>>, k: nat)
    requires LastData(us, k)
    ensures forall i | |ws| + k < i < |ws + us| :: (ws + us)[i] == []
  {
  }

  /** evbuffer_prepend_buffer. The bytes always arrive in order; `dst` is left
      with an empty chunk in front of data exactly when `src` ended in empty
      chunks and `dst` had data. */
  method PrependBuffer(dst: Buffer, src: Buffer) returns (r: int)
    requires dst.Valid() && src.Valid() && (dst != src ==> Apart(src, dst))
    modifies dst, src, (set x | x in src.chains)`next
    ensures src.Valid()
    ensures r == (if old(src.Content()) != [] && dst != src && (old(dst.freezeStart) || old(src.freezeStart)) then -1 else 0)
    ensures r == -1 || dst == src || old(src.Content()) == [] ==>
              dst.Valid() && dst.Content() == old(dst.Content()) && src.Content() == old(src.Content())
    ensures r == 0 && dst != src ==>
              dst.Content() == old(src.Content()) + old(dst.Content()) && src.Content() == []
    ensures r == 0 && dst != src && old(src.Content()) != [] ==>
              && Linked(dst) && Apart(src, dst)
              && (dst.Valid() <==> old(dst.Content()) == [] || old(src.dataAt == |src.chains| - 1))
  {
    if src.totalLen == 0 || dst == src {
      return 0;
    }
    if dst.freezeStart || src.freezeStart {
      return -1;
    }
    JoinNil();
    assert src.chains != [];
    hide Buffer.Spine, Buffer.NodeOk, LastData, Join;
    if dst.totalLen == 0 {
      LastDataConcat([], src.windows, src.dataAt);
      LastDataTail([], src.windows, src.dataAt);
      assert [] + src.windows == src.windows;
      CopyChain(dst, src);
    } else {
      PrependChain(dst, src);
    }
    src.ZeroChain();
    return 0;
  }

  /* ----- a prefix ----- */

  /** Breaks the list of `src` before chunk i; the chunks before it stay linked. */
  method BreakAt(src: Buffer, previous: Chain, c: Chain, ghost i: nat)
    requires src.Spine()
    requires 0 < i < |src.chains| && previous == src.chains[i - 1] && c == src.chains[i]
    modifies src`first, src`chains, src`windows, previous`next
    ensures src.Spine() && Segment(old(src.chains)[..i], old(src.windows)[..i])
    ensures src.chains == old(src.chains)[i..] && src.windows == old(src.windows)[i..]
  {
    ghost var cs, ws := src.chains[..i], src.windows[..i];
    previous.next := null;
    src.first := c;
    src.chains, src.windows := src.chains[i..], src.windows[i..];
    forall j ensures SegmentNode(cs, ws, j) {
      assert old(src.NodeOk(j));
    }
    forall j ensures SegmentNode(src.chains, src.windows, j) {
      assert old(src.NodeOk(j + i));
      if 0 <= j < |src.chains| {
        assert src.chains[j] == old(src.chains)[j + i] != previous;
      }
    }
  }

  lemma {:induction false} LastDataFull(ws: seq<seq<byte>>)
    requires ws != [] && forall i | 0 <= i < |ws| :: ws[i] != []
    ensures LastData(ws, |ws| - 1)
  {
  }

  /** Appends linked chunks that all hold data, the way evbuffer_remove_buffer
      does: cut, link, then advance last_with_datap. */
  method AppendFull(dst: Buffer, head: Chain, tail: Chain, nread: nat, ghost cs: seq<Chain>, ghost ws: seq<seq<byte>>)
    requires dst.Valid() && Segment(cs, ws) && cs != [] && head == cs[0] && tail == cs[|cs| - 1]
    requires |ws| == |cs| && nread == |Join(ws)| && forall j | 0 <= j < |ws| :: ws[j] != []
    requires forall x | x in dst.chains :: x !in cs
    modifies dst`first, dst`last, dst`lastWithData, dst`totalLen, dst`chains, dst`windows, dst`dataAt,
             (set x | x in dst.chains)`next
    ensures dst.Valid() && dst.Content() == old(dst.Content()) + Join(ws)
    ensures dst.dataAt < |dst.chains| && dst.chains[dst.dataAt] == tail && dst.totalLen == old(dst.totalLen) + nread
    ensures forall x | x in dst.chains :: x in old(dst.chains) || x in cs
  {
    hide Join, Buffer.Spine, Buffer.NodeOk, Segment;
    ghost var dw, dk := dst.windows, dst.dataAt;
    var chp := dst.FreeTrailingEmpty();
    ghost var kept := dst.windows;
    dst.Hang(chp, head, cs, ws);
    dst.last := tail;
    AdvanceAfterMove(dst, kept, ws, dw, dk);
    JoinConcat(kept, ws);
    dst.totalLen := dst.totalLen + nread;
  }

  /** The chunks that evbuffer_remove_buffer can move whole. */
  method MoveChunks(dst: Buffer, src: Buffer, previous: Chain, c: Chain, nread: nat, ghost i: nat)
    requires dst != src && dst.Valid() && src.Spine() && Apart(dst, src)
    requires 0 < i < |src.chains| && previous == src.chains[i - 1] && c == src.chains[i]
    requires |src.windows| == |src.chains| && forall j | 0 <= j < i :: src.windows[j] != []
    requires nread == |Join(src.windows[..i])|
    modifies dst`first, dst`last, dst`lastWithData, dst`totalLen, dst`chains, dst`windows, dst`dataAt,
             src`first, src`chains, src`windows, previous`next, (set x | x in dst.chains)`next
    ensures dst.Valid() && src.Spine() && Apart(dst, src)
    ensures dst.Content() == old(dst.Content()) + Join(old(src.windows)[..i])
    ensures dst.dataAt < |dst.chains| && dst.chains[dst.dataAt] == previous && dst.totalLen == old(dst.totalLen) + nread
    ensures src.chains == old(src.chains)[i..] && src.windows == old(src.windows)[i..]
    ensures forall x | x in dst.chains :: x in old(dst.chains) || x in old(src.chains)
  {
    assert src.first == src.chains[0] && Distinct(src.chains);
    ghost var cs, ws := src.chains[..i], src.windows[..i];
    assert forall x | x in cs :: x in src.chains && x !in src.chains[i..];
    assert previous in src.chains;
    hide Join, Buffer.Spine, Buffer.NodeOk, Segment, Distinct, LastData;
    var head := src.first;
    BreakAt(src, previous, c, i);
    AppendFull(dst, head, previous, nread, cs, ws);
  }

  method AdvanceAfterMove(dst: Buffer, ghost kept: seq<seq<byte>>, ghost ws: seq<seq<byte>>,
                          ghost dw: seq<seq<byte>>, ghost dk: nat)
    requires dst.Spine() && |dst.windows| == |dst.chains| && dst.windows == kept + ws && ws != []
    requires forall j | 0 <= j < |ws| :: ws[j] != []
    requires forall j | 0 <= j < |kept| :: kept[j] != []
    requires dst.dataAt == dk && LastData(dw, dk) && |kept| == DataCount(dw, dk)
    requires dst.lastWithData == (if dk == 0 then First else NextOf(dst.chains[dk - 1]))
    modifies dst`lastWithData, dst`dataAt
    ensures dst.DataOk() && dst.dataAt == |dst.chains| - 1
  {
    dst.AdvanceLastWithData();
    LastDataFull(dst.windows);
  }

  /** evbuffer_add at the end of evbuffer_remove_buffer refuses the last n bytes,
      once i whole chunks have moved: its result is not looked at. */
  ghost predicate Refused(src: Buffer, dst: Buffer, i: nat, n: nat)
    reads src`chains, src`windows, src.chains, dst`chains, dst`dataAt, dst`totalLen, dst.chains
    requires i <= |src.chains| == |src.windows|
  {
    || n > Words.SIZE_MAX - (dst.totalLen + |Join(src.windows[..i])|)
    || (if i == 0 then dst.TooMuch(n) else Buffer.Short(src.chains[i - 1], n))
  }

  /** The front chunk of `src` gives up its first n bytes, which were copied. */
  method ShortenFirst(src: Buffer, c: Chain, n: nat)
    requires src.Spine() && src.chains != [] && c == src.chains[0] && n < |src.windows[0]|
    modifies src`windows, c`mem, c`misalign, c`off
    ensures src.Spine() && src.windows == old(src.windows)[0 := old(src.windows)[0][n..]]
  {
    assert src.NodeOk(0);
    SliceSlice(c.mem, c.misalign, c.misalign + c.off, n, c.off);
    hide Buffer.Spine, Buffer.NodeOk;
    src.Refill(c, 0, c.mem, c.misalign + n, c.off - n);
  }

  /** What evbuffer_remove_buffer does once it knows where to stop. */
  method RemoveAt(src: Buffer, dst: Buffer, c: Chain, previous: Chain?, remaining: nat, nread: nat, ghost i: nat)
    requires dst != src && dst.Valid() && src.Spine() && Apart(dst, src) && !dst.freezeEnd
    requires i < |src.chains| == |src.windows| && c == src.chains[i]
    requires previous == if i == 0 then null else src.chains[i - 1]
    requires nread == |Join(src.windows[..i])| && remaining < |src.windows[i]|
    requires forall j | 0 <= j < i :: src.windows[j] != []
    modifies src`first, src`chains, src`windows, (set x | x in src.chains),
             dst`first, dst`last, dst`lastWithData, dst`totalLen, dst`chains, dst`windows, dst`dataAt,
             (set x | x in dst.chains)
    ensures dst.Valid() && src.Spine() && Apart(dst, src)
    ensures src.chains == old(src.chains)[i..]
    ensures src.windows == old(src.windows)[i..][0 := old(src.windows)[i][remaining..]]
    ensures dst.Content() == old(dst.Content()) + Join(old(src.windows)[..i])
                             + if old(Refused(src, dst, i, remaining)) then [] else old(src.windows)[i][..remaining]
  {
    hide Join, Buffer.Spine, Buffer.NodeOk, Segment, Distinct, LastData, Buffer.Valid, Chain.Sound;
    ghost var whole := Join(src.windows[..i]);
    PrefixHasData(src.windows, i);
    src.Node(i);
    InBoundsOf(c);
    var data := c.Window()[..remaining];
    if nread != 0 {
      MoveChunks(dst, src, previous, c, nread, i);
    } else {
      assert src.chains[i..] == src.chains && src.windows[i..] == src.windows;
    }
    MoveRest(src, dst, c, remaining, data);
  }

  lemma InBoundsOf(c: Chain)
    requires c.Sound()
    ensures c.InBounds()
  {
  }

  /** The bytes that are copied: added to one buffer, dropped from the other. */
  method MoveRest(src: Buffer, dst: Buffer, c: Chain, n: nat, data: seq<byte>)
    requires dst != src && dst.Valid() && src.Spine() && Apart(dst, src) && !dst.freezeEnd
    requires src.chains != [] && c == src.chains[0] && |src.windows| == |src.chains| && n < |src.windows[0]|
    requires |data| == n
    modifies src`windows, c`mem, c`misalign, c`off,
             dst`first, dst`last, dst`lastWithData, dst`totalLen, dst`chains, dst`windows, dst`dataAt,
             (set x | x in dst.chains)
    ensures dst.Valid() && src.Spine() && Apart(dst, src)
    ensures src.windows == old(src.windows)[0 := old(src.windows)[0][n..]]
    ensures dst.Content() == old(dst.Content())
                             + if old(n > Words.SIZE_MAX - dst.totalLen || dst.TooMuch(n)) then [] else data
  {
    hide Join, Buffer.Spine, Buffer.NodeOk, Segment, Distinct, LastData, Buffer.Valid, Buffer.TooMuch;
    assert c in src.chains;
    var r := dst.Add(data);
    assert c !in dst.chains;
    ShortenFirst(src, c, n);
  }

  lemma {:induction false} PrefixHasData(ws: seq<seq<byte>>, i: nat)
    requires i <= |ws| && forall j | 0 <= j < i :: ws[j] != []
    ensures Join(ws[..i]) == [] <==> i == 0
  {
    JoinNil();
    if i > 0 {
      assert ws[..i][0] == ws[0];
    }
  }

  lemma {:induction false} BeforeData(ws: seq<seq<byte>>, k: nat, i: nat)
    requires LastData(ws, k) && i <= k < |ws|
    ensures forall j | 0 <= j < i :: ws[j] != []
  {
  }

  /** How many windows fit into n bytes, from the first on. */
  ghost function WholeChunks(ws: seq<seq<byte>>, n: nat): (i: nat)
    ensures i <= |ws| && |Join(ws[..i])| <= n
  {
    JoinNil();
    assert ws[..0] == [];
    if ws == [] || |ws[0]| > n then 0
    else
      var i := WholeChunks(ws[1..], n - |ws[0]|);
      JoinCons(ws[0], ws[1..][..i]);
      assert ws[..i + 1] == [ws[0]] + ws[1..][..i];
      i + 1
  }

  lemma {:induction false} WholeChunksAt(ws: seq<seq<byte>>, n: nat, i: nat)
    requires i < |ws| && |Join(ws[..i])| <= n < |Join(ws[..i])| + |ws[i]|
    ensures WholeChunks(ws, n) == i
  {
    if i > 0 {
      JoinCons(ws[0], ws[1..][..i - 1]);
      assert ws[..i] == [ws[0]] + ws[1..][..i - 1];
      WholeChunksAt(ws[1..], n - |ws[0]|, i - 1);
    } else {
      JoinNil();
      assert ws[..0] == [];
    }
  }

  lemma {:induction false} WholeChunksStop(ws: seq<seq<byte>>, n: nat)
    requires n < |Join(ws)|
    ensures var i := WholeChunks(ws, n); i < |ws| && n < |Join(ws[..i])| + |ws[i]|
  {
    assert ws[..0] == [];
    if |ws[0]| <= n {
      var i := WholeChunks(ws[1..], n - |ws[0]|);
      WholeChunksStop(ws[1..], n - |ws[0]|);
      JoinCons(ws[0], ws[1..][..i]);
      assert ws[..i + 1] == [ws[0]] + ws[1..][..i];
    }
  }

  /** How many of the n bytes that leave `src` arrive in `dst`. */
  ghost function Arriving(src: Buffer, dst: Buffer, n: nat): nat
    reads src`chains, src`windows, src.chains, dst`chains, dst`dataAt, dst`totalLen, dst.chains
    requires |src.chains| == |src.windows|
  {
    var i := WholeChunks(src.windows, n);
    var whole := |Join(src.windows[..i])|;
    if Refused(src, dst, i, n - whole) then whole else n
  }

  lemma ArrivingAt(src: Buffer, dst: Buffer, n: nat, i: nat, rest: nat)
    requires i < |src.chains| == |src.windows|
    requires |Join(src.windows[..i])| + rest == n && rest < |src.windows[i]|
    ensures Arriving(src, dst, n) <= n <= |src.Content()|
    ensures src.Content()[..Arriving(src, dst, n)] ==
            Join(src.windows[..i]) + if Refused(src, dst, i, rest) then [] else src.windows[i][..rest]
  {
    hide Join, Refused;
    WholeChunksAt(src.windows, n, i);
    JoinTaken(src.windows, i, rest);
    JoinTaken(src.windows, i, 0);
  }

  /** All of them, while no chunk is larger than evbuffer_chain_new makes them
      and the sum of the sizes is one. */
  lemma AllArrive(src: Buffer, dst: Buffer, n: nat)
    requires src.Valid() && dst.Valid() && n < src.totalLen && dst.totalLen + n <= Words.SIZE_MAX
    requires forall c | c in src.chains || c in dst.chains :: |c.mem| <= ROOM
    ensures Arriving(src, dst, n) == n
  {
    var i := WholeChunks(src.windows, n);
    var rest := n - |Join(src.windows[..i])|;
    WholeChunksStop(src.windows, n);
    hide Join, WholeChunks;
    src.Node(i);
    assert src.chains[i] in src.chains;
    dst.TooMuchOnly(rest);
    if i > 0 {
      assert src.chains[i - 1] in src.chains;
    }
  }

  /** evbuffer_remove_buffer when some data stays behind. */
  method RemovePart(src: Buffer, dst: Buffer, datlen: nat)
    requires dst != src && dst.Valid() && src.Valid() && Apart(dst, src)
    requires datlen < src.totalLen && !dst.freezeEnd
    modifies dst, src, (set x | x in src.chains), (set x | x in dst.chains)
    ensures dst.Valid() && src.Valid() && Apart(dst, src)
    ensures src.Content() == old(src.Content())[datlen..]
    ensures old(Arriving(src, dst, datlen)) <= datlen
    ensures dst.Content() == old(dst.Content()) + old(src.Content())[..old(Arriving(src, dst, datlen))]
  {
    hide Join, Buffer.Spine, Buffer.NodeOk, Segment, LastData, Distinct, Refused, Arriving;
    ghost var ws, k := src.windows, src.dataAt;
    var c, remaining, previous, i := src.SkipChunks(datlen);
    JoinDrained(ws, k, i, remaining);
    ArrivingAt(src, dst, datlen, i, remaining);
    BeforeData(ws, k, i);
    RemoveAt(src, dst, c, previous, remaining, datlen - remaining, i);
    src.dataAt := k - i;
    src.totalLen := src.totalLen - datlen;
  }

  /** evbuffer_remove_buffer. Everything that leaves `src` arrives in `dst`,
      unless the copy of the last few bytes is refused: then those are gone. */
  method RemoveBuffer(src: Buffer, dst: Buffer, datlen: nat) returns (r: int)
    requires dst.Valid() && src.Valid() && (dst != src ==> Apart(dst, src))
    modifies dst, src, (set x | x in src.chains), (set x | x in dst.chains)
    ensures dst.Valid() && src.Valid() && (dst != src ==> Apart(dst, src))
    ensures datlen == 0 || dst == src ==> r == 0
    ensures datlen != 0 && dst != src && old(dst.freezeEnd || src.freezeStart) ==> r == -1
    ensures datlen == 0 || dst == src || old(dst.freezeEnd || src.freezeStart) ==>
              dst.Content() == old(dst.Content()) && src.Content() == old(src.Content())
    ensures datlen != 0 && dst != src && !old(dst.freezeEnd || src.freezeStart) ==>
              var n := if datlen < old(src.totalLen) then datlen else old(src.totalLen);
              var arrives := if datlen < old(src.totalLen) then old(Arriving(src, dst, datlen)) else n;
              && r == Words.AsInt(n) && arrives <= n
              && src.Content() == old(src.Content())[n..]
              && dst.Content() == old(dst.Content()) + old(src.Content())[..arrives]
  {
    hide Buffer.Spine, Buffer.NodeOk, LastData, Arriving, Words.AsInt;
    if datlen == 0 || dst == src {
      return 0;
    }
    if dst.freezeEnd || src.freezeStart {
      return -1;
    }
    if datlen >= src.totalLen {
      r := Words.AsInt(src.totalLen);
      ghost var bytes := src.Content();
      assert bytes[..|bytes|] == bytes && bytes[|bytes|..] == [];
      var added := AddBuffer(dst, src);
    } else {
      RemovePart(src, dst, datlen);
      r := Words.AsInt(datlen);
    }
  }
}
