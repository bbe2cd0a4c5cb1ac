/** evbuffer: a queue of bytes kept in a singly linked list of chunks. */
module EvBuffer {
  import opened Bytes
  import Words

  const CHAIN_MAX: nat := 0x7fff_ffff_ffff_ffff
  const CHAIN_SIZE: nat := 48
  const MIN_BUFFER_SIZE: nat := 1024

  /** The largest request evbuffer_chain_new grants. */
  const ROOM: nat := CHAIN_MAX - CHAIN_SIZE

  /** struct evbuffer_chain. `mem` is the buffer, whose length is buffer_len. */
  class Chain {
    var next: Chain?
    var mem: seq<byte>
    var misalign: nat
    var off: nat
    const immutable: bool

    constructor (mem: seq<byte>, misalign: nat, off: nat, immutable: bool)
      ensures this.mem == mem && this.misalign == misalign && this.off == off
      ensures this.immutable == immutable && next == null
    {
      this.mem, this.misalign, this.off, this.immutable := mem, misalign, off, immutable;
      next := null;
    }

    /** The whole of `data`, at a given place of an empty chunk. */
    method Fill(at: nat, data: seq<byte>)
      requires at + |data| <= |mem|
      modifies this`mem, this`misalign, this`off
      ensures InBounds() && Window() == data && |mem| == |old(mem)| && misalign == at && off == |data|
    {
      mem := Write(mem, at, data);
      misalign, off := at, |data|;
    }

    predicate InBounds()
      reads this`mem, this`misalign, this`off
    {
      misalign + off <= |mem|
    }

    /** In bounds; a read-only chunk ends where its memory does and is empty only
        when that is, a writable one has memory. */
    predicate Sound()
      reads this`mem, this`misalign, this`off
    {
      InBounds() && (if immutable then misalign + off == |mem| && (off == 0 ==> mem == []) else |mem| > 0)
    }

    function Window(): seq<byte>
      reads this`mem, this`misalign, this`off
      requires InBounds()
    {
      mem[misalign..misalign + off]
    }

    /** CHAIN_SPACE_LEN */
    function SpaceLen(): nat
      reads this`mem, this`misalign, this`off
      requires InBounds()
    {
      if immutable then 0 else |mem| - (misalign + off)
    }
  }

  /** evbuffer_chain_new's size computation: the header and data rounded up to a
      doubling of the minimum size, unless that could overflow. */
  method AllocSize(size: nat) returns (toAlloc: nat)
    requires size <= ROOM
    ensures size + CHAIN_SIZE <= toAlloc <= CHAIN_MAX
    ensures size + CHAIN_SIZE < CHAIN_MAX / 2 ==>
              MIN_BUFFER_SIZE <= toAlloc && (toAlloc == MIN_BUFFER_SIZE || toAlloc < 2 * (size + CHAIN_SIZE))
  {
    var total := size + CHAIN_SIZE;
    if total < CHAIN_MAX / 2 {
      toAlloc := MIN_BUFFER_SIZE;
      while toAlloc < total
        invariant MIN_BUFFER_SIZE <= toAlloc
        invariant toAlloc == MIN_BUFFER_SIZE || toAlloc < 2 * total
        decreases total - toAlloc
      {
        toAlloc := toAlloc * 2;
      }
    } else {
      toAlloc := total;
    }
  }

  /** evbuffer_chain_new */
  method ChainNew(size: nat) returns (chain: Chain?)
    ensures chain == null <==> size > ROOM
    ensures chain != null ==>
              fresh(chain) && chain.next == null && !chain.immutable
              && chain.misalign == 0 && chain.off == 0 && size <= |chain.mem| <= ROOM && |chain.mem| > 0 && chain.Sound()
  {
    if size > ROOM {
      return null;
    }
    var toAlloc := AllocSize(size);
    chain := new Chain(seq(toAlloc - CHAIN_SIZE, _ => 0), 0, 0, false);
  }

  /** A place that holds a chain pointer: buf->first, or some chain's next. */
  datatype Slot = First | NextOf(chain: Chain)

  ghost predicate Distinct(cs: seq<Chain>) {
    forall i, j | 0 <= i < j < |cs| :: cs[i] != cs[j]
  }

  ghost predicate SegmentNode(cs: seq<Chain>, ws: seq<seq<byte>>, i: int)
    reads cs
  {
    0 <= i < |cs| && i < |ws| ==>
      && cs[i].next == (if i + 1 < |cs| then cs[i + 1] else null)
      && cs[i].Sound()
      && ws[i] == cs[i].Window()
  }

  /** Chunks linked one to the next, ending in null, with their windows. */
  ghost predicate Segment(cs: seq<Chain>, ws: seq<seq<byte>>)
    reads cs
  {
    && |ws| == |cs|
    && Distinct(cs)
    && (forall i {:trigger SegmentNode(cs, ws, i)} :: SegmentNode(cs, ws, i))
  }

  lemma {:induction false} DistinctConcat(a: seq<Chain>, b: seq<Chain>)
    requires Distinct(a) && Distinct(b)
    requires forall c | c in a :: c !in b
    ensures Distinct(a + b)
  {
    var s := a + b;
    forall i, j | 0 <= i < j < |s| ensures s[i] != s[j] {
      if i < |a| && j >= |a| {
        assert s[i] in a && s[j] in b;
      }
    }
  }

  /** Chunk number k is the last one with data, or k is 0 and none has any. */
  ghost predicate LastData(windows: seq<seq<byte>>, k: nat) {
    && (if windows == [] then k == 0 else k < |windows|)
    && (forall i | 0 <= i < k :: windows[i] != [])
    && (0 < k ==> windows[k] != [])
    && (forall i | k < i < |windows| :: windows[i] == [])
  }

  /** How many chunks are left once the empty ones at the end are freed. */
  ghost function DataCount(windows: seq<seq<byte>>, k: nat): nat {
    if k < |windows| && windows[k] != [] then k + 1 else 0
  }

  /** memcpy into a chunk's memory. */
  function Write(mem: seq<byte>, at: nat, data: seq<byte>): (r: seq<byte>)
    requires at + |data| <= |mem|
    ensures |r| == |mem| && r[at..at + |data|] == data
    ensures r[..at] == mem[..at] && r[at + |data|..] == mem[at + |data|..]
  {
    mem[..at] + data + mem[at + |data|..]
  }

  lemma {:induction false} SliceSlice(s: seq<byte>, a: nat, b: nat, lo: nat, hi: nat)
    requires a <= b <= |s| && lo <= hi <= b - a
    ensures s[a..b][lo..hi] == s[a + lo..a + hi]
  {
    var x, y := s[a..b][lo..hi], s[a + lo..a + hi];
    forall i | 0 <= i < hi - lo ensures x[i] == y[i] {
      assert x[i] == s[a..b][lo + i];
    }
  }

  lemma {:induction false} WriteAfter(mem: seq<byte>, lo: nat, hi: nat, data: seq<byte>)
    requires lo <= hi && hi + |data| <= |mem|
    ensures Write(mem, hi, data)[lo..hi + |data|] == mem[lo..hi] + data
  {
  }

  lemma {:induction false} WriteBefore(mem: seq<byte>, lo: nat, hi: nat, data: seq<byte>)
    requires |data| <= lo <= hi <= |mem|
    ensures Write(mem, lo - |data|, data)[lo - |data|..hi] == data + mem[lo..hi]
  {
  }

  lemma {:induction false} LastDataRefill(ws: seq<seq<byte>>, k: nat, w: seq<byte>)
    requires LastData(ws, k) && k < |ws|
    requires 0 < k ==> w != []
    ensures LastData(ws[k := w], k)
  {
  }

  /** Data added to the last chunk with data is added at the end. */
  lemma {:induction false} JoinGrowLast(ws: seq<seq<byte>>, k: nat, data: seq<byte>)
    requires LastData(ws, k) && k < |ws|
    ensures Join(ws[k := ws[k] + data]) == Join(ws) + data
  {
    JoinUpdate(ws, k, ws[k] + data);
    JoinEmpty(ws[k + 1..]);
  }

  /** Data put in front of the first window is put in front of all. */
  lemma {:induction false} JoinGrowFirst(ws: seq<seq<byte>>, data: seq<byte>)
    requires ws != []
    ensures Join(ws[0 := data + ws[0]]) == data + Join(ws)
  {
    JoinUpdate(ws, 0, data + ws[0]);
    assert ws[..0] == [];
  }

  lemma {:induction false} LastDataGrowFirst(ws: seq<seq<byte>>, k: nat, data: seq<byte>)
    requires LastData(ws, k) && ws != []
    ensures LastData(ws[0 := data + ws[0]], k)
  {
  }

  lemma {:induction false} JoinCons(w: seq<byte>, ws: seq<seq<byte>>)
    ensures Join([w] + ws) == w + Join(ws)
  {
    assert ([w] + ws)[1..] == ws;
  }

  /** One more window in front, with the mark moved along. */
  lemma {:induction false} LastDataCons(ws: seq<seq<byte>>, k: nat, w: seq<byte>)
    requires LastData(ws, k) && ws != []
    ensures LastData([w] + ws, k + 1) <==> w != [] && ws[0] != []
  {
    var all := [w] + ws;
    assert all[0] == w && all[1..] == ws;
    if w != [] && ws[0] != [] {
      forall i | 0 <= i < k + 1 ensures all[i] != [] {
        assert i > 0 ==> all[i] == ws[i - 1];
      }
    }
  }

  lemma JoinNil()
    ensures Join([]) == []
  {
  }

  /** With any data at all, the marked chunk has some. */
  lemma {:induction false} MarkedData(ws: seq<seq<byte>>, k: nat)
    requires LastData(ws, k)
    ensures Join(ws) != [] ==> k < |ws| && ws[k] != []
  {
    JoinNil();
    if k < |ws| && ws[k] == [] {
      JoinEmpty(ws);
    }
  }

  lemma {:induction false} JoinToLast(ws: seq<seq<byte>>, k: nat)
    requires LastData(ws, k) && k < |ws|
    ensures Join(ws) == Join(ws[..k]) + ws[k]
  {
    JoinUpdate(ws, k, []);
    JoinEmpty(ws[k + 1..]);
  }

  lemma {:induction false} JoinPrefixGrows(ws: seq<seq<byte>>, i: nat)
    requires i < |ws|
    ensures Join(ws[..i + 1]) == Join(ws[..i]) + ws[i]
  {
    assert ws[..i + 1] == ws[..i] + [ws[i]];
    JoinConcat(ws[..i], [ws[i]]);
    JoinOne(ws[i]);
  }

  /** Dropping i whole chunks and the first `rem` bytes of the next one. */
  lemma {:induction false} JoinDrained(ws: seq<seq<byte>>, k: nat, i: nat, rem: nat)
    requires LastData(ws, k) && i <= k < |ws| && rem < |ws[i]|
    ensures |Join(ws[..i])| + rem < |Join(ws)|
    ensures Join(ws[i..][0 := ws[i][rem..]]) == Join(ws)[|Join(ws[..i])| + rem..]
    ensures LastData(ws[i..][0 := ws[i][rem..]], k - i)
  {
    LastDataDrop(ws, k, i, rem);
    hide LastData;
    var lo, rest := Join(ws[..i]), ws[i..];
    var tail := Join(ws[i + 1..]);
    JoinUpdate(ws, i, []);
    JoinUpdate(rest, 0, ws[i][rem..]);
    assert rest[..0] == [] && rest[1..] == ws[i + 1..];
    EndSlice(lo, ws[i], tail, rem);
  }

  lemma {:induction false} LastDataDrop(ws: seq<seq<byte>>, k: nat, i: nat, rem: nat)
    requires LastData(ws, k) && i <= k < |ws| && rem < |ws[i]|
    ensures LastData(ws[i..][0 := ws[i][rem..]], k - i)
  {
  }

  lemma {:induction false} EndSlice(lo: seq<byte>, w: seq<byte>, tail: seq<byte>, n: nat)
    requires n <= |w|
    ensures (lo + w + tail)[|lo| + n..] == w[n..] + tail
  {
  }

  lemma {:induction false} JoinTaken(ws: seq<seq<byte>>, i: nat, n: nat)
    requires i < |ws| && n <= |ws[i]|
    ensures |Join(ws[..i])| + n <= |Join(ws)|
    ensures Join(ws)[..|Join(ws[..i])| + n] == Join(ws[..i]) + ws[i][..n]
  {
    JoinUpdate(ws, i, []);
    var lo, tail := Join(ws[..i]), Join(ws[i + 1..]);
    assert (lo + ws[i] + tail)[..|lo| + n] == lo + ws[i][..n];
  }

  lemma {:induction false} MiddleSlice(lo: seq<byte>, w: seq<byte>, tail: seq<byte>, a: nat, b: nat)
    requires a <= b <= |w|
    ensures (lo + w + tail)[|lo| + a..|lo| + b] == w[a..b]
  {
    var all := lo + w + tail;
    forall k | 0 <= k < b - a ensures all[|lo| + a..|lo| + b][k] == w[a..b][k] {
      assert all[|lo| + a + k] == w[a + k];
    }
  }

  /** A piece of one window is the same piece of the whole. */
  lemma {:induction false} JoinSlice(ws: seq<seq<byte>>, i: nat, a: nat, b: nat)
    requires i < |ws| && a <= b <= |ws[i]|
    ensures |Join(ws[..i])| + |ws[i]| <= |Join(ws)|
    ensures Join(ws)[|Join(ws[..i])| + a..|Join(ws[..i])| + b] == ws[i][a..b]
  {
    JoinUpdate(ws, i, []);
    var lo, tail := Join(ws[..i]), Join(ws[i + 1..]);
    MiddleSlice(lo, ws[i], tail, a, b);
  }

  /** Cutting off the empty tail and adding one chunk. */
  lemma {:induction false} LastDataExtend(ws: seq<seq<byte>>, k: nat, kept: seq<seq<byte>>, w: seq<byte>)
    requires LastData(ws, k) && ws != []
    requires |kept| == DataCount(ws, k) && kept == ws[..|kept|]
    ensures LastData(kept + [w], if w == [] then k else |kept|)
  {
  }

  class Buffer {
    var first: Chain?
    var last: Chain?
    var lastWithData: Slot
    var totalLen: nat
    var freezeStart: bool
    var freezeEnd: bool
    ghost var chains: seq<Chain>
    ghost var windows: seq<seq<byte>>
    ghost var dataAt: nat

    ghost predicate NodeOk(i: int)
      reads this`chains, this`windows, chains
    {
      SegmentNode(chains, windows, i)
    }

    /** The list itself: its links, its chunks' windows, its head. */
    ghost predicate Spine()
      reads this`first, this`chains, this`windows, chains
    {
      && Segment(chains, windows)
      && first == (if chains == [] then null else chains[0])
    }

    ghost function SlotAt(i: int): Slot
      reads this`chains
    {
      if 0 < i <= |chains| then NextOf(chains[i - 1]) else First
    }

    /** last_with_datap leads to the last chunk with data, or to the first one;
        no empty chunk comes before it and only empty ones after it. */
    ghost predicate DataOk()
      reads this`chains, this`windows, this`lastWithData, this`dataAt
    {
      && |windows| == |chains|
      && lastWithData == SlotAt(dataAt)
      && LastData(windows, dataAt)
    }

    ghost predicate Valid()
      reads this, chains
    {
      && Spine()
      && DataOk()
      && last == (if chains == [] then null else chains[|chains| - 1])
      && totalLen == |Join(windows)|
    }

    /** The bytes in the buffer, in order. */
    ghost function Content(): seq<byte>
      reads this`windows
    {
      Join(windows)
    }

    constructor ()
      ensures Valid() && Content() == [] && chains == [] && !freezeStart && !freezeEnd
    {
      first, last, lastWithData, totalLen := null, null, First, 0;
      freezeStart, freezeEnd := false, false;
      chains, windows, dataAt := [], [], 0;
    }

    /** Reading through a slot. */
    method Get(s: Slot) returns (c: Chain?)
      ensures c == if s.First? then first else s.chain.next
    {
      c := if s.First? then first else s.chain.next;
    }

    lemma Node(i: int)
      requires Spine() && 0 <= i < |chains|
      ensures |windows| == |chains|
      ensures chains[i].next == (if i + 1 < |chains| then chains[i + 1] else null)
      ensures chains[i].Sound() && windows[i] == chains[i].Window() && |windows[i]| == chains[i].off
    {
      assert NodeOk(i);
    }

    lemma SlotHolds(i: int)
      requires Spine() && 0 <= i <= |chains|
      ensures (if SlotAt(i).First? then first else SlotAt(i).chain.next)
              == (if i < |chains| then chains[i] else null)
    {
      assert i > 0 ==> NodeOk(i - 1);
    }

    /* ----- the list, one pointer at a time ----- */

    /** Ends the list at slot number n. */
    method Cut(ghost n: nat, at: Slot)
      requires Spine() && n <= |chains| && at == SlotAt(n)
      modifies this`first, this`chains, this`windows, (set x | x in chains)`next
      ensures Spine()
      ensures chains == old(chains)[..n] && windows == old(windows)[..n]
    {
      assert n > 0 ==> NodeOk(n - 1);
      if at.First? {
        first := null;
      } else {
        at.chain.next := null;
      }
      chains, windows := chains[..n], windows[..n];
      forall i ensures SegmentNode(chains, windows, i) {
        assert old(NodeOk(i));
      }
    }

    /** Hangs linked chunks on the end: one pointer. */
    method Hang(at: Slot, head: Chain, ghost cs: seq<Chain>, ghost ws: seq<seq<byte>>)
      requires Spine() && at == SlotAt(|chains|)
      requires Segment(cs, ws) && cs != [] && head == cs[0]
      requires forall x | x in chains :: x !in cs
      modifies this`first, this`chains, this`windows, (set x | x in chains)`next
      ensures Spine()
      ensures chains == old(chains) + cs && windows == old(windows) + ws
    {
      ghost var n := |chains|;
      DistinctConcat(chains, cs);
      if at.First? {
        first := head;
      } else {
        at.chain.next := head;
      }
      chains, windows := chains + cs, windows + ws;
      forall i ensures SegmentNode(chains, windows, i) {
        assert old(NodeOk(i)) && old(SegmentNode(cs, ws, i - n));
        if n <= i < |chains| {
          assert chains[i] == cs[i - n];
        }
      }
    }

    /** A chunk on its own is a list of one. */
    lemma Single(c: Chain)
      requires c.next == null && c.Sound()
      ensures Segment([c], [c.Window()])
    {
    }

    /** Puts one more chunk in front. */
    method PutFirst(c: Chain)
      requires Spine()
      requires c !in chains && c.Sound()
      modifies this`first, this`chains, this`windows, c`next
      ensures Spine()
      ensures chains == [c] + old(chains) && windows == [c.Window()] + old(windows)
      ensures c.Window() == old(c.Window())
    {
      c.next := first;
      first := c;
      chains, windows := [c] + chains, [c.Window()] + windows;
      forall i ensures SegmentNode(chains, windows, i) {
        assert old(NodeOk(i - 1));
      }
    }

    /** Replaces a chunk's memory and window in place. */
    method Refill(c: Chain, ghost i: nat, mem: seq<byte>, misalign: nat, off: nat)
      requires Spine() && i < |chains| && chains[i] == c
      requires misalign + off <= |mem|
      requires if c.immutable then misalign + off == |mem| && (off == 0 ==> mem == []) else |mem| > 0
      modifies this`windows, c`mem, c`misalign, c`off
      ensures Spine()
      ensures windows == old(windows)[i := mem[misalign..misalign + off]]
      ensures c.mem == mem && c.misalign == misalign && c.off == off
    {
      c.mem, c.misalign, c.off := mem, misalign, off;
      windows := windows[i := mem[misalign..misalign + off]];
      forall j ensures SegmentNode(chains, windows, j) {
        assert old(NodeOk(j));
      }
    }

    /** Lets go of the first n chunks. */
    method DropFront(ghost n: nat, c: Chain?)
      requires Spine() && n <= |chains|
      requires c == if n < |chains| then chains[n] else null
      modifies this`first, this`chains, this`windows
      ensures Spine()
      ensures chains == old(chains)[n..] && windows == old(windows)[n..]
    {
      first := c;
      chains, windows := chains[n..], windows[n..];
      forall i ensures SegmentNode(chains, windows, i) {
        assert old(NodeOk(i + n));
      }
    }

    /* ----- internal operations ----- */

    /** *buf->last_with_datap */
    method DataChunk() returns (c: Chain?)
      requires Valid()
      ensures c == if chains == [] then null else chains[dataAt]
    {
      SlotHolds(dataAt);
      c := Get(lastWithData);
    }

    /** evbuffer_free_trailing_empty_chains: the list is cut before its first
        empty chunk; the caller mends `last`. */
    method FreeTrailingEmpty() returns (at: Slot)
      requires Valid()
      modifies this`first, this`chains, this`windows, (set x | x in chains)`next
      ensures Spine() && at == SlotAt(|chains|)
      ensures chains <= old(chains) && windows == old(windows)[..|chains|]
      ensures Join(windows) == old(Join(windows))
      ensures forall i | 0 <= i < |windows| :: windows[i] != []
      ensures |chains| == DataCount(old(windows), old(dataAt))
    {
      hide Join, Spine, NodeOk, Chain.Sound;
      ghost var n := dataAt;
      at := lastWithData;
      var c := DataChunk();
      while c != null && c.off != 0
        invariant dataAt <= n <= |chains| && n <= dataAt + 1 && at == SlotAt(n)
        invariant c == if n < |chains| then chains[n] else null
        invariant forall i | dataAt <= i < n :: windows[i] != []
        decreases |chains| - n
        modifies {}
      {
        Node(n);
        at := NextOf(c);
        n := n + 1;
        c := c.next;
      }
      if c != null {
        Node(n);
        JoinSplit(windows, n);
        JoinEmpty(windows[n..]);
        Cut(n, at);
      }
    }

    /** The second half of evbuffer_chain_insert: the cut list gets its new end. */
    method Attach(chp: Slot, c: Chain)
      requires Spine() && chp == SlotAt(|chains|)
      requires c !in chains && c.next == null && c.Sound()
      requires lastWithData == SlotAt(dataAt) && dataAt <= |chains|
      requires LastData(windows + [c.Window()], if c.Window() == [] then dataAt else |windows|)
      requires totalLen == |Join(windows)|
      modifies this`first, this`last, this`lastWithData, this`totalLen,
               this`chains, this`windows, this`dataAt, (set x | x in chains)`next
      ensures Valid()
      ensures Content() == old(Content()) + old(c.Window())
      ensures chains == old(chains) + [c] && (c.off == 0 ==> dataAt == old(dataAt))
    {
      ghost var w := c.Window();
      assert |windows| == |chains|;
      Single(c);
      hide Join, Spine, NodeOk, LastData, Segment;
      JoinConcat(windows, [w]);
      JoinOne(w);
      Hang(chp, c, [c], [w]);
      if c.off != 0 {
        lastWithData := chp;
        dataAt := |windows| - 1;
      }
      last := c;
      totalLen := totalLen + c.off;
    }

    /** evbuffer_chain_insert */
    method ChainInsert(c: Chain)
      requires Valid()
      requires c !in chains && c.next == null && c.Sound()
      modifies this`first, this`last, this`lastWithData, this`totalLen,
               this`chains, this`windows, this`dataAt, (set x | x in chains)`next
      ensures Valid()
      ensures Content() == old(Content()) + old(c.Window())
      ensures 1 <= |chains| <= |old(chains)| + 1 && chains == old(chains)[..|chains| - 1] + [c]
      ensures c.off == 0 && old(Content()) != [] ==> dataAt < |chains| - 1
    {
      hide Join, Spine, NodeOk;
      ghost var w, ws, k := c.Window(), windows, dataAt;
      MarkedData(ws, k);
      var atData := DataChunk();
      var chp := First;
      if atData != null {
        chp := FreeTrailingEmpty();
        hide LastData;
        LastDataExtend(ws, k, windows, w);
      }
      Attach(chp, c);
    }

    /* ----- adding ----- */

    /** Rewrites the last chunk with data so that it also holds `data`. */
    method GrowLast(c: Chain, mem: seq<byte>, misalign: nat, data: seq<byte>)
      requires Valid() && chains != [] && c == chains[dataAt]
      requires misalign + c.off + |data| <= |mem| && |mem| > 0 && !c.immutable
      requires c.InBounds() && mem[misalign..misalign + c.off + |data|] == c.Window() + data
      modifies this`windows, this`totalLen, c`mem, c`misalign, c`off
      ensures Valid()
      ensures Content() == old(Content()) + data
    {
      ghost var ws, k := windows, dataAt;
      assert NodeOk(k);
      assert windows[k] == c.Window();
      hide Join, Spine, NodeOk;
      JoinGrowLast(ws, k, data);
      LastDataRefill(ws, k, ws[k] + data);
      Refill(c, k, mem, misalign, c.off + |data|);
      totalLen := totalLen + |data|;
    }

    lemma DataInside()
      requires Valid()
      ensures if chains == [] then dataAt == 0 else dataAt < |chains|
    {
    }

    lemma DataChunkOk()
      requires Valid() && chains != []
      ensures dataAt < |chains| && chains[dataAt].Sound() && chains[dataAt].Window() == windows[dataAt]
    {
      assert NodeOk(dataAt);
    }

    /** The case of evbuffer_add that needs a new chunk: fill what is left of
        the last one, put the rest in the new one. */
    method AddSpill(c: Chain, tmp: Chain, remain: nat, data: seq<byte>)
      requires Valid() && dataAt < |chains| && c == chains[dataAt] && remain <= |data|
      requires c.InBounds() && c.misalign + c.off + remain <= |c.mem|
      requires tmp !in chains && tmp.next == null && tmp.misalign == 0 && tmp.off == 0
      requires |tmp.mem| >= |data| - remain && |tmp.mem| > 0 && !tmp.immutable && (c.immutable ==> remain == 0)
      modifies this`first, this`last, this`lastWithData, this`totalLen, this`chains, this`windows,
               this`dataAt, chains, tmp
      ensures Valid()
      ensures Content() == old(Content()) + data
      ensures forall x | x in chains :: x in old(chains) || x == tmp
    {
      hide Join, Spine, NodeOk, LastData, Valid;
      var head, rest := data[..remain], data[remain..];
      assert head + rest == data;
      tmp.Fill(0, rest);
      if remain != 0 {
        WriteAfter(c.mem, c.misalign, c.misalign + c.off, head);
        GrowLast(c, Write(c.mem, c.misalign + c.off, head), c.misalign, head);
      }
      ChainInsert(tmp);
    }

    /** evbuffer_chain_should_realign */
    static predicate ShouldRealign(c: Chain, datlen: nat)
      reads c
    {
      |c.mem| - c.off >= datlen && c.off < |c.mem| / 2 && c.off <= 2048
    }

    /** Whether a chunk has the space for n more bytes, realigned if need be. */
    static predicate Holds(c: Chain, n: nat)
      reads c
    {
      !c.immutable && (|c.mem| - c.misalign - c.off >= n || ShouldRealign(c, n))
    }

    /** What evbuffer_add asks for when it needs one more chunk. */
    static function ToAlloc(c: Chain, n: nat): nat
      reads c
    {
      var grown := if |c.mem| <= 2048 then |c.mem| * 2 else |c.mem|;
      if n > grown then n else grown
    }

    /** A chunk that cannot hold n more bytes, with no chunk to be had for them. */
    static predicate Short(c: Chain, n: nat)
      reads c
    {
      !Holds(c, n) && ToAlloc(c, n) > ROOM
    }

    /** Uses the space of the last chunk with data, if there is enough. */
    method AddInPlace(c: Chain, data: seq<byte>) returns (done: bool)
      requires Valid() && dataAt < |chains| && c == chains[dataAt] && c.InBounds()
      modifies this`windows, this`totalLen, c`mem, c`misalign, c`off
      ensures Valid()
      ensures done == old(Holds(c, |data|))
      ensures done ==> Content() == old(Content()) + data
      ensures !done ==> windows == old(windows) && totalLen == old(totalLen) && c.InBounds()
                        && c.mem == old(c.mem) && c.misalign == old(c.misalign) && c.off == old(c.off)
    {
      hide Join, Spine, NodeOk, LastData, Valid;
      if !c.immutable {
        if |c.mem| - c.misalign - c.off >= |data| {
          DataChunkOk();
          WriteAfter(c.mem, c.misalign, c.misalign + c.off, data);
          GrowLast(c, Write(c.mem, c.misalign + c.off, data), c.misalign, data);
          return true;
        } else if ShouldRealign(c, |data|) {
          var aligned := Write(c.mem, 0, c.Window());
          WriteAfter(aligned, 0, c.off, data);
          GrowLast(c, Write(aligned, c.off, data), 0, data);
          return true;
        }
      }
      return false;
    }

    /** evbuffer_add past its checks, once there is a chunk to look at. */
    method AddTo(c: Chain, data: seq<byte>) returns (r: int)
      requires Valid() && dataAt < |chains| && c == chains[dataAt] && c.InBounds()
      modifies this`first, this`last, this`lastWithData, this`totalLen, this`chains, this`windows,
               this`dataAt, (set x | x in chains)
      ensures Valid()
      ensures r == if old(Short(c, |data|)) then -1 else 0
      ensures Content() == if r == 0 then old(Content()) + data else old(Content())
      ensures forall x | x in chains :: x in old(chains) || fresh(x)
    {
      hide Join, Spine, NodeOk, LastData, Valid;
      var done := AddInPlace(c, data);
      if done {
        return 0;
      }
      var remain := if c.immutable then 0 else |c.mem| - c.misalign - c.off;
      var tmp := ChainNew(ToAlloc(c, |data|));
      if tmp == null {
        return -1;
      }
      AddSpill(c, tmp, remain, data);
      return 0;
    }

    /** No chunk evbuffer_chain_new grants would hold what evbuffer_add needs. */
    ghost predicate TooMuch(n: nat)
      reads this`chains, this`dataAt, chains
    {
      if chains == [] then n > ROOM else dataAt < |chains| && Short(chains[dataAt], n)
    }

    /** evbuffer_add: all of `data` at the end, or a refusal that changes nothing,
        and exactly when it refuses. */
    method Add(data: seq<byte>) returns (r: int)
      requires Valid()
      modifies this`first, this`last, this`lastWithData, this`totalLen, this`chains, this`windows,
               this`dataAt, (set x | x in chains)
      ensures Valid()
      ensures r == if freezeEnd || |data| > Words.SIZE_MAX - old(totalLen) || old(TooMuch(|data|)) then -1 else 0
      ensures Content() == if r == 0 then old(Content()) + data else old(Content())
      ensures forall x | x in chains :: x in old(chains) || fresh(x)
    {
      hide Join, Spine, NodeOk, LastData;
      if freezeEnd {
        return -1;
      }
      if |data| > Words.SIZE_MAX - totalLen {
        return -1;
      }
      DataInside();
      var c := DataChunk();
      if c == null {
        c := ChainNew(|data|);
        if c == null {
          return -1;
        }
        ChainInsert(c);
      }
      DataChunkOk();
      r := AddTo(c, data);
    }

    /** While no chunk is larger than evbuffer_chain_new makes them, only the data
        itself can be too much. */
    lemma TooMuchOnly(n: nat)
      requires Valid() && n <= ROOM && (forall c | c in chains :: |c.mem| <= ROOM)
      ensures !TooMuch(n)
    {
      if chains != [] {
        assert chains[dataAt] in chains;
      }
    }

    /** evbuffer_add_reference, for a given block of memory. */
    method AddReference(data: seq<byte>) returns (r: int)
      requires Valid()
      modifies this`first, this`last, this`lastWithData, this`totalLen, this`chains, this`windows,
               this`dataAt, (set x | x in chains)
      ensures Valid()
      ensures r == (if freezeEnd then -1 else 0)
      ensures Content() == if freezeEnd then old(Content()) else old(Content()) + data
      ensures !freezeEnd ==> 1 <= |chains| <= |old(chains)| + 1 && last.immutable && last.off == |data|
      ensures forall x | x in chains :: x in old(chains) || fresh(x)
    {
      if freezeEnd {
        return -1;
      }
      var c := new Chain(data, 0, |data|, true);
      assert c.Window() == data;
      ChainInsert(c);
      return 0;
    }

    /* ----- prepending ----- */

    /** Rewrites the first chunk so that it also holds `data` in front. */
    method GrowFirst(mem: seq<byte>, misalign: nat, data: seq<byte>)
      requires Valid() && chains != []
      requires first.InBounds() && misalign + |data| + first.off <= |mem| && |mem| > 0 && !first.immutable
      requires mem[misalign..misalign + |data| + first.off] == data + first.Window()
      modifies this`windows, this`totalLen, first`mem, first`misalign, first`off
      ensures Valid()
      ensures Content() == data + old(Content())
      ensures first.off == |data| + old(first.off)
    {
      ghost var ws, k := windows, dataAt;
      FirstOk();
      hide Spine, NodeOk, Join, LastData;
      JoinGrowFirst(ws, data);
      LastDataGrowFirst(ws, k, data);
      Refill(first, 0, mem, misalign, |data| + first.off);
      totalLen := totalLen + |data|;
    }

    /** The new front chunk of evbuffer_prepend: last_with_datap then leads to
        the last data exactly when neither this chunk nor the old first one is
        empty. */
    method PrependChunk(tmp: Chain)
      requires Valid() && chains != []
      requires tmp !in chains && tmp.Sound()
      modifies this`first, this`chains, this`windows, this`lastWithData, this`dataAt, this`totalLen, tmp`next
      ensures Spine() && (Valid() <==> old(tmp.off > 0 && windows[0] != []))
      ensures totalLen == |Content()|
      ensures Content() == old(tmp.Window()) + old(Content())
      ensures chains == [tmp] + old(chains)
    {
      ghost var w, ws, k := tmp.Window(), windows, dataAt;
      hide Spine, NodeOk, LastData, Join;
      PutFirst(tmp);
      if lastWithData == First {
        lastWithData := NextOf(tmp);
      }
      dataAt := dataAt + 1;
      JoinCons(w, ws);
      LastDataCons(ws, k, w);
      totalLen := totalLen + tmp.off;
    }

    lemma FirstOk()
      requires Valid() && chains != []
      ensures first == chains[0] && first.Sound() && first.Window() == windows[0]
      ensures first.off == |windows[0]|
    {
      assert NodeOk(0);
    }

    /** Treats an empty first chunk as empty at its beginning. */
    method EmptyAtEnd()
      requires Valid() && chains != [] && !first.immutable && first.off == 0
      modifies this`windows, first`mem, first`misalign, first`off
      ensures Valid() && windows == old(windows) && first.mem == old(first.mem)
      ensures first.misalign == |first.mem| && first.off == 0
    {
      FirstOk();
      hide Spine, NodeOk, Join, LastData;
      assert windows[0] == [];
      assert first.mem[|first.mem|..|first.mem|] == [];
      Refill(first, 0, first.mem, |first.mem|, 0);
    }

    /** Puts data right before the first window. */
    method PutBefore(data: seq<byte>)
      requires Valid() && chains != [] && !first.immutable && |data| <= first.misalign
      modifies this`windows, this`totalLen, first`mem, first`misalign, first`off
      ensures Valid() && chains == old(chains)
      ensures Content() == data + old(Content()) && first.off == |data| + old(first.off)
    {
      FirstOk();
      hide Spine, NodeOk, Join, LastData, Valid;
      var room := first.misalign;
      WriteBefore(first.mem, room, room + first.off, data);
      GrowFirst(Write(first.mem, room - |data|, data), room - |data|, data);
    }

    /** How much fits before the first window of a chunk. */
    static function FrontRoom(c: Chain): nat
      reads c
    {
      if c.immutable then 0 else if c.off == 0 then |c.mem| else c.misalign
    }

    /** Uses the room in front of the first chunk for as much of the end of
        `data` as fits; `rest` is what does not. */
    method PrependInPlace(data: seq<byte>) returns (rest: seq<byte>)
      requires Valid() && chains != []
      modifies this`windows, this`totalLen, first`mem, first`misalign, first`off
      ensures Valid() && chains == old(chains)
      ensures |rest| == (if |data| > old(FrontRoom(first)) then |data| - old(FrontRoom(first)) else 0) && rest == data[..|rest|]
      ensures Content() == data[|rest|..] + old(Content())
      ensures if first.immutable then windows == old(windows) else rest != [] ==> windows[0] != []
    {
      FirstOk();
      hide Spine, NodeOk, Join, LastData, Valid;
      rest := data;
      if !first.immutable {
        if first.off == 0 {
          EmptyAtEnd();
        }
        var room := first.misalign;
        var n := if room >= |data| then |data| else room;
        if room >= |data| || room != 0 {
          PutBefore(data[|data| - n..]);
          rest := data[..|data| - n];
        }
        FirstOk();
      }
    }

    /** No chunk evbuffer_chain_new grants would hold what is left to prepend. */
    predicate TooMuchBefore(n: nat)
      reads this`first, first
    {
      n > ROOM + if first == null then 0 else FrontRoom(first)
    }

    /** What evbuffer_prepend puts in place before it finds that out. */
    function PutAnyway(n: nat): nat
      reads this`freezeStart, this`first, this`totalLen, first
    {
      if freezeStart || n > Words.SIZE_MAX - totalLen || first == null then 0 else FrontRoom(first)
    }

    /** A new chunk goes before a read-only one, and one of the two is empty. */
    predicate GapBefore(n: nat)
      reads this`first, first
    {
      first != null && first.immutable && (n == 0 || first.off == 0)
    }

    /** evbuffer_prepend: all of `data` in front; or a refusal, exactly when, and
        with exactly how much of the end of `data` left in place. The list is as
        it should be afterwards, but for one case. */
    method Prepend(data: seq<byte>) returns (r: int)
      requires Valid()
      modifies this`first, this`last, this`lastWithData, this`totalLen, this`chains, this`windows,
               this`dataAt, (set x | x in chains)
      ensures Spine() && totalLen == |Content()| && (Valid() <==> !(r == 0 && old(GapBefore(|data|))))
      ensures r == if freezeStart || |data| > Words.SIZE_MAX - old(totalLen) || old(TooMuchBefore(|data|)) then -1 else 0
      ensures r == 0 ==> Content() == data + old(Content())
      ensures r == -1 ==> old(PutAnyway(|data|)) <= |data|
                          && Content() == data[|data| - old(PutAnyway(|data|))..] + old(Content())
      ensures forall x | x in chains :: x in old(chains) || fresh(x)
    {
      assert first == if chains == [] then null else chains[0];
      hide Spine, NodeOk, Join, LastData;
      if freezeStart {
        return -1;
      }
      if |data| > Words.SIZE_MAX - totalLen {
        return -1;
      }
      if first == null {
        var c := ChainNew(|data|);
        if c == null {
          return -1;
        }
        ChainInsert(c);
      }
      r := PrependTo(data);
    }

    /** evbuffer_prepend past its checks, once there is a first chunk. */
    method PrependTo(data: seq<byte>) returns (r: int)
      requires Valid() && chains != []
      modifies this`first, this`lastWithData, this`totalLen, this`chains, this`windows,
               this`dataAt, first
      ensures Spine() && totalLen == |Content()| && (Valid() <==> !(r == 0 && old(GapBefore(|data|))))
      ensures r == if old(TooMuchBefore(|data|)) then -1 else 0
      ensures r == 0 ==> Content() == data + old(Content())
      ensures r == -1 ==> old(FrontRoom(first)) <= |data|
                          && Content() == data[|data| - old(FrontRoom(first))..] + old(Content())
      ensures forall x | x in chains :: x in old(chains) || fresh(x)
    {
      FirstOk();
      hide Spine, NodeOk, Join, LastData, Valid;
      var writable := !first.immutable;
      var rest := PrependInPlace(data);
      FirstOk();
      if writable && rest == [] {
        return 0;
      }
      assert rest + data[|rest|..] == data;
      r := NewFirst(rest);
    }

    /** evbuffer_prepend's last resort: one more chunk, filled from its end. */
    method NewFirst(data: seq<byte>) returns (r: int)
      requires Valid() && chains != []
      modifies this`first, this`lastWithData, this`totalLen, this`chains, this`windows, this`dataAt
      ensures r == if |data| > ROOM then -1 else 0
      ensures Spine() && totalLen == |Content()| && (Valid() <==> r == -1 || (data != [] && old(windows[0]) != []))
      ensures Content() == if r == 0 then data + old(Content()) else old(Content())
      ensures forall x | x in chains :: x in old(chains) || fresh(x)
    {
      hide Spine, NodeOk, Join, LastData;
      var tmp := ChainNew(|data|);
      if tmp == null {
        return -1;
      }
      tmp.Fill(|tmp.mem| - |data|, data);
      PrependChunk(tmp);
      return 0;
    }

    /* ----- draining ----- */

    /** ZERO_CHAIN, with every chunk let go. */
    method ZeroChain()
      modifies this`first, this`last, this`lastWithData, this`totalLen, this`chains, this`windows, this`dataAt
      ensures Valid() && Content() == [] && chains == []
    {
      first, last, lastWithData, totalLen := null, null, First, 0;
      chains, windows, dataAt := [], [], 0;
    }

    /** The loop of evbuffer_drain and of evbuffer_remove_buffer: past every
        chunk that is wholly taken, with last_with_datap pulled along when its
        chunk becomes the first. (The first of the two tests is drain's; with
        data left it never fires.) */
    method SkipChunks(len: nat) returns (c: Chain, remaining: nat, previous: Chain?, ghost i: nat)
      requires Valid() && len < totalLen
      modifies this`lastWithData
      ensures i <= dataAt < |chains| && c == chains[i]
      ensures previous == if i == 0 then null else chains[i - 1]
      ensures |Join(windows[..i])| + remaining == len && remaining < |windows[i]|
      ensures lastWithData == if i < dataAt then SlotAt(dataAt) else First
    {
      JoinNil();
      assert windows != [] && first == chains[0] && Distinct(chains);
      hide Join, Spine, NodeOk, Chain.Sound, LastData;
      SlotHolds(dataAt);
      JoinToLast(windows, dataAt);
      i, remaining, previous := 0, len, null;
      assert windows[..0] == [];
      c := first;
      Node(0);
      while remaining >= c.off
        invariant Spine() && i <= dataAt < |chains| && c == chains[i] && c.off == |windows[i]|
        invariant previous == if i == 0 then null else chains[i - 1]
        invariant |Join(windows[..i])| + remaining == len
        invariant lastWithData == if i < dataAt then SlotAt(dataAt) else First
        decreases |chains| - i
        modifies this`lastWithData
      {
        Node(i);
        JoinPrefixGrows(windows, i);
        remaining := remaining - c.off;
        var d := Get(lastWithData);
        lastWithData := if c == d || lastWithData == NextOf(c) then First else lastWithData;
        previous := c;
        c := c.next;
        i := i + 1;
        Node(i);
      }
    }

    /** Lets go of i chunks and moves the next one's window forward. */
    method DropTo(ghost i: nat, c: Chain, n: nat)
      requires Spine() && i < |chains| && c == chains[i] && n < |windows[i]|
      modifies this`first, this`chains, this`windows, c`mem, c`misalign, c`off
      ensures Spine()
      ensures chains == old(chains)[i..] && windows == old(windows)[i..][0 := old(windows)[i][n..]]
    {
      assert NodeOk(i);
      hide Spine, NodeOk;
      assert c.mem[c.misalign + n..c.misalign + c.off] == windows[i][n..];
      DropFront(i, c);
      Refill(c, 0, c.mem, c.misalign + n, c.off - n);
    }

    /** evbuffer_drain when some data is left. */
    method DrainSome(len: nat)
      requires Valid() && len < totalLen
      modifies this`first, this`lastWithData, this`totalLen, this`chains, this`windows, this`dataAt, chains
      ensures Valid()
      ensures Content() == old(Content())[len..]
      ensures |chains| <= |old(chains)| && chains == old(chains)[|old(chains)| - |chains|..]
    {
      hide Join, Spine, NodeOk, LastData;
      ghost var ws, k := windows, dataAt;
      var c, remaining, _, i := SkipChunks(len);
      JoinDrained(ws, k, i, remaining);
      totalLen := totalLen - len;
      DropTo(i, c, remaining);
      dataAt := k - i;
    }

    /** evbuffer_drain */
    method Drain(len: nat) returns (r: int)
      requires Valid()
      modifies this`first, this`last, this`lastWithData, this`totalLen, this`chains, this`windows,
               this`dataAt, (set x | x in chains)
      ensures Valid()
      ensures r == (if old(Content()) != [] && freezeStart then -1 else 0)
      ensures r == 0 ==> Content() == old(Content())[if len < old(totalLen) then len else old(totalLen)..]
      ensures r == -1 ==> Content() == old(Content())
      ensures forall x | x in chains :: x in old(chains)
    {
      if totalLen == 0 {
        return 0;
      }
      if freezeStart {
        return -1;
      }
      if len >= totalLen {
        ZeroChain();
      } else {
        DrainSome(len);
      }
      return 0;
    }

    /* ----- reading ----- */

    /** A position in the buffer: byte `at` of chunk number i, or the end. */
    ghost predicate PlaceOk(c: Chain?, i: int, at: nat)
      reads this`chains, this`windows
    {
      && |windows| == |chains|
      && 0 <= i <= |chains|
      && c == (if i < |chains| then chains[i] else null)
      && (if i < |chains| then at <= |windows[i]| else at == 0)
    }

    ghost function PlacePos(i: int, at: nat): nat
      reads this`windows
      requires 0 <= i <= |windows|
    {
      |Join(windows[..i])| + at
    }

    lemma PlaceInside(c: Chain?, i: int, at: nat)
      requires Valid() && PlaceOk(c, i, at)
      ensures PlacePos(i, at) <= totalLen
      ensures c == null ==> PlacePos(i, at) == totalLen
      ensures c != null ==> c.Sound() && c.Window() == windows[i] && |windows[i]| == c.off
                            && PlaceOk(c.next, i + 1, 0)
                            && PlacePos(i + 1, 0) == PlacePos(i, at) + (c.off - at)
    {
      if c == null {
        assert windows[..i] == windows;
      } else {
        assert NodeOk(i);
        JoinSlice(windows, i, 0, at);
        JoinPrefixGrows(windows, i);
      }
    }

    lemma PlaceSlice(c: Chain, i: int, at: nat, n: nat)
      requires Valid() && PlaceOk(c, i, at) && at + n <= |windows[i]|
      ensures PlacePos(i, at) + n <= |Content()|
      ensures Content()[PlacePos(i, at)..PlacePos(i, at) + n] == windows[i][at..at + n]
    {
      JoinSlice(windows, i, at, at + n);
    }

    /** memcpy out of one chunk. */
    method Piece(c: Chain, ghost i: int, at: nat, n: nat) returns (piece: seq<byte>)
      requires Valid() && PlaceOk(c, i, at) && c.InBounds() && at + n <= c.off
      ensures |piece| == n && PlacePos(i, at) + n <= |Content()|
      ensures piece == Content()[PlacePos(i, at)..PlacePos(i, at) + n]
    {
      PlaceInside(c, i, at);
      PlaceSlice(c, i, at, n);
      piece := c.mem[c.misalign + at..c.misalign + at + n];
      SliceSlice(c.mem, c.misalign, c.misalign + c.off, at, at + n);
    }

    static lemma {:induction false} SlicesJoin(s: seq<byte>, a: nat, b: nat, c: nat)
      requires a <= b <= c <= |s|
      ensures s[a..b] + s[b..c] == s[a..c]
    {
    }

    /** These are the bytes from `start` on. */
    ghost predicate Copied(start: nat, out: seq<byte>)
      reads this`windows
    {
      start + |out| <= |Content()| && out == Content()[start..start + |out|]
    }

    /** What has been copied, and a piece more. */
    method Extend(c: Chain, ghost i: int, at: nat, n: nat, ghost start: nat, out: seq<byte>) returns (more: seq<byte>)
      requires Valid() && PlaceOk(c, i, at) && c.InBounds() && at + n <= c.off
      requires PlacePos(i, at) == start + |out| && Copied(start, out)
      ensures |more| == |out| + n && Copied(start, more)
    {
      hide Join, Spine, NodeOk, LastData, PlacePos, Valid;
      var piece := Piece(c, i, at, n);
      SlicesJoin(Content(), start, start + |out|, start + |out| + n);
      more := out + piece;
    }

    /** The loop of evbuffer_copyout_from. */
    method CopyFrom(c0: Chain?, ghost i0: int, at0: nat, n: nat) returns (out: seq<byte>)
      requires Valid() && PlaceOk(c0, i0, at0)
      requires PlacePos(i0, at0) + n <= totalLen
      ensures |out| == n && Copied(PlacePos(i0, at0), out)
    {
      ghost var start := PlacePos(i0, at0);
      out := [];
      assert Copied(start, out);
      hide Join, Spine, NodeOk, LastData, PlacePos, Valid, Copied;
      var c := c0;
      var at: nat := at0;
      var left: nat := n;
      ghost var i := i0;
      PlaceInside(c, i, at);
      while left != 0 && left >= c.off - at
        invariant left + |out| == n && Copied(start, out)
        invariant PlaceOk(c, i, at) && PlacePos(i, at) == start + |out|
        invariant left != 0 ==> c != null && c.InBounds() && at <= c.off
        decreases |chains| - i
        modifies {}
      {
        PlaceInside(c, i, at);
        var piece := c.off - at;
        out := Extend(c, i, at, piece, start, out);
        left := left - piece;
        c, at, i := c.next, 0, i + 1;
        PlaceInside(c, i, at);
      }
      if left != 0 {
        out := Extend(c, i, at, left, start, out);
      }
    }

    /** evbuffer_copyout, and evbuffer_copyout_from with no position: -1, or the
        number of bytes copied. */
    method CopyOut(datlen: nat) returns (n: int, out: seq<byte>)
      requires Valid()
      ensures var wanted := if datlen > totalLen then totalLen else datlen;
              if wanted != 0 && freezeStart then n == -1 && out == []
              else n == wanted && out == Content()[..wanted]
    {
      hide Join, LastData;
      var wanted := if datlen > totalLen then totalLen else datlen;
      if wanted == 0 {
        return 0, [];
      }
      if freezeStart {
        return -1, [];
      }
      JoinNil();
      assert windows[..0] == [];
      out := CopyFrom(first, 0, 0, wanted);
      n := wanted;
    }

    /** evbuffer_remove. The number of bytes comes back as an int. */
    method Remove(datlen: nat) returns (n: int, out: seq<byte>)
      requires Valid()
      modifies this`first, this`last, this`lastWithData, this`totalLen, this`chains, this`windows,
               this`dataAt, (set x | x in chains)
      ensures Valid()
      ensures out + Content() == old(Content())
      ensures if freezeStart && datlen != 0 && old(Content()) != [] then n == -1 && out == []
              else |out| == (if datlen > old(totalLen) then old(totalLen) else datlen) && n == Words.AsInt(|out|)
      ensures forall x | x in chains :: x in old(chains)
    {
      hide Join, Spine, NodeOk, LastData, Words.AsInt;
      var copied;
      copied, out := CopyOut(datlen);
      if copied > 0 {
        var r := Drain(copied);
      }
      n := if copied < 0 then copied else Words.AsInt(copied);
    }

    /** What one look at chunk number k tells. */
    lemma NextChunk(k: int)
      requires Spine() && 0 <= k < |chains|
      ensures |windows| == |chains|
      ensures chains[k].next == if k + 1 < |chains| then chains[k + 1] else null
      ensures k + 1 < |chains| ==> chains[k + 1].off == |windows[k + 1]|
    {
      hide Spine, NodeOk, Segment, Chain.Sound;
      Node(k);
      if k + 1 < |chains| {
        Node(k + 1);
      }
    }

    /** advance_last_with_data: on to the last of a run of chunks with data. */
    method AdvanceLastWithData()
      requires Spine() && lastWithData == SlotAt(dataAt) && dataAt < |chains|
      modifies this`lastWithData, this`dataAt
      ensures lastWithData == SlotAt(dataAt) && old(dataAt) <= dataAt < |chains|
      ensures forall i | old(dataAt) < i <= dataAt :: windows[i] != []
      ensures dataAt + 1 < |chains| ==> windows[dataAt + 1] == []
    {
      hide Spine, NodeOk, Chain.Sound, Segment;
      SlotHolds(dataAt);
      var c := Get(lastWithData);
      NextChunk(dataAt);
      while c.next != null && c.next.off != 0
        invariant lastWithData == SlotAt(dataAt) && old(dataAt) <= dataAt < |chains| == |windows|
        invariant c == chains[dataAt]
        invariant forall i | old(dataAt) < i <= dataAt :: windows[i] != []
        decreases |chains| - dataAt
        modifies this`lastWithData, this`dataAt
      {
        NextChunk(dataAt);
        lastWithData := NextOf(c);
        c := c.next;
        dataAt := dataAt + 1;
      }
      NextChunk(dataAt);
    }
  }
}
