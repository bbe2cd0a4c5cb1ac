/** Sequences of public calls after which an evbuffer has an empty chunk in front
    of its last data, and one that loses bytes. */
module EvBufferCases {
  import Bytes
  import opened EvBuffer
  import Words
  import EvBufferExpand
  import EvBufferMove

  /** A reference, and room made behind it. */
  method RoomBehind(data: seq<Bytes.byte>) returns (b: Buffer)
    requires data != []
    ensures fresh(b) && b.Valid() && b.Content() == data && !b.freezeStart && b.dataAt < |b.chains| - 1
    ensures forall x | x in b.chains :: fresh(x)
  {
    hide Buffer.Valid, EvBufferExpand.HasSpaces, EvBufferExpand.Sum, EvBufferExpand.Used;
    b := new Buffer();
    var added := b.AddReference(data);
    var expanded, _, _ := EvBufferExpand.ExpandFast(b, 1, 2);
  }

  /** A buffer of its own for these bytes. */
  method Plain(data: seq<Bytes.byte>) returns (b: Buffer)
    requires |data| <= ROOM
    ensures fresh(b) && b.Valid() && b.Content() == data && !b.freezeStart
    ensures forall x | x in b.chains :: fresh(x)
  {
    b := new Buffer();
    hide Buffer.Valid, Buffer.TooMuch;
    SmallFits(b, |data|);
    var added := b.Add(data);
  }

  /** Such a buffer put in front of another one. */
  method PrependBufferGap(one: seq<Bytes.byte>, two: seq<Bytes.byte>) returns (b: Buffer)
    requires one != [] && two != [] && |two| <= ROOM
    ensures fresh(b) && b.Content() == one + two && !b.Valid()
  {
    hide Buffer.Valid, EvBufferMove.Linked;
    var src := RoomBehind(one);
    b := Plain(two);
    var moved := EvBufferMove.PrependBuffer(b, src);
  }

  lemma SmallFits(b: Buffer, n: nat)
    requires b.chains == [] && n <= ROOM
    ensures !b.TooMuch(n)
  {
  }

  /** Nothing is put in front of a read-only chunk. */
  method PrependNothingGap(data: seq<Bytes.byte>) returns (b: Buffer)
    requires |data| <= Words.SIZE_MAX
    ensures fresh(b) && b.Content() == data && !b.Valid()
  {
    hide Buffer.Valid, Buffer.TooMuchBefore, Buffer.PutAnyway;
    b := new Buffer();
    var added := b.AddReference(data);
    LoneReference(b, data);
    var prepended := b.Prepend([]);
  }

  /** A buffer of one reference. */
  lemma LoneReference(b: Buffer, data: seq<Bytes.byte>)
    requires b.Valid() && |b.chains| == 1 && b.last != null && b.last.immutable && b.Content() == data
    ensures b.totalLen == |data| && b.GapBefore(0) && !b.TooMuchBefore(0)
  {
    assert b.NodeOk(0);
  }

  /** evbuffer_remove_buffer when the copy is refused: the bytes leave one buffer
      and do not arrive in the other. */
  method RemoveBufferLoses(data: seq<Bytes.byte>, n: nat) returns (src: Buffer, dst: Buffer)
    requires ROOM < n < |data|
    ensures src.Valid() && dst.Valid() && src.Content() == data[n..] && dst.Content() == []
  {
    hide Buffer.Valid, EvBufferMove.Arriving;
    src := new Buffer();
    var added := src.AddReference(data);
    dst := new Buffer();
    NoneArrive(src, dst, n);
    var moved := EvBufferMove.RemoveBuffer(src, dst, n);
  }

  lemma NoneArrive(src: Buffer, dst: Buffer, n: nat)
    requires src.Valid() && |src.chains| == 1 && dst.Valid() && dst.chains == [] && ROOM < n < |src.Content()|
    ensures src.totalLen == |src.Content()| && EvBufferMove.Arriving(src, dst, n) == 0
  {
    Bytes.JoinOne(src.windows[0]);
    assert src.windows == [src.windows[0]] && src.windows[..0] == [];
    JoinNil();
  }
}
