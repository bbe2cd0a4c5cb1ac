/** When bytes of a packet encode a list of labels: the representation that
    dnsname_to_labels must keep and name_parse must understand. */
module DnsEncodes {
  import opened Bytes
  import opened DnsNames

  /** From pos, the packet spells the labels using only the positions in own,
      pointers leading strictly back and at most h of them being followed. */
  ghost predicate Encodes(p: seq<byte>, own: set<nat>, pos: nat, labels: seq<seq<byte>>, h: nat)
    decreases |labels|, pos
  {
    && pos < |p| && pos in own
    && if p[pos] == 0 then labels == []
       else if p[pos] >= 64 then
         && p[pos] >= 192 && pos + 1 < |p| && pos + 1 in own && h > 0
         && Target(p[pos], p[pos + 1]) < pos
         && Encodes(p, own, Target(p[pos], p[pos + 1]), labels, h - 1)
       else
         && labels != [] && LabelAt(p, own, pos, labels[0])
         && Encodes(p, own, pos + 1 + |labels[0]|, labels[1..], h)
  }

  ghost predicate LabelAt(p: seq<byte>, own: set<nat>, pos: nat, lab: seq<byte>) {
    && pos + 1 + |lab| <= |p| && p[pos] as nat == |lab|
    && p[pos + 1..pos + 1 + |lab|] == lab
    && forall k | pos < k < pos + 1 + |lab| :: k in own
  }

  /** The index after the name that starts at pos. */
  function EndOf(p: seq<byte>, pos: nat): nat
    decreases if pos <= |p| then |p| - pos else 0
  {
    if pos >= |p| then pos
    else if p[pos] == 0 then pos + 1
    else if p[pos] >= 64 then pos + 2
    else EndOf(p, pos + 1 + p[pos] as nat)
  }

  /** q is at least as long as p and agrees with it on the positions in own. */
  ghost predicate Agrees(p: seq<byte>, q: seq<byte>, own: set<nat>) {
    |p| <= |q| && forall k | k in own && k < |p| :: p[k] == q[k]
  }

  lemma {:induction false} LabelKept(p: seq<byte>, own: set<nat>, pos: nat, lab: seq<byte>, q: seq<byte>, wide: set<nat>)
    requires pos in own && LabelAt(p, own, pos, lab) && Agrees(p, q, own) && own <= wide
    ensures LabelAt(q, wide, pos, lab)
  {
    assert p[pos] == q[pos];
    forall i | 0 <= i < |lab|
      ensures q[pos + 1..pos + 1 + |lab|][i] == lab[i]
    {
      assert pos + 1 + i in own && lab[i] == p[pos + 1..pos + 1 + |lab|][i];
    }
    assert q[pos + 1..pos + 1 + |lab|] == lab;
  }

  /** Growing the packet, writing outside own and allowing more pointers leave
      every encoded name as it was. */
  lemma {:induction false} EncodesKept(p: seq<byte>, own: set<nat>, pos: nat, labels: seq<seq<byte>>, h: nat,
                                       q: seq<byte>, wide: set<nat>, g: nat)
    requires Encodes(p, own, pos, labels, h) && Agrees(p, q, own) && own <= wide && h <= g
    ensures Encodes(q, wide, pos, labels, g) && EndOf(q, pos) == EndOf(p, pos)
    decreases |labels|, pos
  {
    hide LabelAt;
    assert p[pos] == q[pos];
    if p[pos] >= 64 {
      assert p[pos + 1] == q[pos + 1];
      EncodesKept(p, own, Target(p[pos], p[pos + 1]), labels, h - 1, q, wide, g - 1);
    } else if p[pos] != 0 {
      LabelKept(p, own, pos, labels[0], q, wide);
      EncodesKept(p, own, pos + 1 + |labels[0]|, labels[1..], h, q, wide, g);
      LabelRead(p, own, pos, labels[0]);
    }
  }

  /** name_parse reads exactly the encoded labels and stops where they end. */
  lemma {:induction false} EncodesParse(p: seq<byte>, own: set<nat>, pos: nat, labels: seq<seq<byte>>, h: nat,
                                        out: seq<byte>, nameEnd: int, hops: nat, outLen: nat)
    requires Encodes(p, own, pos, labels, h) && hops + h <= |p|
    requires |Spell(out, labels)| < outLen
    ensures ParseFrom(p, pos, out, nameEnd, hops, outLen) ==
            Parsed(Spell(out, labels), if nameEnd < 0 then EndOf(p, pos) else nameEnd)
    decreases |labels|, pos
  {
    hide LabelAt;
    if p[pos] == 0 {
    } else if p[pos] >= 64 {
      EncodesParse(p, own, Target(p[pos], p[pos + 1]), labels, h - 1, out,
                   if nameEnd < 0 then pos + 2 else nameEnd, hops + 1, outLen);
    } else {
      SpellGrows(Led(out) + labels[0], labels[1..]);
      LabelRead(p, own, pos, labels[0]);
      EncodesParse(p, own, pos + 1 + |labels[0]|, labels[1..], h, Led(out) + labels[0], nameEnd, hops, outLen);
    }
  }

  lemma {:induction false} LabelRead(p: seq<byte>, own: set<nat>, pos: nat, lab: seq<byte>)
    requires LabelAt(p, own, pos, lab)
    ensures pos + 1 + |lab| <= |p| && p[pos] as nat == |lab| && p[pos + 1..pos + 1 + |lab|] == lab
  {
  }
}
