/** DNS names on the wire (sections 2.3.4, 3.1 and 4.1.4 of RFC 1035): the
    parser, and what it means for bytes of a packet to encode a name. */
module DnsNames {
  import opened Bytes

  const DOT: byte := 46
  const MAX_LABEL: nat := 63
  const MAX_NAME: nat := 255

  datatype ParseResult = Bad | Parsed(name: seq<byte>, next: nat)

  /* ----- name_parse ----- */

  /** What is put out, ready for one more label. */
  function Led(out: seq<byte>): seq<byte> {
    if out == [] then out else out + [DOT]
  }

  /** Where a pointer leads. */
  function Target(high: byte, low: byte): nat {
    high as nat % 64 * 256 + low as nat
  }

  /** The rest of name_parse from index j, with what it has put out so far, the
      index after the first pointer (or -1), and the pointers followed. */
  function ParseFrom(p: seq<byte>, j: nat, out: seq<byte>, nameEnd: int, hops: nat, outLen: nat): ParseResult
    requires hops <= |p|
    decreases |p| - hops, if j <= |p| then |p| - j else 0
  {
    if j >= |p| then Bad
    else
      var len := p[j] as nat;
      if len == 0 then
        if |out| >= outLen then Bad else Parsed(out, if nameEnd < 0 then j + 1 else nameEnd)
      else if len >= 64 then
        if j + 1 >= |p| then Bad
        else
          var target := Target(p[j], p[j + 1]);
          if target >= |p| || hops + 1 > |p| then Bad
          else ParseFrom(p, target, out, if nameEnd < 0 then j + 2 else nameEnd, hops + 1, outLen)
      else if out != [] && |out| + 1 >= outLen then Bad
      else
        var out1 := Led(out);
        if |out1| + len >= outLen || j + 1 + len > |p| then Bad
        else ParseFrom(p, j + 1 + len, out1 + p[j + 1..j + 1 + len], nameEnd, hops, outLen)
  }

  lemma AtEnd(p: seq<byte>, j: nat, out: seq<byte>, nameEnd: int, hops: nat, outLen: nat)
    requires hops <= |p|
    ensures j >= |p| ==> ParseFrom(p, j, out, nameEnd, hops, outLen) == Bad
    ensures j < |p| && p[j] >= 64 && j + 1 >= |p| ==> ParseFrom(p, j, out, nameEnd, hops, outLen) == Bad
    ensures j < |p| && p[j] == 0 ==>
              ParseFrom(p, j, out, nameEnd, hops, outLen) ==
                if |out| >= outLen then Bad else Parsed(out, if nameEnd < 0 then j + 1 else nameEnd)
  {
  }

  lemma AtPointer(p: seq<byte>, j: nat, out: seq<byte>, nameEnd: int, hops: nat, outLen: nat)
    requires hops <= |p| && j + 1 < |p| && p[j] >= 64
    ensures var t := Target(p[j], p[j + 1]);
            ParseFrom(p, j, out, nameEnd, hops, outLen) ==
              if t >= |p| || hops + 1 > |p| then Bad
              else ParseFrom(p, t, out, if nameEnd < 0 then j + 2 else nameEnd, hops + 1, outLen)
  {
    hide Target;
  }

  lemma AtLabel(p: seq<byte>, j: nat, out: seq<byte>, nameEnd: int, hops: nat, outLen: nat)
    requires hops <= |p| && j < |p| && 0 < p[j] < 64
    ensures var len := p[j] as nat;
            ParseFrom(p, j, out, nameEnd, hops, outLen) ==
              if out != [] && |out| + 1 >= outLen then Bad
              else if |Led(out)| + len >= outLen || j + 1 + len > |p| then Bad
              else ParseFrom(p, j + 1 + len, Led(out) + p[j + 1..j + 1 + len], nameEnd, hops, outLen)
  {
  }

  /** name_parse: for every packet, whatever its pointers say, the loop ends. */
  method NameParse(p: seq<byte>, idx: nat, outLen: nat) returns (r: ParseResult)
    ensures r == ParseFrom(p, idx, [], -1, 0, outLen)
    ensures r.Parsed? ==> |r.name| < outLen && r.next <= |p|
  {
    hide ParseFrom, Target;
    var nameEnd, j, hops := -1, idx, 0;
    var out: seq<byte> := [];
    while true
      invariant 0 <= hops <= |p| && 0 <= j && nameEnd <= |p|
      invariant ParseFrom(p, j, out, nameEnd, hops, outLen) == ParseFrom(p, idx, [], -1, 0, outLen)
      decreases |p| - hops, |p| - j
    {
      AtEnd(p, j, out, nameEnd, hops, outLen);
      if j >= |p| {
        return Bad;
      }
      var labelLen := p[j] as nat;
      j := j + 1;
      if labelLen == 0 {
        break;
      }
      if labelLen >= 64 {
        if j >= |p| {
          return Bad;
        }
        AtPointer(p, j - 1, out, nameEnd, hops, outLen);
        var target := Target(p[j - 1], p[j]);
        j := j + 1;
        if nameEnd < 0 {
          nameEnd := j;
        }
        j := target;
        if j >= |p| {
          return Bad;
        }
        hops := hops + 1;
        if hops > |p| {
          return Bad;
        }
        continue;
      }
      AtLabel(p, j - 1, out, nameEnd, hops, outLen);
      if out != [] {
        if |out| + 1 >= outLen {
          return Bad;
        }
        out := out + [DOT];
      }
      if |out| + labelLen >= outLen || j + labelLen > |p| {
        return Bad;
      }
      out := out + p[j..j + labelLen];
      j := j + labelLen;
    }
    if |out| >= outLen {
      return Bad;
    }
    r := Parsed(out, if nameEnd < 0 then j else nameEnd);
  }

  /* ----- names and their labels ----- */

  /** strchr(name, '.') */
  function DotAt(name: seq<byte>): (d: nat)
    ensures d <= |name| && DOT !in name[..d]
    ensures d < |name| ==> name[d] == DOT
  {
    if name == [] || name[0] == DOT then 0
    else
      assert name[..1 + DotAt(name[1..])] == [name[0]] + name[1..][..DotAt(name[1..])];
      1 + DotAt(name[1..])
  }

  /** A C string whose labels have 1 to 63 bytes; one dot may end it. */
  predicate WellFormed(name: seq<byte>)
    decreases |name|
  {
    var d := DotAt(name);
    if d == |name| then d <= MAX_LABEL else 1 <= d <= MAX_LABEL && WellFormed(name[d + 1..])
  }

  function Labels(name: seq<byte>): seq<seq<byte>>
    decreases |name|
  {
    var d := DotAt(name);
    if d == |name| then (if name == [] then [] else [name]) else [name[..d]] + Labels(name[d + 1..])
  }

  /** The name without a dot at its end. */
  function Canonical(name: seq<byte>): seq<byte> {
    if name != [] && name[|name| - 1] == DOT then name[..|name| - 1] else name
  }

  /** What the parser puts out for the labels, after `out`. */
  function Spell(out: seq<byte>, labels: seq<seq<byte>>): seq<byte>
    decreases |labels|
  {
    if labels == [] then out
    else Spell(Led(out) + labels[0], labels[1..])
  }

  lemma {:induction false} SpellGrows(out: seq<byte>, labels: seq<seq<byte>>)
    ensures |out| <= |Spell(out, labels)| && out == Spell(out, labels)[..|out|]
    decreases |labels|
  {
    if labels != [] {
      SpellGrows(Led(out) + labels[0], labels[1..]);
    }
  }

  lemma {:induction false} NameSplits(name: seq<byte>)
    requires DotAt(name) < |name|
    ensures var d := DotAt(name); name == name[..d] + [DOT] + name[d + 1..]
  {
    hide Labels, WellFormed, Canonical, Spell;
  }

  lemma {:induction false} CanonicalOfParts(head: seq<byte>, rest: seq<byte>)
    requires rest == [] || rest[0] != DOT
    ensures Canonical(head + [DOT] + rest) == if rest == [] then head else head + [DOT] + Canonical(rest)
  {
    hide DotAt, Labels, WellFormed, Spell;
    var whole := head + [DOT] + rest;
    if rest == [] {
      assert whole[..|whole| - 1] == head;
    } else {
      assert whole[|whole| - 1] == rest[|rest| - 1];
      assert whole[..|whole| - 1] == head + [DOT] + rest[..|rest| - 1];
    }
  }

  lemma {:induction false} WellFormedStart(name: seq<byte>)
    requires WellFormed(name) && name != []
    ensures name[0] != DOT && Canonical(name) != []
  {
    hide Labels, Spell;
  }

  lemma {:induction false} CanonicalNoDot(name: seq<byte>)
    requires DotAt(name) == |name|
    ensures Canonical(name) == name
  {
    hide Labels, Spell, WellFormed;
    assert name[..|name|] == name;
  }

  lemma {:induction false} SpellLast(out: seq<byte>, name: seq<byte>)
    requires DotAt(name) == |name|
    ensures Spell(out, Labels(name)) == if name == [] then out else Led(out) + Canonical(name)
  {
    hide Canonical, WellFormed, DotAt;
    CanonicalNoDot(name);
    if name != [] {
      assert Labels(name)[1..] == [];
    }
  }

  lemma {:induction false} SpellJoins(out: seq<byte>, head: seq<byte>, rest: seq<byte>, tail: seq<byte>)
    requires rest == [] || (rest[0] != DOT && Canonical(rest) == tail)
    ensures var first := Led(out) + head;
            (if rest == [] then first else first + [DOT] + tail) == Led(out) + Canonical(head + [DOT] + rest)
  {
    hide Canonical, WellFormed, DotAt, Labels, Spell;
    CanonicalOfParts(head, rest);
  }

  /** One label, and the rest spelled after it. */
  lemma {:induction false} SpellFirst(out: seq<byte>, name: seq<byte>)
    requires DotAt(name) < |name|
    ensures var d := DotAt(name); Spell(out, Labels(name)) == Spell(Led(out) + name[..d], Labels(name[d + 1..]))
  {
    hide Canonical, WellFormed, Labels, DotAt;
    FirstLabel(name);
  }

  /** Spelling the labels of a well-formed name gives the name back. */
  lemma {:induction false} SpellLabels(out: seq<byte>, name: seq<byte>)
    requires WellFormed(name)
    ensures Spell(out, Labels(name)) == if name == [] then out else Led(out) + Canonical(name)
    decreases |name|
  {
    hide Canonical, Labels, Spell, DotAt, Led;
    var d := DotAt(name);
    if d == |name| {
      SpellLast(out, name);
    } else {
      var head, rest := name[..d], name[d + 1..];
      var first := Led(out) + head;
      SpellFirst(out, name);
      SpellLabels(first, rest);
      NameSplits(name);
      if rest != [] {
        WellFormedStart(rest);
      }
      LedMore(out, head);
      SpellJoins(out, head, rest, Canonical(rest));
    }
  }

  lemma {:induction false} LedMore(out: seq<byte>, head: seq<byte>)
    requires head != []
    ensures Led(Led(out) + head) == Led(out) + head + [DOT]
  {
  }

  lemma {:induction false} FirstLabel(name: seq<byte>)
    requires DotAt(name) < |name|
    ensures var d, l := DotAt(name), Labels(name); l != [] && l[0] == name[..d] && l[1..] == Labels(name[d + 1..])
  {
    hide Canonical, WellFormed, Spell;
  }
}
