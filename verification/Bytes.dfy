/** Bytes and the joining of byte windows. */
module Bytes {

  newtype byte = x: int | 0 <= x < 256

  /** The windows of a list of chunks, end to end. */
  function Join(windows: seq<seq<byte>>): seq<byte> {
    if windows == [] then [] else windows[0] + Join(windows[1..])
  }

  lemma {:induction false} JoinOne(w: seq<byte>)
    ensures Join([w]) == w
  {
    assert [w][1..] == [];
  }

  lemma {:induction false} JoinConcat(a: seq<seq<byte>>, b: seq<seq<byte>>)
    ensures Join(a + b) == Join(a) + Join(b)
  {
    if a == [] {
      assert a + b == b;
    } else {
      assert (a + b)[1..] == a[1..] + b;
      JoinConcat(a[1..], b);
    }
  }

  lemma {:induction false} JoinSplit(ws: seq<seq<byte>>, i: nat)
    requires i <= |ws|
    ensures Join(ws) == Join(ws[..i]) + Join(ws[i..])
  {
    assert ws == ws[..i] + ws[i..];
    JoinConcat(ws[..i], ws[i..]);
  }

  lemma {:induction false} JoinEmpty(ws: seq<seq<byte>>)
    requires forall i | 0 <= i < |ws| :: ws[i] == []
    ensures Join(ws) == []
  {
    if ws != [] {
      JoinEmpty(ws[1..]);
    }
  }

  /** Replacing one window replaces its bytes and nothing else. */
  lemma {:induction false} JoinUpdate(ws: seq<seq<byte>>, i: nat, w: seq<byte>)
    requires i < |ws|
    ensures Join(ws) == Join(ws[..i]) + ws[i] + Join(ws[i + 1..])
    ensures Join(ws[i := w]) == Join(ws[..i]) + w + Join(ws[i + 1..])
  {
    JoinSplit(ws, i);
    var us := ws[i := w];
    JoinSplit(us, i);
    assert us[..i] == ws[..i] && us[i..][1..] == ws[i + 1..] && ws[i..][1..] == ws[i + 1..];
  }
}
