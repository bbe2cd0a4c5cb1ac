/** The epoll operation table: which epoll_ctl call turns a recorded change of
    one file descriptor into kernel state. */
module EpollTable {
  import opened EventKinds

  /** One read_change, write_change or close_change byte: the EV_CHANGE_ADD,
      EV_CHANGE_DEL and EV_CHANGE_ET bits. */
  datatype ChangeBits = ChangeBits(add: bool, del: bool, et: bool)

  datatype EventChange = EventChange(
    fd: int, was: Kinds, read: ChangeBits, write: ChangeBits, closed: ChangeBits)

  datatype Ctl = CtlNone | CtlAdd | CtlDel | CtlMod | CtlInvalid

  datatype Operation = Operation(events: Kinds, op: Ctl)

  const UNCHANGED := ChangeBits(false, false, false)

  // EPOLLIN, EPOLLOUT and EPOLLRDHUP, alone and combined.
  const I := Kinds(true, false, false)
  const O := Kinds(false, true, false)
  const H := Kinds(false, false, true)
  const IO := Kinds(true, true, false)
  const IH := Kinds(true, false, true)
  const OH := Kinds(false, true, true)
  const IOH := Kinds(true, true, true)

  const NOP := Operation(NO_KINDS, CtlNone)
  const BAD := Operation(NO_KINDS, CtlInvalid)

  function Add(k: Kinds): Operation { Operation(k, CtlAdd) }
  function Del(k: Kinds): Operation { Operation(k, CtlDel) }
  function Mod(k: Kinds): Operation { Operation(k, CtlMod) }

  function Code(b: ChangeBits): nat {
    (if b.add then 1 else 0) + (if b.del then 2 else 0)
  }

  /** EPOLL_OP_TABLE_INDEX */
  function TableIndex(ch: EventChange): nat {
    Code(ch.closed) + 4 * Code(ch.read) + 16 * Code(ch.write)
    + (if ch.was.read then 64 else 0) + (if ch.was.write then 128 else 0)
    + (if ch.was.closed then 256 else 0)
  }

  // epoll_op_table in blocks of 64 entries, one block for each set of old events.
  // Rows are the write change (none, add, del, both); in a row the entry is
  // 4 * read change + close change.

  function BlockNone(write: nat): seq<Operation> {
    match write
    case 0 =>
      [NOP, Add(H), Del(H), BAD,
       Add(I), Add(IH), Add(I), BAD,
       Del(I), Add(H), Del(IH), BAD,
       BAD, BAD, BAD, BAD]
    case 1 =>
      [Add(O), Add(OH), Add(O), BAD,
       Add(IO), Add(IOH), Add(IO), BAD,
       Add(O), Add(OH), Add(O), BAD,
       BAD, BAD, BAD, BAD]
    case 2 =>
      [Del(O), Add(H), Del(OH), BAD,
       Add(I), Add(IH), Add(I), BAD,
       Del(IO), Add(H), Del(IOH), BAD,
       BAD, BAD, BAD, BAD]
    case _ =>
      [BAD, BAD, BAD, BAD,
       BAD, BAD, BAD, BAD,
       BAD, BAD, BAD, BAD,
       BAD, BAD, BAD, BAD]
  }

  function BlockR(write: nat): seq<Operation> {
    match write
    case 0 =>
      [NOP, Mod(IH), Mod(I), BAD,
       Mod(I), Mod(IH), Mod(I), BAD,
       Del(I), Mod(H), Del(IH), BAD,
       BAD, BAD, BAD, BAD]
    case 1 =>
      [Mod(IO), Mod(IOH), Mod(IO), BAD,
       Mod(IO), Mod(IOH), Mod(IO), BAD,
       Mod(O), Mod(OH), Mod(O), BAD,
       BAD, BAD, BAD, BAD]
    case 2 =>
      [Mod(I), Mod(IH), Mod(I), BAD,
       Mod(I), Mod(IH), Mod(I), BAD,
       Del(IO), Mod(H), Del(IOH), BAD,
       BAD, BAD, BAD, BAD]
    case _ =>
      [BAD, BAD, BAD, BAD,
       BAD, BAD, BAD, BAD,
       BAD, BAD, BAD, BAD,
       BAD, BAD, BAD, BAD]
  }

  function BlockW(write: nat): seq<Operation> {
    match write
    case 0 =>
      [NOP, Mod(OH), Mod(O), BAD,
       Mod(IO), Mod(IOH), Mod(IO), BAD,
       Mod(O), Mod(OH), Mod(O), BAD,
       BAD, BAD, BAD, BAD]
    case 1 =>
      [Mod(O), Mod(OH), Mod(O), BAD,
       Mod(IO), Mod(IOH), Mod(IO), BAD,
       Mod(O), Mod(OH), Mod(O), BAD,
       BAD, BAD, BAD, BAD]
    case 2 =>
      [Del(O), Mod(H), Del(OH), BAD,
       Mod(I), Mod(IH), Mod(I), BAD,
       Del(IO), Mod(H), Del(IOH), BAD,
       BAD, BAD, BAD, BAD]
    case _ =>
      [BAD, BAD, BAD, BAD,
       BAD, BAD, BAD, BAD,
       BAD, BAD, BAD, BAD,
       BAD, BAD, BAD, BAD]
  }

  function BlockRW(write: nat): seq<Operation> {
    match write
    case 0 =>
      [NOP, Mod(IOH), Mod(IO), BAD,
       Mod(IO), Mod(IOH), Mod(IO), BAD,
       Mod(O), Mod(OH), Mod(O), BAD,
       BAD, BAD, BAD, BAD]
    case 1 =>
      [Mod(IO), Mod(IOH), Mod(IO), BAD,
       Mod(IO), Mod(IOH), Mod(IO), BAD,
       Mod(O), Mod(OH), Mod(O), BAD,
       BAD, BAD, BAD, BAD]
    case 2 =>
      [Mod(I), Mod(IH), Mod(I), BAD,
       Mod(I), Mod(IH), Mod(I), BAD,
       Del(IO), Mod(H), Del(IOH), BAD,
       BAD, BAD, BAD, BAD]
    case _ =>
      [BAD, BAD, BAD, BAD,
       BAD, BAD, BAD, BAD,
       BAD, BAD, BAD, BAD,
       BAD, BAD, BAD, BAD]
  }

  function BlockC(write: nat): seq<Operation> {
    match write
    case 0 =>
      [NOP, Mod(H), Del(H), BAD,
       Mod(IH), Mod(IH), Mod(I), BAD,
       Mod(H), Mod(H), Del(IH), BAD,
       BAD, BAD, BAD, BAD]
    case 1 =>
      [Mod(OH), Mod(OH), Mod(O), BAD,
       Mod(IOH), Mod(IOH), Mod(IO), BAD,
       Mod(OH), Mod(OH), Mod(O), BAD,
       BAD, BAD, BAD, BAD]
    case 2 =>
      [Mod(H), Mod(H), Del(OH), BAD,
       Mod(IH), Mod(IH), Mod(I), BAD,
       Mod(H), Mod(H), Del(IOH), BAD,
       BAD, BAD, BAD, BAD]
    case _ =>
      [BAD, BAD, BAD, BAD,
       BAD, BAD, BAD, BAD,
       BAD, BAD, BAD, BAD,
       BAD, BAD, BAD, BAD]
  }

  function BlockCR(write: nat): seq<Operation> {
    match write
    case 0 =>
      [NOP, Mod(IH), Mod(I), BAD,
       Mod(IH), Mod(IH), Mod(I), BAD,
       Mod(H), Mod(H), Del(IH), BAD,
       BAD, BAD, BAD, BAD]
    case 1 =>
      [Mod(IOH), Mod(IOH), Mod(IO), BAD,
       Mod(IOH), Mod(IOH), Mod(IO), BAD,
       Mod(OH), Mod(OH), Mod(O), BAD,
       BAD, BAD, BAD, BAD]
    case 2 =>
      [Mod(IH), Mod(IH), Mod(I), BAD,
       Mod(IH), Mod(IH), Mod(I), BAD,
       Mod(H), Mod(H), Del(IOH), BAD,
       BAD, BAD, BAD, BAD]
    case _ =>
      [BAD, BAD, BAD, BAD,
       BAD, BAD, BAD, BAD,
       BAD, BAD, BAD, BAD,
       BAD, BAD, BAD, BAD]
  }

  function BlockCW(write: nat): seq<Operation> {
    match write
    case 0 =>
      [NOP, Mod(OH), Mod(O), BAD,
       Mod(IOH), Mod(IOH), Mod(IO), BAD,
       Mod(OH), Mod(OH), Mod(O), BAD,
       BAD, BAD, BAD, BAD]
    case 1 =>
      [Mod(OH), Mod(OH), Mod(O), BAD,
       Mod(IOH), Mod(IOH), Mod(IO), BAD,
       Mod(OH), Mod(OH), Mod(O), BAD,
       BAD, BAD, BAD, BAD]
    case 2 =>
      [Mod(H), Mod(H), Del(OH), BAD,
       Mod(IH), Mod(IH), Mod(I), BAD,
       Mod(H), Mod(H), Del(IOH), BAD,
       BAD, BAD, BAD, BAD]
    case _ =>
      [BAD, BAD, BAD, BAD,
       BAD, BAD, BAD, BAD,
       BAD, BAD, BAD, BAD,
       BAD, BAD, BAD, BAD]
  }

  function BlockCRW(write: nat): seq<Operation> {
    match write
    case 0 =>
      [NOP, Mod(IOH), Mod(IO), BAD,
       Mod(IOH), Mod(IOH), Mod(IO), BAD,
       Mod(OH), Mod(OH), Mod(O), BAD,
       BAD, BAD, BAD, BAD]
    case 1 =>
      [Mod(IOH), Mod(IOH), Mod(IO), BAD,
       Mod(IOH), Mod(IOH), Mod(IO), BAD,
       Mod(OH), Mod(OH), Mod(O), BAD,
       BAD, BAD, BAD, BAD]
    case 2 =>
      [Mod(IH), Mod(IH), Mod(I), BAD,
       Mod(IH), Mod(IH), Mod(I), BAD,
       Mod(H), Mod(H), Del(IOH), BAD,
       BAD, BAD, BAD, BAD]
    case _ =>
      [BAD, BAD, BAD, BAD,
       BAD, BAD, BAD, BAD,
       BAD, BAD, BAD, BAD,
       BAD, BAD, BAD, BAD]
  }

  function TableRow(row: nat): seq<Operation> {
    var write := row % 4;
    match row / 4
    case 0 => BlockNone(write)
    case 1 => BlockR(write)
    case 2 => BlockW(write)
    case 3 => BlockRW(write)
    case 4 => BlockC(write)
    case 5 => BlockCR(write)
    case 6 => BlockCW(write)
    case _ => BlockCRW(write)
  }

  function OpTable(i: nat): Operation
    requires i < 512
  {
    var row := TableRow(i / 16);
    if i % 16 < |row| then row[i % 16] else BAD
  }

  predicate Clash(b: ChangeBits) {
    b.add && b.del
  }

  /** No change byte asks for an add and a delete at once. */
  predicate WellFormed(ch: EventChange) {
    !Clash(ch.read) && !Clash(ch.write) && !Clash(ch.closed)
  }

  predicate AnyAdd(ch: EventChange) {
    ch.read.add || ch.write.add || ch.closed.add
  }

  predicate AnyDel(ch: EventChange) {
    ch.read.del || ch.write.del || ch.closed.del
  }

  /** The change does more than confirm what was there. */
  predicate Effective(ch: EventChange) {
    AnyAdd(ch) || AnyDel(ch)
  }

  predicate Kept(b: ChangeBits, was: bool) {
    b.add || (was && !b.del)
  }

  /** The kinds that should be watched once the change is made. */
  function Target(ch: EventChange): Kinds {
    Kinds(Kept(ch.read, ch.was.read), Kept(ch.write, ch.was.write), Kept(ch.closed, ch.was.closed))
  }

  function Deleted(ch: EventChange): Kinds {
    Kinds(ch.read.del, ch.write.del, ch.closed.del)
  }

  /** The rule the table was generated from. */
  function OpRule(ch: EventChange): Operation {
    if !WellFormed(ch) then BAD
    else if AnyAdd(ch) then Operation(Target(ch), if ch.was.Empty() then CtlAdd else CtlMod)
    else if !AnyDel(ch) then NOP
    else if Target(ch).Empty() then Del(Deleted(ch))
    else Mod(Target(ch))
  }

  function Row(ch: EventChange): nat {
    Code(ch.write) + (if ch.was.read then 4 else 0) + (if ch.was.write then 8 else 0)
    + (if ch.was.closed then 16 else 0)
  }

  function Column(ch: EventChange): nat {
    4 * Code(ch.read) + Code(ch.closed)
  }

  lemma BlockNoneFollowsRule(ch: EventChange)
    requires ch.was == NO_KINDS
    ensures Column(ch) < |BlockNone(Code(ch.write))|
    ensures BlockNone(Code(ch.write))[Column(ch)] == OpRule(ch)
  {
  }

  lemma BlockRFollowsRule(ch: EventChange)
    requires ch.was == I
    ensures Column(ch) < |BlockR(Code(ch.write))|
    ensures BlockR(Code(ch.write))[Column(ch)] == OpRule(ch)
  {
  }

  lemma BlockWFollowsRule(ch: EventChange)
    requires ch.was == O
    ensures Column(ch) < |BlockW(Code(ch.write))|
    ensures BlockW(Code(ch.write))[Column(ch)] == OpRule(ch)
  {
  }

  lemma BlockRWFollowsRule(ch: EventChange)
    requires ch.was == IO
    ensures Column(ch) < |BlockRW(Code(ch.write))|
    ensures BlockRW(Code(ch.write))[Column(ch)] == OpRule(ch)
  {
  }

  lemma BlockCFollowsRule(ch: EventChange)
    requires ch.was == H
    ensures Column(ch) < |BlockC(Code(ch.write))|
    ensures BlockC(Code(ch.write))[Column(ch)] == OpRule(ch)
  {
  }

  lemma BlockCRFollowsRule(ch: EventChange)
    requires ch.was == IH
    ensures Column(ch) < |BlockCR(Code(ch.write))|
    ensures BlockCR(Code(ch.write))[Column(ch)] == OpRule(ch)
  {
  }

  lemma BlockCWFollowsRule(ch: EventChange)
    requires ch.was == OH
    ensures Column(ch) < |BlockCW(Code(ch.write))|
    ensures BlockCW(Code(ch.write))[Column(ch)] == OpRule(ch)
  {
  }

  lemma BlockCRWFollowsRule(ch: EventChange)
    requires ch.was == IOH
    ensures Column(ch) < |BlockCRW(Code(ch.write))|
    ensures BlockCRW(Code(ch.write))[Column(ch)] == OpRule(ch)
  {
  }

  lemma RowFollowsRule(ch: EventChange)
    ensures Column(ch) < |TableRow(Row(ch))|
    ensures TableRow(Row(ch))[Column(ch)] == OpRule(ch)
  {
    assert Row(ch) % 4 == Code(ch.write);
    if ch.was == NO_KINDS {
      BlockNoneFollowsRule(ch);
    } else if ch.was == I {
      BlockRFollowsRule(ch);
    } else if ch.was == O {
      BlockWFollowsRule(ch);
    } else if ch.was == IO {
      BlockRWFollowsRule(ch);
    } else if ch.was == H {
      BlockCFollowsRule(ch);
    } else if ch.was == IH {
      BlockCRFollowsRule(ch);
    } else if ch.was == OH {
      BlockCWFollowsRule(ch);
    } else {
      BlockCRWFollowsRule(ch);
    }
  }

  /** Every one of the 512 entries, the impossible ones included, is what the
      rule says for the change that indexes it. */
  lemma TableFollowsRule(ch: EventChange)
    ensures TableIndex(ch) < 512
    ensures OpTable(TableIndex(ch)) == OpRule(ch)
  {
    assert TableIndex(ch) == 16 * Row(ch) + Column(ch) && Column(ch) < 16;
    assert TableIndex(ch) / 16 == Row(ch) && TableIndex(ch) % 16 == Column(ch);
    RowFollowsRule(ch);
  }
}
