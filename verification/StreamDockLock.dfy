/** Threads sharing one AKP153 under its mutex: however `set_image`, `write_cmd`
    and `read_input` interleave, the wire carries whole transactions in lock order. */
module StreamDockLock {
  import opened Wrappers
  import opened Bytes
  import opened StreamDockWire
  import opened LockedBus

  datatype Op =
    | SetImageOp(key: Byte, touchzone: bool, jpeg: seq<Byte>)
    | WriteCmdOp(command: Command)
    | ReadInputOp

  /** What an operation writes while it holds the lock. */
  function OpReports(op: Op): Wire {
    match op
    case SetImageOp(key, touchzone, jpeg) => ImageReports(SlotFor(key, touchzone), jpeg)
    case WriteCmdOp(c) => [Report(CommandBytes(c))]
    case ReadInputOp => []
  }

  /** What an operation means to the receiver. */
  function OpMessages(op: Op): seq<Message> {
    match op
    case SetImageOp(key, touchzone, jpeg) => [Image(SlotFor(key, touchzone), jpeg)]
    case WriteCmdOp(c) => [Plain(CommandBytes(c))]
    case ReadInputOp => []
  }

  function AllMessages(order: seq<(nat, Op)>): seq<Message> {
    if order == [] then [] else OpMessages(order[0].1) + AllMessages(order[1..])
  }

  /** The image's length fits the announce frame. */
  predicate Fits(op: Op) {
    op.SetImageOp? ==> |op.jpeg| <= 0xFFFF
  }

  lemma MessageThenRest(wire: Wire, m: Message, rest: Wire, ms: seq<Message>)
    requires wire != [] && ReadMessage(wire) == Some((m, rest)) && ReadAll(rest) == Some(ms)
    ensures ReadAll(wire) == Some([m] + ms)
  {
  }

  lemma {:induction false} WholeTransactionsRead(order: seq<(nat, Op)>)
    requires forall e | e in order :: Fits(e.1)
    ensures ReadAll(AllReports(order, OpReports)) == Some(AllMessages(order))
  {
    if order != [] {
      var rest := AllReports(order[1..], OpReports);
      WholeTransactionsRead(order[1..]);
      var wire := OpReports(order[0].1) + rest;
      match order[0].1
      case SetImageOp(key, touchzone, jpeg) =>
        var slot := SlotFor(key, touchzone);
        ImageReads(slot, jpeg, rest);
        MessageThenRest(wire, Image(slot, jpeg), rest, AllMessages(order[1..]));
      case WriteCmdOp(c) =>
        CommandReads(c, rest);
        MessageThenRest(wire, Plain(CommandBytes(c)), rest, AllMessages(order[1..]));
      case ReadInputOp =>
        assert wire == rest && AllMessages(order) == AllMessages(order[1..]);
    }
  }

  /** Main result: in every interleaving of any threads whose images fit 16-bit
      lengths, the wire is a prefix of whole transactions in lock order, each thread's
      in program order; and whenever the lock is free it reads back as exactly the
      images and commands of the operations that held it. */
  lemma WireIsSerial(programs: seq<seq<Op>>, steps: seq<Step>)
    requires ValidRun(Init(programs), steps, OpReports)
    requires forall t, op | 0 <= t < |programs| && op in programs[t] :: Fits(op)
    ensures var s := Run(Init(programs), steps, OpReports);
            && s.wire <= AllReports(s.order, OpReports)
            && InProgramOrder(s, programs)
            && (s.holder.None? ==> ReadAll(s.wire) == Some(AllMessages(s.order)))
  {
    RunIsSerial(Init(programs), steps, OpReports, programs);
    var s := Run(Init(programs), steps, OpReports);
    forall e | e in s.order
      ensures Fits(e.1)
    {
      LockedOpComesFromItsThread(s.order, e);
      assert OpsOf(s.order, e.0) + s.todo[e.0] == programs[e.0];
    }
    WholeTransactionsRead(s.order);
    assert s.holder.None? ==> s.wire + [] == s.wire;
  }
}
