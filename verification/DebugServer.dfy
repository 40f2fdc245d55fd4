/** `DebugControlServer`: newline reassembly per socket, one reply line per request line. */
module DebugServer {
  import opened Wrappers
  import opened Bytes
  import opened Seqs
  import opened Trimming

  type Line = seq<Byte>
  type Socket = nat

  const NEWLINE: Byte := 10

  // ---- Splitting at newlines ------------------------------------------------------------------

  function IndexOfNewline(b: seq<Byte>): (r: Option<nat>)
    ensures r.Some? ==> r.value < |b|
  {
    if b == [] then None
    else if b[0] == NEWLINE then Some(0)
    else match IndexOfNewline(b[1..]) case None => None case Some(i) => Some(i + 1)
  }

  lemma {:induction false} IndexOfNewlineIsFirst(b: seq<Byte>)
    ensures match IndexOfNewline(b)
            case None => NEWLINE !in b
            case Some(i) => b[i] == NEWLINE && NEWLINE !in b[..i]
  {
    if b != [] && b[0] != NEWLINE {
      IndexOfNewlineIsFirst(b[1..]);
      match IndexOfNewline(b[1..])
      case None => assert b == [b[0]] + b[1..];
      case Some(i) => assert b[..i + 1] == [b[0]] + b[1..][..i];
    }
  }

  /** The newline-terminated lines of a byte stream, without their newlines. */
  function Lines(b: seq<Byte>): seq<Line> {
    if b == [] then []
    else
      var front := b[..|b| - 1];
      if b[|b| - 1] == NEWLINE then Lines(front) + [Tail(front)] else Lines(front)
  }

  /** What follows the last newline. */
  function Tail(b: seq<Byte>): seq<Byte> {
    if b == [] || b[|b| - 1] == NEWLINE then [] else Tail(b[..|b| - 1]) + [b[|b| - 1]]
  }

  lemma LinesPushByte(a: seq<Byte>, c: Byte)
    ensures Lines(a + [c]) == if c == NEWLINE then Lines(a) + [Tail(a)] else Lines(a)
    ensures Tail(a + [c]) == if c == NEWLINE then [] else Tail(a) + [c]
  {
    assert (a + [c])[..|a|] == a;
  }

  ghost predicate SplitsAt(a: seq<Byte>, b: seq<Byte>) {
    Lines(a + b) == Lines(a) + Lines(Tail(a) + b) && Tail(a + b) == Tail(Tail(a) + b)
  }

  lemma PushByteTwice(a: seq<Byte>, whole: seq<Byte>, part: seq<Byte>, c: Byte)
    requires Lines(whole) == Lines(a) + Lines(part) && Tail(whole) == Tail(part)
    ensures Lines(whole + [c]) == Lines(a) + Lines(part + [c]) && Tail(whole + [c]) == Tail(part + [c])
  {
    LinesPushByte(whole, c);
    LinesPushByte(part, c);
    Associates(Lines(a), Lines(part), [Tail(part)]);
  }

  lemma SplitPushByte(a: seq<Byte>, b: seq<Byte>, c: Byte)
    requires SplitsAt(a, b)
    ensures SplitsAt(a, b + [c])
  {
    PushByteTwice(a, a + b, Tail(a) + b, c);
    Associates(a, b, [c]);
    Associates(Tail(a), b, [c]);
  }

  lemma SplitAtEnd(a: seq<Byte>)
    ensures SplitsAt(a, [])
  {
    TailIsOneLine(a);
    assert a + [] == a && Tail(a) + [] == Tail(a);
  }

  /** Only the unterminated tail matters for what comes next: reading `a` and then `b`
      gives the lines and the tail of reading them at once. */
  lemma {:induction false} SplitAnywhere(a: seq<Byte>, b: seq<Byte>)
    ensures SplitsAt(a, b)
    decreases |b|
  {
    if b == [] {
      SplitAtEnd(a);
    } else {
      SplitAnywhere(a, b[..|b| - 1]);
      SplitPushByte(a, b[..|b| - 1], b[|b| - 1]);
      assert b == b[..|b| - 1] + [b[|b| - 1]];
    }
  }

  lemma {:induction false} NoNewlineNoLines(b: seq<Byte>)
    requires NEWLINE !in b
    ensures Lines(b) == [] && Tail(b) == b
  {
    if b != [] {
      NoNewlineNoLines(b[..|b| - 1]);
    }
  }

  lemma {:induction false} TailIsOneLine(b: seq<Byte>)
    ensures NEWLINE !in Tail(b) && Lines(Tail(b)) == [] && Tail(Tail(b)) == Tail(b)
  {
    if b != [] && b[|b| - 1] != NEWLINE {
      TailIsOneLine(b[..|b| - 1]);
    }
    NoNewlineNoLines(Tail(b));
  }

  lemma LinesOfLine(line: Line, rest: seq<Byte>)
    requires NEWLINE !in line
    ensures Lines(line + [NEWLINE] + rest) == [line] + Lines(rest)
    ensures Tail(line + [NEWLINE] + rest) == Tail(rest)
  {
    NoNewlineNoLines(line);
    LinesPushByte(line, NEWLINE);
    SplitAnywhere(line + [NEWLINE], rest);
    assert [] + rest == rest;
  }

  // ---- One request line -------------------------------------------------------------------------

  predicate IsSpace(c: Byte) { c == 0x20 || 0x09 <= c <= 0x0D }

  function Trimmed(b: seq<Byte>): seq<Byte> {
    Trim(b, IsSpace)
  }

  /** A line is blank, and gets no reply, if and only if it is all spaces, tabs, line, page and carriage ends. */
  lemma BlankLinesAreSpaces(line: Line)
    ensures Trimmed(line) == [] <==> forall i | 0 <= i < |line| :: line[i] in {0x20, 0x09, 0x0A, 0x0B, 0x0C, 0x0D}
  {
    TrimsToNothing(line, IsSpace);
  }

  /** The compact JSON the server answers the `n`-th request it handles with; compact
      JSON has no newline. */
  type Responder = (nat, Line) -> Line

  ghost predicate OneLine(respond: Responder) {
    forall n, l :: NEWLINE !in respond(n, l)
  }

  // ---- The server ----------------------------------------------------------------------------------

  /** A connected socket: its `m_buffers` entry and the bytes written to it, and, since
      the connection, the bytes read and the request/reply pairs. */
  datatype Conn = Conn(
    buffer: seq<Byte>,
    written: seq<Byte>,
    received: seq<Byte>,
    answered: seq<(Line, Line)>)

  const OPENED := Conn([], [], [], [])

  datatype State = State(conns: map<Socket, Conn>, handled: nat)

  const INIT := State(map[], 0)

  datatype Step = Connect(socket: Socket) | Data(socket: Socket, bytes: seq<Byte>) | Disconnect(socket: Socket) | Stop

  /** The request/reply pair of one line; a blank line has none. */
  function Answer(line: Line, n: nat, respond: Responder): seq<(Line, Line)> {
    if Trimmed(line) == [] then [] else [(line, respond(n, Trimmed(line)))]
  }

  function Answers(lines: seq<Line>, n: nat, respond: Responder): seq<(Line, Line)>
    decreases |lines|
  {
    if lines == [] then []
    else
      var before := Answers(lines[..|lines| - 1], n, respond);
      before + Answer(lines[|lines| - 1], n + |before|, respond)
  }

  /** The bytes of the replies, each ended by a newline. */
  function ReplyBytes(pairs: seq<(Line, Line)>): seq<Byte> {
    if pairs == [] then [] else pairs[0].1 + [NEWLINE] + ReplyBytes(pairs[1..])
  }

  /** One read: every complete line is processed, the partial tail kept. */
  function Read(c: Conn, bytes: seq<Byte>, n: nat, respond: Responder): Conn {
    var whole := c.buffer + bytes;
    var pairs := Answers(Lines(whole), n, respond);
    Conn(Tail(whole), c.written + ReplyBytes(pairs), c.received + bytes, c.answered + pairs)
  }

  function Apply(s: State, a: Step, respond: Responder): State {
    match a
    case Connect(k) => s.(conns := s.conns[k := OPENED])
    case Disconnect(k) => s.(conns := s.conns - {k})
    case Stop => s.(conns := map[])
    case Data(k, bytes) =>
      if k !in s.conns then s
      else State(s.conns[k := Read(s.conns[k], bytes, s.handled, respond)],
                 s.handled + |Answers(Lines(s.conns[k].buffer + bytes), s.handled, respond)|)
  }

  function Run(s: State, steps: seq<Step>, respond: Responder): State
    decreases steps
  {
    if steps == [] then s else Run(Apply(s, steps[0], respond), steps[1..], respond)
  }

  class DebugControlServer {
    var conns: map<Socket, Conn>
    var handled: nat
    const respond: Responder

    ghost function Abs(): State
      reads this
    {
      State(conns, handled)
    }

    constructor (respond: Responder)
      ensures Abs() == INIT && this.respond == respond
    {
      this.respond := respond;
      conns, handled := map[], 0;
    }

    method OnNewConnection(socket: Socket)
      modifies this
      ensures Abs() == Apply(old(Abs()), Connect(socket), respond)
    {
      conns := conns[socket := OPENED];
    }

    method OnDisconnected(socket: Socket)
      modifies this
      ensures Abs() == Apply(old(Abs()), Disconnect(socket), respond)
    {
      conns := conns - {socket};
    }

    method OnReadyRead(socket: Socket, bytes: seq<Byte>)
      modifies this
      ensures Abs() == Apply(old(Abs()), Data(socket, bytes), respond)
    {
      if socket !in conns {
        return;
      }
      var c := conns[socket];
      var pairs := Answers(Lines(c.buffer + bytes), handled, respond);
      var buffer, sent, n := Drain(c.buffer + bytes, handled, respond);
      handled := n;
      conns := conns[socket := Conn(buffer, c.written + sent, c.received + bytes, c.answered + pairs)];
    }
  }

  /** `processRequestLine`; a blank line is answered with no bytes. */
  method ProcessRequestLine(line: Line, n: nat, respond: Responder) returns (response: seq<Byte>, handled: nat)
    ensures response == ReplyBytes(Answer(line, n, respond))
    ensures handled == n + |Answer(line, n, respond)|
  {
    var trimmed := Trimmed(line);
    if trimmed == [] {
      return [], n;
    }
    ReplyBytesOfOne(line, respond(n, trimmed));
    return respond(n, trimmed) + [NEWLINE], n + 1;
  }

  /** The bytes and the count the loop of `onReadyRead` has after answering these lines. */
  ghost predicate Replied(lines: seq<Line>, sent: seq<Byte>, handled: nat, n: nat, respond: Responder) {
    && sent == ReplyBytes(Answers(lines, n, respond))
    && handled == n + |Answers(lines, n, respond)|
  }

  /** The loop of `onReadyRead`: the tail it keeps, and the bytes it writes. */
  method Drain(whole: seq<Byte>, n: nat, respond: Responder)
    returns (buffer: seq<Byte>, sent: seq<Byte>, handled: nat)
    ensures buffer == Tail(whole)
    ensures sent == ReplyBytes(Answers(Lines(whole), n, respond))
    ensures handled == n + |Answers(Lines(whole), n, respond)|
  {
    buffer, sent, handled := whole, [], n;
    ghost var consumed: seq<Byte> := [];
    ghost var lines: seq<Line> := [];
    var newline := IndexOfNewline(buffer);
    while newline.Some?
      invariant newline == IndexOfNewline(buffer)
      invariant whole == consumed + buffer && Lines(consumed) == lines && Tail(consumed) == []
      invariant Replied(lines, sent, handled, n, respond)
      decreases |buffer|
    {
      var line, rest := buffer[..newline.value], buffer[newline.value + 1..];
      IndexOfNewlineIsFirst(buffer);
      Regroup(consumed, buffer, newline.value);
      DrainLine(consumed, lines, line, sent, handled, n, respond);
      consumed, lines := consumed + (line + [NEWLINE]), lines + [line];
      buffer := rest;
      var response, next := ProcessRequestLine(line, handled, respond);
      sent, handled := sent + response, next;
      newline := IndexOfNewline(buffer);
    }
    IndexOfNewlineIsFirst(buffer);
    DrainEnds(consumed, lines, buffer, sent, handled, n, respond);
  }

  /** One turn of the loop: a line, with its newline, is taken off the buffer and answered. */
  lemma DrainLine(consumed: seq<Byte>, lines: seq<Line>, line: Line, sent: seq<Byte>, handled: nat,
                  n: nat, respond: Responder)
    requires NEWLINE !in line && Lines(consumed) == lines && Tail(consumed) == []
    requires Replied(lines, sent, handled, n, respond)
    ensures Lines(consumed + (line + [NEWLINE])) == lines + [line] && Tail(consumed + (line + [NEWLINE])) == []
    ensures var pair := Answer(line, handled, respond);
            Replied(lines + [line], sent + ReplyBytes(pair), handled + |pair|, n, respond)
  {
    ConsumeLine(consumed, line);
    ReplyLine(lines, line, sent, handled, n, respond);
  }

  lemma ReplyLine(lines: seq<Line>, line: Line, sent: seq<Byte>, handled: nat, n: nat, respond: Responder)
    requires Replied(lines, sent, handled, n, respond)
    ensures var pair := Answer(line, handled, respond);
            Replied(lines + [line], sent + ReplyBytes(pair), handled + |pair|, n, respond)
  {
    AnswersPush(lines, line, n, respond);
  }

  lemma DrainEnds(consumed: seq<Byte>, lines: seq<Line>, buffer: seq<Byte>, sent: seq<Byte>, handled: nat,
                  n: nat, respond: Responder)
    requires NEWLINE !in buffer && Lines(consumed) == lines && Tail(consumed) == []
    requires Replied(lines, sent, handled, n, respond)
    ensures buffer == Tail(consumed + buffer)
    ensures sent == ReplyBytes(Answers(Lines(consumed + buffer), n, respond))
    ensures handled == n + |Answers(Lines(consumed + buffer), n, respond)|
  {
    NothingLeft(consumed, buffer);
  }

  lemma Regroup<T>(taken: seq<T>, s: seq<T>, i: nat)
    requires i < |s|
    ensures taken + s == taken + (s[..i] + [s[i]]) + s[i + 1..]
  {
  }

  /** Taking one more line, with its newline, off the buffer. */
  lemma ConsumeLine(consumed: seq<Byte>, line: Line)
    requires Tail(consumed) == [] && NEWLINE !in line
    ensures Lines(consumed + (line + [NEWLINE])) == Lines(consumed) + [line]
    ensures Tail(consumed + (line + [NEWLINE])) == []
  {
    SplitAnywhere(consumed, line + [NEWLINE]);
    assert [] + (line + [NEWLINE]) == line + [NEWLINE];
    NoNewlineNoLines(line);
    LinesPushByte(line, NEWLINE);
  }

  lemma NothingLeft(consumed: seq<Byte>, buffer: seq<Byte>)
    requires Tail(consumed) == [] && NEWLINE !in buffer
    ensures Lines(consumed + buffer) == Lines(consumed) && Tail(consumed + buffer) == buffer
  {
    SplitAnywhere(consumed, buffer);
    assert [] + buffer == buffer;
    NoNewlineNoLines(buffer);
  }

  lemma AnswersPush(lines: seq<Line>, line: Line, n: nat, respond: Responder)
    ensures var before := Answers(lines, n, respond);
            var pair := Answer(line, n + |before|, respond);
            && |Answers(lines + [line], n, respond)| == |before| + |pair|
            && ReplyBytes(Answers(lines + [line], n, respond)) == ReplyBytes(before) + ReplyBytes(pair)
  {
    assert (lines + [line])[..|lines|] == lines;
    var before := Answers(lines, n, respond);
    ReplyBytesAppend(before, Answer(line, n + |before|, respond));
  }

  lemma ReplyBytesOfOne(line: Line, reply: Line)
    ensures ReplyBytes([(line, reply)]) == reply + [NEWLINE]
  {
    var pairs: seq<(Line, Line)> := [(line, reply)];
    assert pairs[1..] == [];
    assert ReplyBytes(pairs) == reply + [NEWLINE] + [];
  }

  // ---- Whole runs ----------------------------------------------------------------------------------

  function Requests(pairs: seq<(Line, Line)>): seq<Line> {
    if pairs == [] then [] else [pairs[0].0] + Requests(pairs[1..])
  }

  function Replies(pairs: seq<(Line, Line)>): seq<Line> {
    if pairs == [] then [] else [pairs[0].1] + Replies(pairs[1..])
  }

  function NonBlank(lines: seq<Line>): seq<Line> {
    if lines == [] then []
    else (if Trimmed(lines[0]) == [] then [] else [lines[0]]) + NonBlank(lines[1..])
  }

  /** The reply is what the server answers this request with, as some request it handled. */
  ghost predicate AnswersRequest(reply: Line, request: Line, respond: Responder) {
    exists n: nat :: reply == respond(n, Trimmed(request))
  }

  /** A socket's lines are the newline-split of the bytes received, its buffer is the
      unterminated tail, and what was written splits into one reply per non-blank
      line, in order, each the answer to its own line. */
  ghost predicate Reassembled(c: Conn, respond: Responder) {
    && (forall p | p in c.answered :: AnswersRequest(p.1, p.0, respond))
    && c.buffer == Tail(c.received)
    && Requests(c.answered) == NonBlank(Lines(c.received))
    && c.written == ReplyBytes(c.answered)
    && Lines(c.written) == Replies(c.answered) && Tail(c.written) == []
  }

  ghost predicate AllReassembled(s: State, respond: Responder) {
    forall k | k in s.conns :: Reassembled(s.conns[k], respond)
  }

  lemma RequestsPush(lines: seq<Line>, line: Line, n: nat, respond: Responder)
    ensures Requests(Answers(lines + [line], n, respond)) == Requests(Answers(lines, n, respond)) + NonBlank([line])
  {
    assert (lines + [line])[..|lines|] == lines;
    var before := Answers(lines, n, respond);
    RequestsAppend(before, Answer(line, n + |before|, respond));
    OneAnswer(line, n + |before|, respond);
  }

  lemma {:induction false} AnswersAreTheNonBlank(lines: seq<Line>, n: nat, respond: Responder)
    ensures Requests(Answers(lines, n, respond)) == NonBlank(lines)
    decreases |lines|
  {
    if lines != [] {
      var front, last := lines[..|lines| - 1], lines[|lines| - 1];
      AnswersAreTheNonBlank(front, n, respond);
      RequestsPush(front, last, n, respond);
      NonBlankAppend(front, [last]);
      assert lines == front + [last];
    }
  }

  lemma {:induction false} AnswersAnswer(lines: seq<Line>, n: nat, respond: Responder)
    ensures forall p | p in Answers(lines, n, respond) :: AnswersRequest(p.1, p.0, respond)
    decreases |lines|
  {
    if lines != [] {
      var front, last := lines[..|lines| - 1], lines[|lines| - 1];
      AnswersAnswer(front, n, respond);
      var m := n + |Answers(front, n, respond)|;
      assert respond(m, Trimmed(last)) == respond(m, Trimmed(last));
      forall p | p in Answer(last, m, respond)
        ensures AnswersRequest(p.1, p.0, respond)
      {
      }
    }
  }

  lemma {:induction false} AnswersAreOneLine(lines: seq<Line>, n: nat, respond: Responder)
    requires OneLine(respond)
    ensures forall p | p in Answers(lines, n, respond) :: NEWLINE !in p.1
    decreases |lines|
  {
    if lines != [] {
      AnswersAreOneLine(lines[..|lines| - 1], n, respond);
    }
  }

  lemma OneAnswer(line: Line, n: nat, respond: Responder)
    ensures Requests(Answer(line, n, respond)) == NonBlank([line])
  {
    assert [line][1..] == [];
    if Trimmed(line) != [] {
      assert Answer(line, n, respond)[1..] == [];
    }
  }

  lemma {:induction false} RequestsAppend(a: seq<(Line, Line)>, b: seq<(Line, Line)>)
    ensures Requests(a + b) == Requests(a) + Requests(b)
  {
    if a == [] {
      assert a + b == b;
    } else {
      assert (a + b)[1..] == a[1..] + b;
      RequestsAppend(a[1..], b);
    }
  }

  lemma {:induction false} RepliesAppend(a: seq<(Line, Line)>, b: seq<(Line, Line)>)
    ensures Replies(a + b) == Replies(a) + Replies(b)
  {
    if a == [] {
      assert a + b == b;
    } else {
      assert (a + b)[1..] == a[1..] + b;
      RepliesAppend(a[1..], b);
    }
  }

  lemma {:induction false} ReplyBytesAppend(a: seq<(Line, Line)>, b: seq<(Line, Line)>)
    ensures ReplyBytes(a + b) == ReplyBytes(a) + ReplyBytes(b)
  {
    if a == [] {
      assert a + b == b;
    } else {
      assert (a + b)[1..] == a[1..] + b;
      ReplyBytesAppend(a[1..], b);
    }
  }

  lemma {:induction false} NonBlankAppend(a: seq<Line>, b: seq<Line>)
    ensures NonBlank(a + b) == NonBlank(a) + NonBlank(b)
  {
    if a == [] {
      assert a + b == b;
    } else {
      assert (a + b)[1..] == a[1..] + b;
      NonBlankAppend(a[1..], b);
    }
  }

  lemma {:induction false} RepliesSplit(pairs: seq<(Line, Line)>)
    requires forall p | p in pairs :: NEWLINE !in p.1
    ensures Lines(ReplyBytes(pairs)) == Replies(pairs) && Tail(ReplyBytes(pairs)) == []
  {
    if pairs != [] {
      RepliesSplit(pairs[1..]);
      LinesOfLine(pairs[0].1, ReplyBytes(pairs[1..]));
    }
  }

  lemma ReadKeepsReplies(c: Conn, pairs: seq<(Line, Line)>, respond: Responder)
    requires Reassembled(c, respond) && forall p | p in pairs :: NEWLINE !in p.1
    ensures var written := c.written + ReplyBytes(pairs);
            && written == ReplyBytes(c.answered + pairs)
            && Lines(written) == Replies(c.answered + pairs) && Tail(written) == []
  {
    RepliesAppend(c.answered, pairs);
    ReplyBytesAppend(c.answered, pairs);
    RepliesSplit(pairs);
    SplitAnywhere(c.written, ReplyBytes(pairs));
    assert [] + ReplyBytes(pairs) == ReplyBytes(pairs);
  }

  lemma ReadKeepsReassembled(c: Conn, bytes: seq<Byte>, n: nat, respond: Responder)
    requires OneLine(respond) && Reassembled(c, respond)
    ensures Reassembled(Read(c, bytes, n, respond), respond)
  {
    var whole := c.buffer + bytes;
    var pairs := Answers(Lines(whole), n, respond);
    SplitAnywhere(c.received, bytes);
    AnswersAreTheNonBlank(Lines(whole), n, respond);
    AnswersAreOneLine(Lines(whole), n, respond);
    AnswersAnswer(Lines(whole), n, respond);
    NonBlankAppend(Lines(c.received), Lines(whole));
    RequestsAppend(c.answered, pairs);
    ReadKeepsReplies(c, pairs, respond);
  }

  lemma StepKeepsReassembled(s: State, a: Step, respond: Responder)
    requires OneLine(respond) && AllReassembled(s, respond)
    ensures AllReassembled(Apply(s, a, respond), respond)
  {
    match a
    case Data(k, bytes) =>
      if k in s.conns {
        ReadKeepsReassembled(s.conns[k], bytes, s.handled, respond);
      }
    case _ =>
  }

  /** Main result: for any interleaving of connections, disconnections and reads, and
      any split of a socket's bytes into reads, every connected socket is reassembled. */
  lemma {:induction false} EverySocketIsReassembled(s: State, steps: seq<Step>, respond: Responder)
    requires OneLine(respond) && AllReassembled(s, respond)
    ensures AllReassembled(Run(s, steps, respond), respond)
    decreases steps
  {
    if steps != [] {
      StepKeepsReassembled(s, steps[0], respond);
      EverySocketIsReassembled(Apply(s, steps[0], respond), steps[1..], respond);
    }
  }

  /** What the steps since its last connection delivered to a socket. */
  function Delivered(steps: seq<Step>, k: Socket, soFar: Option<seq<Byte>>): Option<seq<Byte>>
    decreases steps
  {
    if steps == [] then soFar
    else
      match steps[0]
      case Connect(j) => Delivered(steps[1..], k, if j == k then Some([]) else soFar)
      case Disconnect(j) => Delivered(steps[1..], k, if j == k then None else soFar)
      case Stop => Delivered(steps[1..], k, None)
      case Data(j, bytes) =>
        Delivered(steps[1..], k, if j == k && soFar.Some? then Some(soFar.value + bytes) else soFar)
  }

  function ReceivedBy(s: State, k: Socket): Option<seq<Byte>> {
    if k in s.conns then Some(s.conns[k].received) else None
  }

  lemma {:induction false} ReceivedIsDelivered(s: State, steps: seq<Step>, k: Socket, respond: Responder)
    ensures ReceivedBy(Run(s, steps, respond), k) == Delivered(steps, k, ReceivedBy(s, k))
    decreases steps
  {
    if steps != [] {
      ReceivedIsDelivered(Apply(s, steps[0], respond), steps[1..], k, respond);
    }
  }

  /** Whether and how reads were split or interleaved cannot be seen: a connected socket's
      buffer and requests are those of the bytes delivered to it, and its output is one
      line for each of them, the i-th line answering the i-th request. */
  lemma SplitIsInvisible(steps: seq<Step>, k: Socket, respond: Responder)
    requires OneLine(respond) && Delivered(steps, k, None).Some?
    ensures var s := Run(INIT, steps, respond);
            var bytes := Delivered(steps, k, None).value;
            && k in s.conns
            && var requests, replies := NonBlank(Lines(bytes)), Lines(s.conns[k].written);
               && s.conns[k].buffer == Tail(bytes)
               && Requests(s.conns[k].answered) == requests
               && Tail(s.conns[k].written) == []
               && |replies| == |requests|
               && forall i | 0 <= i < |requests| :: AnswersRequest(replies[i], requests[i], respond)
  {
    EverySocketIsReassembled(INIT, steps, respond);
    ReceivedIsDelivered(INIT, steps, k, respond);
    var c := Run(INIT, steps, respond).conns[k];
    assert Reassembled(c, respond);
    RequestsAndReplies(c.answered);
    forall i | 0 <= i < |c.answered|
      ensures AnswersRequest(Replies(c.answered)[i], Requests(c.answered)[i], respond)
    {
      assert c.answered[i] in c.answered;
    }
  }

  lemma {:induction false} RequestsAndReplies(pairs: seq<(Line, Line)>)
    ensures |Requests(pairs)| == |Replies(pairs)| == |pairs|
    ensures forall i | 0 <= i < |pairs| :: Requests(pairs)[i] == pairs[i].0 && Replies(pairs)[i] == pairs[i].1
  {
    if pairs != [] {
      RequestsAndReplies(pairs[1..]);
    }
  }
}
