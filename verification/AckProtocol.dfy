/**
  Two nodes that send messages and acknowledge them over a sequence of connections.

  Every step below is one atomic action of one goroutine: a critical section, a channel operation, or some bytes
  put on or taken off a connection. A run is any interleaving of such steps. The fields marked `history` are never
  read by a guard; they record what happened so that the theorems can speak about it.
*/
module AckProtocol {
  import opened Bytes
  import opened Frames

  const ACK: Byte := 255

  datatype Side = Left | Right {
    function Peer(): (p: Side) {
      if Left? then Right else Left
    }
  }

  type ConnId = nat

  /** The bytes one side writes on one connection. */
  datatype Link = Link(from: Side, conn: ConnId)

  datatype Wire = Wire(
    bytes: seq<Byte>,
    pos: nat,               // how many of them the other side has decoded
    frames: seq<Message>,   // history: the frames that are out in full
    tickets: seq<nat>,      // history: which message of `enqueued` each of them is
    torn: seq<Byte>,        // history: what follows the last full frame
    got: nat                // history: how many frames the other side has decoded
  )

  const EMPTY := Wire([], 0, [], [], [], 0)

  type Text = seq<Byte>

  datatype Outcome = Acked(err: Option<Text>) | Cancelled | TimedOut

  /** Where a call of `sendBinaryAndWaitForAck` is: registered, waiting, past the `select`, or returned. */
  datatype Phase = Registered | Waiting | Decided(outcome: Outcome) | Returned(outcome: Outcome)

  datatype Call = Call(opcode: Byte, payload: seq<Byte>, phase: Phase)

  datatype Signal = Signal(err: Option<Text>, sender: nat)

  /** An ack channel with one slot: `sent[taken..]` is in the buffer; `closers` are the goroutines that closed it. */
  datatype Chan = Chan(sent: seq<Signal>, taken: nat, closers: seq<nat>)

  /** What made a node call `WriteMessage`. */
  datatype Origin = FromCall | FromHandler(thread: nat, err: Option<Text>)

  datatype Outbound = Outbound(msg: Message, origin: Origin)

  datatype Inbound = Inbound(msg: Message, conn: ConnId, index: nat)

  /** Where the goroutine that accepts a message is. `Handling` lists the ack calls made so far. */
  datatype Accept = Arrived | Sending | Closing | Done | Handling(acks: seq<Option<Text>>)

  /** The message the writing loop has polled, and how many bytes of its frame are out. */
  datatype Flight = Idle | Writing(ticket: nat, out: nat)

  datatype Node = Node(
    calls: map<Uuid, Call>,
    waitingAcks: set<Uuid>,
    chans: map<Uuid, Chan>,
    enqueued: seq<Outbound>,  // every message given to WriteMessage; the queues hold indices into it
    queue: seq<nat>,
    flight: Flight,
    written: seq<nat>,        // history: the messages whose write succeeded, in order
    conn: Option<ConnId>,
    used: set<ConnId>,
    writing: bool,
    reading: bool,
    received: seq<Inbound>,   // every message decoded; the first |accepts| were taken off the read queue
    accepts: seq<Accept>,
    crashed: bool
  )

  const FRESH := Node(map[], {}, map[], [], [], Idle, [], None, {}, false, false, [], [], false)

  datatype State = State(left: Node, right: Node, wires: map<Link, Wire>) {
    function At(side: Side): (x: Node) {
      if side.Left? then left else right
    }
    function With(side: Side, x: Node): (s: State) {
      if side.Left? then this.(left := x) else this.(right := x)
    }
  }

  const INITIAL := State(FRESH, FRESH, map[])

  function WireOf(wires: map<Link, Wire>, l: Link): (w: Wire) {
    if l in wires then wires[l] else EMPTY
  }

  function AckText(err: Option<Text>): (t: Text) {
    if err.Some? then err.value else []
  }

  function NewAckMessage(uuid: Uuid, err: Option<Text>): (m: Message) {
    NewMessage(uuid, ACK, AckText(err))
  }

  predicate IsAck(m: Message) {
    m.header.opcode == ACK
  }

  /** What an ack message makes `accept` send on the channel. */
  function AckError(m: Message): (e: Option<Text>) {
    if m.header.length != 0 then Some(m.payload) else None
  }

  function FrameOf(x: Node, ticket: nat): (b: seq<Byte>)
    requires ticket < |x.enqueued|
  {
    Encode(x.enqueued[ticket].msg)
  }

  datatype Step =
    | Register(side: Side, uuid: Uuid, opcode: Byte, payload: seq<Byte>)
    | WriteRequest(side: Side, uuid: Uuid)
    | ReceiveAck(side: Side, uuid: Uuid)
    | GiveUp(side: Side, uuid: Uuid, cancelled: bool)
    | Return(side: Side, uuid: Uuid)
    | Attach(side: Side, conn: ConnId)
    | Poll(side: Side)
    | PutBytes(side: Side, n: nat)
    | WriteOk(side: Side)
    | WriteFail(side: Side, transient: bool)
    | StopWriting(side: Side)
    | ReadFrame(side: Side, visible: nat)
    | StopReading(side: Side)
    | Detach(side: Side)
    | Take(side: Side)
    | Lookup(side: Side, i: nat)
    | SendSignal(side: Side, i: nat)
    | CloseChan(side: Side, i: nat)
    | Handle(side: Side, i: nat)
    | Ack(side: Side, i: nat, err: Option<Text>)

  predicate Fits(payload: seq<Byte>) {
    |payload| < TWO_TO_32
  }

  /** Whether a step can happen. */
  predicate Enabled(s: State, step: Step) {
    var x := s.At(step.side);
    && !x.crashed
    && match step {
      // A call with the ack opcode is refused before it does anything; uuids are fresh.
      case Register(_, u, opcode, payload) =>
        opcode != ACK && Fits(payload) && u !in s.left.calls && u !in s.right.calls
      case WriteRequest(_, u) => u in x.calls && x.calls[u].phase.Registered?
      case ReceiveAck(_, u) =>
        && u in x.calls && u in x.chans && x.calls[u].phase.Waiting?
        && (x.chans[u].taken < |x.chans[u].sent| || x.chans[u].closers != [])
      case GiveUp(_, u, _) => u in x.calls && x.calls[u].phase.Waiting?
      case Return(_, u) => u in x.calls && x.calls[u].phase.Decided?
      case Attach(_, c) => x.conn.None? && c !in x.used
      case Poll(_) => x.writing && x.flight.Idle? && x.queue != []
      case PutBytes(_, n) =>
        && x.writing && x.conn.Some? && x.flight.Writing? && x.flight.ticket < |x.enqueued|
        && 0 < n && x.flight.out + n <= |FrameOf(x, x.flight.ticket)|
      case WriteOk(_) =>
        && x.writing && x.flight.Writing? && x.flight.ticket < |x.enqueued|
        && x.flight.out == |FrameOf(x, x.flight.ticket)|
      // A transient error put no byte on the wire.
      case WriteFail(_, transient) => x.writing && x.flight.Writing? && (transient ==> x.flight.out == 0)
      case StopWriting(_) => x.writing && x.flight.Idle?
      case ReadFrame(side, visible) =>
        && x.reading && x.conn.Some?
        && var w := WireOf(s.wires, Link(side.Peer(), x.conn.value));
           w.pos <= visible <= |w.bytes| && DecodeFrame(w.bytes[w.pos..visible], EOF).Frame?
      case StopReading(_) => x.reading
      case Detach(_) => x.conn.Some? && !x.writing && !x.reading
      case Take(_) => |x.accepts| < |x.received|
      case Lookup(_, i) => i < |x.accepts| && i < |x.received| && x.accepts[i].Arrived? && IsAck(x.received[i].msg)
      // Sending on a full channel blocks; sending on a closed one panics.
      case SendSignal(_, i) =>
        && i < |x.accepts| && i < |x.received| && x.accepts[i].Sending?
        && var u := x.received[i].msg.header.uuid;
           u in x.chans && (x.chans[u].closers != [] || |x.chans[u].sent| <= x.chans[u].taken)
      case CloseChan(_, i) =>
        i < |x.accepts| && i < |x.received| && x.accepts[i].Closing? && x.received[i].msg.header.uuid in x.chans
      case Handle(_, i) => i < |x.accepts| && i < |x.received| && x.accepts[i].Arrived? && !IsAck(x.received[i].msg)
      // The handler, or anyone it gave the message to, may call the ack function at any time and again.
      case Ack(_, i, err) => i < |x.accepts| && i < |x.received| && x.accepts[i].Handling? && Fits(AckText(err))
    }
  }

  function WriteMessage(x: Node, o: Outbound): (y: Node) {
    x.(enqueued := x.enqueued + [o], queue := x.queue + [|x.enqueued|])
  }

  function WithPhase(x: Node, u: Uuid, p: Phase): (y: Node)
    requires u in x.calls
  {
    x.(calls := x.calls[u := x.calls[u].(phase := p)])
  }

  function PutOnWire(w: Wire, msg: Message, ticket: nat, out: nat, n: nat): (w': Wire)
    requires out + n <= |Encode(msg)|
  {
    var b := w.(bytes := w.bytes + Encode(msg)[out..out + n]);
    if out + n == |Encode(msg)| then b.(frames := w.frames + [msg], tickets := w.tickets + [ticket], torn := [])
    else b.(torn := w.torn + Encode(msg)[out..out + n])
  }

  /** The state after a step. */
  function Apply(s: State, step: Step): (s': State)
    requires Enabled(s, step)
  {
    var side := step.side;
    var x := s.At(side);
    match step {
      case Register(_, u, opcode, payload) =>
        s.With(side, x.(calls := x.calls[u := Call(opcode, payload, Registered)],
                        waitingAcks := x.waitingAcks + {u},
                        chans := x.chans[u := Chan([], 0, [])]))
      case WriteRequest(_, u) =>
        var msg := NewMessage(u, x.calls[u].opcode, x.calls[u].payload);
        s.With(side, WriteMessage(WithPhase(x, u, Waiting), Outbound(msg, FromCall)))
      case ReceiveAck(_, u) =>
        var ch := x.chans[u];
        if ch.taken < |ch.sent| then
          var y := WithPhase(x, u, Decided(Acked(ch.sent[ch.taken].err)));
          s.With(side, y.(chans := x.chans[u := ch.(taken := ch.taken + 1)]))
        else
          // Receiving from a closed and drained channel gives a nil error.
          s.With(side, WithPhase(x, u, Decided(Acked(None))))
      case GiveUp(_, u, cancelled) => s.With(side, WithPhase(x, u, Decided(if cancelled then Cancelled else TimedOut)))
      case Return(_, u) =>
        s.With(side, WithPhase(x, u, Returned(x.calls[u].phase.outcome)).(waitingAcks := x.waitingAcks - {u}))
      case Attach(_, c) => s.With(side, x.(conn := Some(c), used := x.used + {c}, writing := true, reading := true))
      case Poll(_) => s.With(side, x.(queue := x.queue[1..], flight := Writing(x.queue[0], 0)))
      case PutBytes(_, n) =>
        var Writing(t, out) := x.flight;
        var l := Link(side, x.conn.value);
        s.With(side, x.(flight := Writing(t, out + n)))
        .(wires := s.wires[l := PutOnWire(WireOf(s.wires, l), x.enqueued[t].msg, t, out, n)])
      case WriteOk(_) => s.With(side, x.(flight := Idle, written := x.written + [x.flight.ticket]))
      case WriteFail(_, transient) =>
        s.With(side, x.(flight := Idle, queue := [x.flight.ticket] + x.queue, writing := transient))
      case StopWriting(_) => s.With(side, x.(writing := false))
      case ReadFrame(_, visible) =>
        var l := Link(side.Peer(), x.conn.value);
        var w := WireOf(s.wires, l);
        var d := DecodeFrame(w.bytes[w.pos..visible], EOF);
        s.With(side, x.(received := x.received + [Inbound(d.msg, x.conn.value, w.got)]))
        .(wires := s.wires[l := w.(pos := w.pos + d.size, got := w.got + 1)])
      case StopReading(_) => s.With(side, x.(reading := false))
      case Detach(_) => s.With(side, x.(conn := None))
      case Take(_) => s.With(side, x.(accepts := x.accepts + [Arrived]))
      case Lookup(_, i) =>
        var found := x.received[i].msg.header.uuid in x.waitingAcks;
        s.With(side, x.(accepts := x.accepts[i := if found then Sending else Done]))
      case SendSignal(_, i) =>
        var u := x.received[i].msg.header.uuid;
        var ch := x.chans[u];
        if ch.closers != [] then s.With(side, x.(crashed := true))
        else
          s.With(side, x.(accepts := x.accepts[i := Closing],
                          chans := x.chans[u := ch.(sent := ch.sent + [Signal(AckError(x.received[i].msg), i)])]))
      case CloseChan(_, i) =>
        var u := x.received[i].msg.header.uuid;
        var ch := x.chans[u];
        if ch.closers != [] then s.With(side, x.(crashed := true))
        else s.With(side, x.(accepts := x.accepts[i := Done], chans := x.chans[u := ch.(closers := ch.closers + [i])]))
      case Handle(_, i) => s.With(side, x.(accepts := x.accepts[i := Handling([])]))
      case Ack(_, i, err) =>
        var msg := NewAckMessage(x.received[i].msg.header.uuid, err);
        var y := x.(accepts := x.accepts[i := Handling(x.accepts[i].acks + [err])]);
        s.With(side, WriteMessage(y, Outbound(msg, FromHandler(i, err))))
    }
  }

  /** A run: every step is possible where it is taken. */
  ghost predicate Run(s: State, steps: seq<Step>)
    decreases |steps|
  {
    steps != [] ==> Enabled(s, steps[0]) && Run(Apply(s, steps[0]), steps[1..])
  }

  ghost function After(s: State, steps: seq<Step>): (s': State)
    requires Run(s, steps)
    decreases |steps|
  {
    if steps == [] then s else After(Apply(s, steps[0]), steps[1..])
  }

  /** A disciplined step: a write that fails left only a strict prefix of its frame, and no handler acks a message it
      has already acked. */
  predicate Disciplined(s: State, step: Step)
    requires Enabled(s, step)
  {
    var x := s.At(step.side);
    match step
    case WriteFail(_, _) => x.flight.ticket < |x.enqueued| ==> x.flight.out < |FrameOf(x, x.flight.ticket)|
    case Ack(_, i, _) => x.accepts[i].acks == []
    case _ => true
  }

  ghost predicate DisciplinedRun(s: State, steps: seq<Step>)
    requires Run(s, steps)
    decreases |steps|
  {
    steps != [] ==> Disciplined(s, steps[0]) && DisciplinedRun(Apply(s, steps[0]), steps[1..])
  }
}
