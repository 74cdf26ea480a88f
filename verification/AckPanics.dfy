/**
  Panics: what every run to one has in common, and runs from the initial state to one. The latter show that neither half
  of the discipline can be dropped: not that a failed write leaves a strict prefix of its frame, and not that a message
  is acked once. One more run shows that a send can fail although its message was handled.
*/
module AckPanics {
  import opened Bytes
  import opened Frames
  import opened AckProtocol
  import opened AckInvariant
  import opened AckTheorems
  import opened AckAtMostOnce
  import opened Handlers

  // ---- A panic needs two acks of one uuid ----

  ghost predicate PanicsExplained(x: Node) {
    x.crashed ==> !AcksOnce(x.received)
  }

  /** Only sending on a channel and closing it can panic. */
  lemma OtherStepsDoNotPanic(s: State, step: Step)
    requires Enabled(s, step) && !step.SendSignal? && !step.CloseChan?
    ensures !Apply(s, step).At(step.side).crashed
  {
    hide DecodeFrame, Encode, PutOnWire, WireOf, NewAckMessage, AckError;
  }

  lemma ReadyDoesNotPanic(s: State, step: Step)
    requires Enabled(s, step) && (step.SendSignal? || step.CloseChan?)
    requires ChannelReady(s.At(step.side), step.i)
    ensures !Apply(s, step).At(step.side).crashed
  {
    hide AckError;
  }

  lemma MoreReceived(received: seq<Inbound>, received': seq<Inbound>)
    requires received <= received' && AcksOnce(received')
    ensures AcksOnce(received)
  {
    forall u, i: nat | AckFor(u, i, received) ensures AckFor(u, i, received') {}
  }

  lemma KeepPanicsExplained(s: State, step: Step, side: Side)
    requires Invariant(s) && Enabled(s, step) && PanicsExplained(s.At(side))
    ensures PanicsExplained(Apply(s, step).At(side))
  {
    hide Apply, Invariant, NodeOk, AcksOnce, Encode, DecodeFrame, ChannelReady;
    AckCallsEffect(s, step);
    if side == step.side {
      var x, y := s.At(side), Apply(s, step).At(side);
      if !step.SendSignal? && !step.CloseChan? {
        OtherStepsDoNotPanic(s, step);
      } else if AcksOnce(y.received) {
        MoreReceived(x.received, y.received);
        NodeAt(s, side);
        ReadyIfOnce(side, x, s.wires, step.i);
        ReadyDoesNotPanic(s, step);
      }
    }
  }

  lemma {:induction false} PanicsExplainedAlong(s: State, steps: seq<Step>, side: Side)
    requires Invariant(s) && PanicsExplained(s.At(side)) && Run(s, steps)
    ensures PanicsExplained(After(s, steps).At(side))
    decreases |steps|
  {
    hide Enabled, Apply, Invariant, PanicsExplained;
    if steps != [] {
      KeepPanicsExplained(s, steps[0], side);
      KeepInvariant(s, steps[0]);
      PanicsExplainedAlong(Apply(s, steps[0]), steps[1..], side);
    }
  }

  /** In every run, disciplined or not, a node panics only if it decoded two acks of the same uuid. */
  lemma PanicNeedsTwoAcks(steps: seq<Step>, side: Side)
    requires Run(INITIAL, steps) && After(INITIAL, steps).At(side).crashed
    ensures !AcksOnce(After(INITIAL, steps).At(side).received)
  {
    hide Enabled, Apply, Invariant, AcksOnce;
    InitialOk();
    PanicsExplainedAlong(INITIAL, steps, side);
  }

  // ---- The runs ----

  const TREES := Trees(Noop, Noop)

  ghost predicate NoFailedWrite(steps: seq<Step>) {
    forall i :: 0 <= i < |steps| ==> !steps[i].WriteFail?
  }

  /** A run from the initial state to `s`; with `tree` its acks are those of no-op handlers, and otherwise no write
      fails. */
  ghost predicate Reaches(steps: seq<Step>, s: State, tree: bool) {
    && Run(INITIAL, steps) && After(INITIAL, steps) == s
    && (if tree then TreeRun(TREES, INITIAL, steps) else NoFailedWrite(steps))
  }

  ghost predicate Allowed(s: State, step: Step, tree: bool)
    requires Enabled(s, step)
  {
    if tree then Obeys(TREES, s, step) else !step.WriteFail?
  }

  lemma {:induction false} RunSnoc(s: State, steps: seq<Step>, step: Step)
    requires Run(s, steps) && Enabled(After(s, steps), step)
    ensures Run(s, steps + [step]) && After(s, steps + [step]) == Apply(After(s, steps), step)
    ensures TreeRun(TREES, s, steps) && Obeys(TREES, After(s, steps), step) ==> TreeRun(TREES, s, steps + [step])
    decreases |steps|
  {
    hide Enabled, Apply, Obeys;
    if steps == [] {
      assert (steps + [step])[0] == step && (steps + [step])[1..] == [];
    } else {
      assert (steps + [step])[0] == steps[0] && (steps + [step])[1..] == steps[1..] + [step];
      RunSnoc(Apply(s, steps[0]), steps[1..], step);
    }
  }

  /** Takes one more step. */
  lemma Go(steps: seq<Step>, s: State, step: Step, tree: bool) returns (steps': seq<Step>, s': State)
    requires Reaches(steps, s, tree) && Enabled(s, step) && Allowed(s, step, tree)
    ensures s' == Apply(s, step) && Reaches(steps', s', tree)
  {
    hide Enabled, Apply, Obeys, Run, After, TreeRun;
    RunSnoc(INITIAL, steps, step);
    steps', s' := steps + [step], Apply(s, step);
  }

  lemma Begin(tree: bool)
    ensures Reaches([], INITIAL, tree)
  {
  }

  // ---- The states the runs pass through ----

  /** The arguments of the one call made. */
  datatype Args = Args(uuid: Uuid, opcode: Byte, payload: seq<Byte>) {
    ghost predicate Ok() {
      opcode != ACK && Fits(payload)
    }
    function Request(): (m: Message) {
      NewMessage(uuid, opcode, payload)
    }
    function Reply(err: Option<Text> := None): (m: Message) {
      NewAckMessage(uuid, err)
    }
  }

  function Caller(a: Args, conn: ConnId, used: set<ConnId>, received: seq<Inbound>): (x: Node) {
    Node(map[a.uuid := Call(a.opcode, a.payload, Waiting)], {a.uuid}, map[a.uuid := Chan([], 0, [])],
         [Outbound(a.Request(), FromCall)], [], Idle, [0], Some(conn), used, true, true, received, [], false)
  }

  function Replies(a: Args, acks: seq<Option<Text>>): (os: seq<Outbound>) {
    seq(|acks|, i requires 0 <= i < |acks| => Outbound(a.Reply(acks[i]), FromHandler(0, acks[i])))
  }

  lemma RepliesSnoc(a: Args, acks: seq<Option<Text>>, err: Option<Text>)
    ensures Replies(a, acks) + [Outbound(a.Reply(err), FromHandler(0, err))] == Replies(a, acks + [err])
  {
  }

  function Callee(a: Args, acks: seq<Option<Text>>, queue: seq<nat>, written: seq<nat>, conn: ConnId,
                  used: set<ConnId>, writing: bool): (x: Node)
  {
    Node(map[], {}, map[], Replies(a, acks),
         queue, Idle, written, Some(conn), used, writing, true, [Inbound(a.Request(), 0, 0)], [Handling(acks)], false)
  }

  function Sent(m: Message): (w: Wire) {
    Wire(Encode(m), 0, [m], [0], [], 0)
  }

  function Read(m: Message): (w: Wire) {
    Wire(Encode(m), |Encode(m)|, [m], [0], [], 1)
  }

  lemma WholeFrame(m: Message)
    requires WellFormed(m)
    ensures DecodeFrame(Encode(m)[0..|Encode(m)|], EOF) == Frame(m, |Encode(m)|)
  {
    assert Encode(m)[0..|Encode(m)|] == Encode(m) + [];
    DecodeEncode(m, [], EOF);
  }

  lemma FirstFrame(m: Message)
    ensures PutOnWire(EMPTY, m, 0, 0, |Encode(m)|) == Sent(m)
  {
    hide Encode;
    assert [] + Encode(m)[0..|Encode(m)|] == Encode(m);
    assert [] + [m] == [m] && [] + [0] == [0];
  }

  // ---- Both runs begin alike ----

  /** The caller once its request is queued. */
  function Queued(a: Args): (x: Node) {
    FRESH.(calls := map[a.uuid := Call(a.opcode, a.payload, Waiting)], waitingAcks := {a.uuid},
           chans := map[a.uuid := Chan([], 0, [])], enqueued := [Outbound(a.Request(), FromCall)], queue := [0])
  }

  lemma Enqueue(a: Args, tree: bool) returns (steps: seq<Step>, s: State)
    requires a.Ok()
    ensures Reaches(steps, s, tree) && s == State(Queued(a), FRESH, map[])
  {
    hide Reaches, Encode, DecodeFrame, PutOnWire, WireOf, NewMessage;
    Begin(tree);
    steps, s := [], INITIAL;
    steps, s := Go(steps, s, Register(Left, a.uuid, a.opcode, a.payload), tree);
    steps, s := Go(steps, s, WriteRequest(Left, a.uuid), tree);
    assert s.left == Queued(a);
  }

  /** The call is registered and queued, and both nodes are connected. */
  lemma Connect(a: Args, tree: bool) returns (steps: seq<Step>, s: State)
    requires a.Ok()
    ensures Reaches(steps, s, tree)
    ensures s == State(Caller(a, 0, {0}, []).(queue := [0], written := []),
                       FRESH.(conn := Some(0), used := {0}, writing := true, reading := true), map[])
  {
    hide Reaches, Encode, DecodeFrame, PutOnWire, WireOf, NewMessage;
    steps, s := Enqueue(a, tree);
    steps, s := Go(steps, s, Attach(Left, 0), tree);
    steps, s := Go(steps, s, Attach(Right, 0), tree);
    assert s.left == Caller(a, 0, {0}, []).(queue := [0], written := []);
  }

  /** The request is written. */
  lemma Flush(a: Args, tree: bool) returns (steps: seq<Step>, s: State)
    requires a.Ok()
    ensures Reaches(steps, s, tree)
    ensures s == State(Caller(a, 0, {0}, []).(flight := Writing(0, |Encode(a.Request())|), written := []),
                       FRESH.(conn := Some(0), used := {0}, writing := true, reading := true),
                       map[Link(Left, 0) := Sent(a.Request())])
  {
    hide Reaches, Encode, DecodeFrame, NewMessage, PutOnWire;
    steps, s := Connect(a, tree);
    steps, s := Go(steps, s, Poll(Left), tree);
    FirstFrame(a.Request());
    steps, s := Go(steps, s, PutBytes(Left, |Encode(a.Request())|), tree);
  }

  lemma Write(a: Args, tree: bool) returns (steps: seq<Step>, s: State)
    requires a.Ok()
    ensures Reaches(steps, s, tree)
    ensures s == State(Caller(a, 0, {0}, []),
                       FRESH.(conn := Some(0), used := {0}, writing := true, reading := true),
                       map[Link(Left, 0) := Sent(a.Request())])
  {
    hide Reaches, Encode, DecodeFrame, NewMessage, PutOnWire, WireOf, Sent;
    steps, s := Flush(a, tree);
    steps, s := Go(steps, s, WriteOk(Left), tree);
    assert s.left == Caller(a, 0, {0}, []);
  }

  /** The request is read and its handler started. */
  lemma Deliver(a: Args, tree: bool) returns (steps: seq<Step>, s: State)
    requires a.Ok()
    ensures Reaches(steps, s, tree)
    ensures s == State(Caller(a, 0, {0}, []), Callee(a, [], [], [], 0, {0}, true),
                       map[Link(Left, 0) := Read(a.Request())])
  {
    hide Reaches, Encode, DecodeFrame, PutOnWire, NewAckMessage, WireOf;
    steps, s := ReadRequest(a, tree);
    steps, s := Go(steps, s, Take(Right), tree);
    steps, s := Go(steps, s, Handle(Right, 0), tree);
    assert s.right == Callee(a, [], [], [], 0, {0}, true);
  }

  lemma ReadRequest(a: Args, tree: bool) returns (steps: seq<Step>, s: State)
    requires a.Ok()
    ensures Reaches(steps, s, tree)
    ensures s == State(Caller(a, 0, {0}, []), Callee(a, [], [], [], 0, {0}, true).(accepts := []),
                       map[Link(Left, 0) := Read(a.Request())])
  {
    hide Reaches, Encode, DecodeFrame, PutOnWire, NewAckMessage;
    steps, s := Write(a, tree);
    WholeFrame(a.Request());
    steps, s := Go(steps, s, ReadFrame(Right, |Encode(a.Request())|), tree);
    assert s.right == Callee(a, [], [], [], 0, {0}, true).(accepts := []);
  }

  /** The handler acks, possibly not for the first time. */
  lemma AckOnce(a: Args, steps: seq<Step>, s: State, acks: seq<Option<Text>>, queue: seq<nat>, err: Option<Text>,
                tree: bool)
      returns (steps': seq<Step>, s': State)
    requires Reaches(steps, s, tree) && s.right == Callee(a, acks, queue, [], 0, {0}, true)
    requires Fits(AckText(err)) && (tree ==> acks == [] && err.None?)
    ensures Reaches(steps', s', tree) && s' == s.(right := Callee(a, acks + [err], queue + [|acks|], [], 0, {0}, true))
    ensures acks == [] && queue == [] ==> s'.right == Callee(a, [err], [0], [], 0, {0}, true)
  {
    hide Reaches, Encode, DecodeFrame;
    steps', s' := Go(steps, s, Ack(Right, 0, err), tree);
    assert acks == [] ==> acks + [err] == [err];
    assert queue == [] ==> queue + [|acks|] == [|acks|];
    RepliesSnoc(a, acks, err);
  }

  /** The caller has decoded the ack twice. */
  ghost predicate DecodedTwice(a: Args, x: Node, conn: ConnId, c: ConnId, i: nat) {
    exists used :: x == Caller(a, conn, used, [Inbound(a.Reply(), 0, 0), Inbound(a.Reply(), c, i)])
  }

  /** Two goroutines take the two acks, find the same channel, and the second one sends after the first has
      closed it. */
  lemma Finish(a: Args, steps: seq<Step>, s: State, conn: ConnId, c: ConnId, i: nat, tree: bool)
      returns (steps': seq<Step>, s': State)
    requires Reaches(steps, s, tree) && DecodedTwice(a, s.left, conn, c, i)
    ensures Reaches(steps', s', tree) && s'.left.crashed
  {
    hide Reaches, Encode, DecodeFrame, PutOnWire, WireOf;
    steps', s' := TakeBoth(a, steps, s, conn, c, i, tree);
    SendOpens(s', Left, 0, 1);
    steps', s' := Go(steps', s', SendSignal(Left, 0), tree);
    hide Enabled, Apply;
    CloseCloses(s', Left, 0, 1);
    steps', s' := Go(steps', s', CloseChan(Left, 0), tree);
    SendOnClosed(s', Left, 1);
    steps', s' := Go(steps', s', SendSignal(Left, 1), tree);
  }

  lemma TakeBoth(a: Args, steps: seq<Step>, s: State, conn: ConnId, c: ConnId, i: nat, tree: bool)
      returns (steps': seq<Step>, s': State)
    requires Reaches(steps, s, tree) && DecodedTwice(a, s.left, conn, c, i)
    ensures Reaches(steps', s', tree) && s'.left == s.left.(accepts := [Sending, Sending])
  {
    hide Reaches, Encode, DecodeFrame, PutOnWire, WireOf, NewMessage;
    steps', s' := Go(steps, s, Take(Left), tree);
    steps', s' := Go(steps', s', Take(Left), tree);
    assert s'.left.accepts == [Arrived, Arrived];
    steps', s' := LookUpBoth(a, steps', s', tree);
  }

  lemma LookUpBoth(a: Args, steps: seq<Step>, s: State, tree: bool) returns (steps': seq<Step>, s': State)
    requires Reaches(steps, s, tree)
    requires s.left.accepts == [Arrived, Arrived] && !s.left.crashed && |s.left.received| == 2
    requires s.left.received[0].msg == s.left.received[1].msg == a.Reply() && a.uuid in s.left.waitingAcks
    ensures Reaches(steps', s', tree) && s'.left == s.left.(accepts := [Sending, Sending])
  {
    hide Reaches, Encode, DecodeFrame, PutOnWire, WireOf;
    steps', s' := Go(steps, s, Lookup(Left, 0), tree);
    steps', s' := Go(steps', s', Lookup(Left, 1), tree);
    assert s'.left.accepts == [Sending, Sending];
  }

  // ---- A send that fails although its message was handled ----

  /** For every call there is a run of two nodes with no-op handlers in which the peer handled and acked the message and
      the send timed out all the same. */
  lemma TimedOutAfterHandling(a: Args) returns (steps: seq<Step>)
    requires a.Ok()
    ensures Run(INITIAL, steps) && TreeRun(TREES, INITIAL, steps)
    ensures var s := After(INITIAL, steps);
            HandledWith(s, Left, a.uuid, 0, None) && s.left.calls[a.uuid].phase == Decided(TimedOut)
  {
    var s;
    steps, s := GiveUpHandled(a);
  }

  lemma GiveUpHandled(a: Args) returns (steps: seq<Step>, s: State)
    requires a.Ok()
    ensures Reaches(steps, s, true)
    ensures HandledWith(s, Left, a.uuid, 0, None) && s.left.calls[a.uuid].phase == Decided(TimedOut)
  {
    hide Reaches, Encode, DecodeFrame, PutOnWire, WireOf;
    steps, s := Deliver(a, true);
    steps, s := AckOnce(a, steps, s, [], [], None, true);
    steps, s := Go(steps, s, GiveUp(Left, a.uuid, false), true);
  }

  // ---- A write that fails after its last byte ----

  /** The ack is out in full when its write fails, so it is queued again. */
  lemma FailLate(a: Args) returns (steps: seq<Step>, s: State)
    requires a.Ok()
    ensures Reaches(steps, s, true)
    ensures s == State(Caller(a, 0, {0}, []), Callee(a, [None], [0], [], 0, {0}, false),
                       map[Link(Left, 0) := Read(a.Request()), Link(Right, 0) := Sent(a.Reply())])
  {
    hide Reaches, Encode, DecodeFrame, PutOnWire, NewMessage;
    steps, s := Deliver(a, true);
    steps, s := AckOnce(a, steps, s, [], [], None, true);
    steps, s := Go(steps, s, Poll(Right), true);
    FirstFrame(a.Reply());
    steps, s := Go(steps, s, PutBytes(Right, |Encode(a.Reply())|), true);
    steps, s := Go(steps, s, WriteFail(Right, false), true);
    assert s.right.queue == [0];
  }

  /** The caller reads the ack. */
  lemma ReadFirst(a: Args) returns (steps: seq<Step>, s: State)
    requires a.Ok()
    ensures Reaches(steps, s, true)
    ensures s == State(Caller(a, 0, {0}, [Inbound(a.Reply(), 0, 0)]), Callee(a, [None], [0], [], 0, {0}, false),
                       map[Link(Left, 0) := Read(a.Request()), Link(Right, 0) := Read(a.Reply())])
  {
    hide Reaches, Encode, DecodeFrame, PutOnWire, Replies;
    steps, s := FailLate(a);
    WholeFrame(a.Reply());
    steps, s := Go(steps, s, ReadFrame(Left, |Encode(a.Reply())|), true);
    assert s.left == Caller(a, 0, {0}, [Inbound(a.Reply(), 0, 0)]);
  }

  /** Both nodes leave the connection. */
  lemma CalleeLeaves(a: Args) returns (steps: seq<Step>, s: State)
    requires a.Ok()
    ensures Reaches(steps, s, true)
    ensures s == State(Caller(a, 0, {0}, [Inbound(a.Reply(), 0, 0)]),
                       Callee(a, [None], [0], [], 0, {0}, false).(conn := None, reading := false),
                       map[Link(Left, 0) := Read(a.Request()), Link(Right, 0) := Read(a.Reply())])
  {
    hide Reaches, Encode, DecodeFrame, PutOnWire, WireOf, Read, Replies, NewMessage;
    steps, s := ReadFirst(a);
    steps, s := Go(steps, s, StopReading(Right), true);
    steps, s := Go(steps, s, Detach(Right), true);
  }

  lemma BothLeave(a: Args) returns (steps: seq<Step>, s: State)
    requires a.Ok()
    ensures Reaches(steps, s, true)
    ensures s == State(Caller(a, 0, {0}, [Inbound(a.Reply(), 0, 0)]).(conn := None, writing := false, reading := false),
                       Callee(a, [None], [0], [], 0, {0}, false).(conn := None, reading := false),
                       map[Link(Left, 0) := Read(a.Request()), Link(Right, 0) := Read(a.Reply())])
  {
    hide Reaches, Encode, DecodeFrame, PutOnWire, WireOf, Read, Replies, NewMessage;
    steps, s := CalleeLeaves(a);
    steps, s := Go(steps, s, StopReading(Left), true);
    steps, s := Go(steps, s, StopWriting(Left), true);
    steps, s := Go(steps, s, Detach(Left), true);
  }

  /** On the next connection the ack is written again. */
  lemma WriteAgain(a: Args) returns (steps: seq<Step>, s: State)
    requires a.Ok()
    ensures Reaches(steps, s, true)
    ensures s.left == Caller(a, 1, {0, 1}, [Inbound(a.Reply(), 0, 0)])
    ensures Link(Right, 1) in s.wires && s.wires[Link(Right, 1)] == Sent(a.Reply())
  {
    hide Reaches, Encode, DecodeFrame, PutOnWire, NewMessage;
    steps, s := BothLeave(a);
    steps, s := Go(steps, s, Attach(Left, 1), true);
    steps, s := Go(steps, s, Attach(Right, 1), true);
    steps, s := Go(steps, s, Poll(Right), true);
    FirstFrame(a.Reply());
    steps, s := Go(steps, s, PutBytes(Right, |Encode(a.Reply())|), true);
    assert s.left.used == {0, 1};
  }

  /** Strict prefixes are needed: for every call there is a run of two nodes with no-op handlers in which one write
      fails after its last byte and the caller's node panics. */
  lemma LateWriteFailurePanics(a: Args) returns (steps: seq<Step>)
    requires a.Ok()
    ensures Run(INITIAL, steps) && TreeRun(TREES, INITIAL, steps) && After(INITIAL, steps).left.crashed
  {
    hide Encode, DecodeFrame;
    var s;
    steps, s := WriteAgain(a);
    steps, s := ReadSecond(a, steps, s);
    steps, s := Finish(a, steps, s, 1, 1, 0, true);
  }

  lemma ReadSecond(a: Args, steps: seq<Step>, s: State) returns (steps': seq<Step>, s': State)
    requires Reaches(steps, s, true) && s.left == Caller(a, 1, {0, 1}, [Inbound(a.Reply(), 0, 0)])
    requires Link(Right, 1) in s.wires && s.wires[Link(Right, 1)] == Sent(a.Reply())
    ensures Reaches(steps', s', true) && DecodedTwice(a, s'.left, 1, 1, 0)
  {
    hide Reaches, Encode, DecodeFrame;
    WholeFrame(a.Reply());
    steps', s' := Go(steps, s, ReadFrame(Left, |Encode(a.Reply())|), true);
    assert s'.left == Caller(a, 1, {0, 1}, [Inbound(a.Reply(), 0, 0), Inbound(a.Reply(), 1, 0)]);
  }

  // ---- A handler that acks twice ----

  function SentTwice(m: Message): (w: Wire) {
    Wire(Encode(m) + Encode(m), 0, [m, m], [0, 1], [], 0)
  }

  lemma SecondFrame(m: Message)
    ensures PutOnWire(Sent(m), m, 1, 0, |Encode(m)|) == SentTwice(m)
  {
    hide Encode;
    assert Encode(m)[0..|Encode(m)|] == Encode(m);
    assert [m] + [m] == [m, m] && [0] + [1] == [0, 1];
  }

  /** Two acks, both written without a failure. */
  lemma WriteTwo(a: Args) returns (steps: seq<Step>, s: State)
    requires a.Ok()
    ensures Reaches(steps, s, false)
    ensures s.left == Caller(a, 0, {0}, [])
    ensures Link(Right, 0) in s.wires && s.wires[Link(Right, 0)] == SentTwice(a.Reply())
  {
    hide Reaches, Encode, DecodeFrame, PutOnWire, NewMessage;
    steps, s := Deliver(a, false);
    steps, s := AckOnce(a, steps, s, [], [], None, false);
    steps, s := AckOnce(a, steps, s, [None], [0], None, false);
    steps, s := Go(steps, s, Poll(Right), false);
    FirstFrame(a.Reply());
    steps, s := Go(steps, s, PutBytes(Right, |Encode(a.Reply())|), false);
    steps, s := Go(steps, s, WriteOk(Right), false);
    steps, s := Go(steps, s, Poll(Right), false);
    SecondFrame(a.Reply());
    steps, s := Go(steps, s, PutBytes(Right, |Encode(a.Reply())|), false);
  }

  lemma ReadTwo(a: Args, steps: seq<Step>, s: State) returns (steps': seq<Step>, s': State)
    requires Reaches(steps, s, false) && s.left == Caller(a, 0, {0}, [])
    requires Link(Right, 0) in s.wires && s.wires[Link(Right, 0)] == SentTwice(a.Reply())
    ensures Reaches(steps', s', false) && DecodedTwice(a, s'.left, 0, 0, 1)
  {
    hide Reaches, Encode, DecodeFrame;
    var frame := Encode(a.Reply());
    WholeFrame(a.Reply());
    assert (frame + frame)[0..|frame|] == frame[0..|frame|];
    assert (frame + frame)[|frame|..2 * |frame|] == frame[0..|frame|];
    steps', s' := Go(steps, s, ReadFrame(Left, |frame|), false);
    steps', s' := Go(steps', s', ReadFrame(Left, 2 * |frame|), false);
    assert s'.left == Caller(a, 0, {0}, [Inbound(a.Reply(), 0, 0), Inbound(a.Reply(), 0, 1)]);
  }

  /** Acking once is needed: for every call there is a run with no failed write in which the handler acks twice and the
      caller's node panics. */
  lemma DoubleAckPanics(a: Args) returns (steps: seq<Step>)
    requires a.Ok()
    ensures Run(INITIAL, steps) && NoFailedWrite(steps) && WritesDisciplined(INITIAL, steps)
    ensures After(INITIAL, steps).left.crashed
  {
    hide Encode, DecodeFrame;
    var s;
    steps, s := WriteTwo(a);
    steps, s := ReadTwo(a, steps, s);
    steps, s := Finish(a, steps, s, 0, 0, 1, false);
    NoneFailedIsDisciplined(INITIAL, steps);
  }

  lemma {:induction false} NoneFailedIsDisciplined(s: State, steps: seq<Step>)
    requires Run(s, steps) && NoFailedWrite(steps)
    ensures WritesDisciplined(s, steps)
    decreases |steps|
  {
    hide Enabled, Apply, Disciplined;
    if steps != [] {
      NoneFailedIsDisciplined(Apply(s, steps[0]), steps[1..]);
    }
  }
}
