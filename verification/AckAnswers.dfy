/**
  Answers: what a call is told when its ack arrives, in every run, and for every way a call can end a run from the
  initial state in which it ends that way.
*/
module AckAnswers {
  import opened Bytes
  import opened Frames
  import opened AckProtocol
  import opened AckInvariant
  import opened AckTheorems
  import opened AckAtMostOnce
  import opened Handlers
  import opened AckPanics

  // ---- Every run ----

  /** Whenever a call can take what its channel offers, it ends with what an ack of its own uuid carries. */
  lemma AnswerIsTheAck(steps: seq<Step>, side: Side, u: Uuid) returns (i: nat)
    requires Run(INITIAL, steps) && Enabled(After(INITIAL, steps), ReceiveAck(side, u))
    ensures var x, y := After(INITIAL, steps).At(side), Apply(After(INITIAL, steps), ReceiveAck(side, u)).At(side);
            && AckFor(u, i, x.received) && u in y.calls
            && y.calls[u].phase == Decided(Acked(AckError(x.received[i].msg)))
  {
    var s := After(INITIAL, steps);
    InitialOk();
    InvariantAlong(INITIAL, steps);
    i := FirstSignal(s, side, u);
  }

  lemma FirstSignal(s: State, side: Side, u: Uuid) returns (i: nat)
    requires Invariant(s) && Enabled(s, ReceiveAck(side, u))
    ensures AckFor(u, i, s.At(side).received)
    ensures var y := Apply(s, ReceiveAck(side, u)).At(side);
            u in y.calls && y.calls[u].phase == Decided(Acked(AckError(s.At(side).received[i].msg)))
  {
    hide Conserved, WiresOk, ReceivedOk, FlightOk, OriginsOk, AcceptsOk, AckError;
    var x := s.At(side);
    assert ChanOk(u, x.chans[u], x.calls[u].phase, x.accepts, x.received);
    i := x.chans[u].sent[0].sender;
  }

  /** A call whose ack was sent on its channel is not kept waiting. */
  lemma SignalledCallCanEnd(s: State, side: Side, i: nat)
    requires Invariant(s) && Enabled(s, SendSignal(side, i))
    ensures var s', u := Apply(s, SendSignal(side, i)), s.At(side).received[i].msg.header.uuid;
            && u in s.At(side).calls
            && (!s'.At(side).crashed && s.At(side).calls[u].phase.Waiting? ==> Enabled(s', ReceiveAck(side, u)))
  {
    SignalInBuffer(s, side, i);
    hide Invariant, NodeOk, Apply, Enabled;
    var s', u := Apply(s, SendSignal(side, i)), s.At(side).received[i].msg.header.uuid;
    NodeAt(s, side);
    ChanKnown(side, s.At(side), s.wires, u);
    if !s'.At(side).crashed && s.At(side).calls[u].phase.Waiting? {
      CanTake(s', side, u);
    }
  }

  lemma CanTake(s: State, side: Side, u: Uuid)
    requires var x := s.At(side);
             && !x.crashed && u in x.calls && x.calls[u].phase.Waiting?
             && u in x.chans && x.chans[u].taken < |x.chans[u].sent|
    ensures Enabled(s, ReceiveAck(side, u))
  {
  }

  lemma ChanKnown(side: Side, x: Node, wires: map<Link, Wire>, u: Uuid)
    requires NodeOk(side, x, wires) && u in x.chans
    ensures u in x.calls && x.chans[u].taken <= |x.chans[u].sent|
  {
    hide Conserved, WiresOk, ReceivedOk, FlightOk, OriginsOk, AcceptsOk;
    assert ChanOk(u, x.chans[u], x.calls[u].phase, x.accepts, x.received);
  }

  lemma SignalInBuffer(s: State, side: Side, i: nat)
    requires Enabled(s, SendSignal(side, i))
    ensures var x, y := s.At(side), Apply(s, SendSignal(side, i)).At(side);
            && i < |x.received|
            && var u := x.received[i].msg.header.uuid;
            && u in x.chans && y.calls == x.calls
            && (!y.crashed ==>
                  && u in y.chans && y.chans[u].taken == x.chans[u].taken
                  && |y.chans[u].sent| == |x.chans[u].sent| + 1)
  {
    hide AckError;
  }

  /** The call stays ended with the same outcome, and is still about the same message. */
  ghost predicate SameAnswer(x: Node, y: Node, u: Uuid)
    requires u in x.calls && Ended(x.calls[u])
  {
    && u in y.calls && Ended(y.calls[u]) && y.calls[u].phase.outcome == x.calls[u].phase.outcome
    && y.calls[u].opcode == x.calls[u].opcode && y.calls[u].payload == x.calls[u].payload
  }

  lemma CallStepKeepsAnswer(s: State, step: Step, u: Uuid)
    requires Enabled(s, step) && u in s.At(step.side).calls && Ended(s.At(step.side).calls[u])
    requires step.Register? || step.WriteRequest? || step.ReceiveAck? || step.GiveUp? || step.Return?
    ensures SameAnswer(s.At(step.side), Apply(s, step).At(step.side), u)
  {
  }

  lemma TransferKeepsCalls(s: State, step: Step)
    requires Enabled(s, step)
    requires step.Attach? || step.Poll? || step.PutBytes? || step.WriteOk? || step.WriteFail? || step.StopWriting?
          || step.ReadFrame? || step.StopReading? || step.Detach?
    ensures Apply(s, step).At(step.side).calls == s.At(step.side).calls
  {
    hide DecodeFrame, Encode, PutOnWire, WireOf, FrameOf;
  }

  lemma AcceptKeepsCalls(s: State, step: Step)
    requires Enabled(s, step) && (step.Take? || step.Lookup? || step.Handle? || step.Ack?)
    ensures Apply(s, step).At(step.side).calls == s.At(step.side).calls
  {
    hide NewAckMessage;
  }

  lemma SignalKeepsCalls(s: State, step: Step)
    requires Enabled(s, step) && (step.SendSignal? || step.CloseChan?)
    ensures Apply(s, step).At(step.side).calls == s.At(step.side).calls
  {
    hide AckError;
  }

  lemma StepKeepsAnswer(s: State, step: Step, side: Side, u: Uuid)
    requires Enabled(s, step) && u in s.At(side).calls && Ended(s.At(side).calls[u])
    ensures SameAnswer(s.At(side), Apply(s, step).At(side), u)
  {
    hide Enabled, Apply;
    if side != step.side {
      AckCallsEffect(s, step);
    } else if step.Register? || step.WriteRequest? || step.ReceiveAck? || step.GiveUp? || step.Return? {
      CallStepKeepsAnswer(s, step, u);
    } else if step.Take? || step.Lookup? || step.Handle? || step.Ack? {
      AcceptKeepsCalls(s, step);
    } else if step.SendSignal? || step.CloseChan? {
      SignalKeepsCalls(s, step);
    } else {
      TransferKeepsCalls(s, step);
    }
  }

  /** An answer is final: whatever happens after a call has ended, it keeps its outcome, and that is what it returns. */
  lemma {:induction false} AnswerIsFinal(s: State, steps: seq<Step>, side: Side, u: Uuid)
    requires Run(s, steps) && u in s.At(side).calls && Ended(s.At(side).calls[u])
    ensures SameAnswer(s.At(side), After(s, steps).At(side), u)
    decreases |steps|
  {
    hide Enabled, Apply;
    if steps != [] {
      StepKeepsAnswer(s, steps[0], side, u);
      AnswerIsFinal(Apply(s, steps[0]), steps[1..], side, u);
    }
  }

  /** A write that fails before its first byte puts everything back: the same message is polled next. The writer goes on
      exactly if the error is transient. */
  lemma FailedWriteIsUndone(s: State, side: Side, transient: bool)
    requires Enabled(s, Poll(side))
    ensures var s1 := Apply(s, Poll(side));
            && Enabled(s1, WriteFail(side, transient))
            && Apply(s1, WriteFail(side, transient)) == s.With(side, s.At(side).(writing := transient))
  {
    var x := s.At(side);
    assert [x.queue[0]] + x.queue[1..] == x.queue;
  }

  // ---- Runs to every answer ----

  /** What a call reports when a handler acked with `err`: an empty text is no error. */
  function Reported(err: Option<Text>): (o: Outcome) {
    Acked(if AckText(err) == [] then None else err)
  }

  /** The handler acks. */
  lemma AckWith(a: Args, err: Option<Text>, tree: bool) returns (steps: seq<Step>, s: State)
    requires a.Ok() && Fits(AckText(err)) && (tree ==> err.None?)
    ensures Reaches(steps, s, tree)
    ensures s == State(Caller(a, 0, {0}, []), Callee(a, [err], [0], [], 0, {0}, true),
                       map[Link(Left, 0) := Read(a.Request())])
    ensures HandledWith(s, Left, a.uuid, 0, err)
  {
    hide Reaches, Encode, DecodeFrame, PutOnWire, Read, Enabled, Apply;
    steps, s := Deliver(a, tree);
    steps, s := AckOnce(a, steps, s, [], [], err, tree);
  }

  /** The ack is written. */
  lemma Answer(a: Args, err: Option<Text>, tree: bool) returns (steps: seq<Step>, s: State)
    requires a.Ok() && Fits(AckText(err)) && (tree ==> err.None?)
    ensures Reaches(steps, s, tree) && s.left == Caller(a, 0, {0}, [])
    ensures Link(Right, 0) in s.wires && s.wires[Link(Right, 0)] == Sent(a.Reply(err))
    ensures HandledWith(s, Left, a.uuid, 0, err)
  {
    hide Reaches, Encode, DecodeFrame, PutOnWire, NewMessage, Read, Sent;
    steps, s := AckWith(a, err, tree);
    steps, s := Go(steps, s, Poll(Right), tree);
    FirstFrame(a.Reply(err));
    steps, s := Go(steps, s, PutBytes(Right, |Encode(a.Reply(err))|), tree);
  }

  /** It is read. */
  lemma ReadAnswer(a: Args, err: Option<Text>, tree: bool) returns (steps: seq<Step>, s: State)
    requires a.Ok() && Fits(AckText(err)) && (tree ==> err.None?)
    ensures Reaches(steps, s, tree) && HandledWith(s, Left, a.uuid, 0, err)
    ensures s.left == Caller(a, 0, {0}, [Inbound(a.Reply(err), 0, 0)])
  {
    hide Reaches, Encode, DecodeFrame, PutOnWire;
    steps, s := Answer(a, err, tree);
    WholeFrame(a.Reply(err));
    steps, s := Go(steps, s, ReadFrame(Left, |Encode(a.Reply(err))|), tree);
    assert s.left == Caller(a, 0, {0}, [Inbound(a.Reply(err), 0, 0)]);
  }

  /** Its goroutine finds the channel of the call. */
  lemma AcceptAnswer(a: Args, err: Option<Text>, tree: bool) returns (steps: seq<Step>, s: State)
    requires a.Ok() && Fits(AckText(err)) && (tree ==> err.None?)
    ensures Reaches(steps, s, tree) && HandledWith(s, Left, a.uuid, 0, err)
    ensures s.left == Caller(a, 0, {0}, [Inbound(a.Reply(err), 0, 0)]).(accepts := [Sending])
  {
    hide Reaches, Encode, DecodeFrame, PutOnWire, WireOf;
    steps, s := ReadAnswer(a, err, tree);
    steps, s := Go(steps, s, Take(Left), tree);
    assert s.left.accepts == [Arrived];
    steps, s := Go(steps, s, Lookup(Left, 0), tree);
    assert s.left.accepts == [Sending];
  }

  /** It is sent on the channel. */
  lemma SendAnswer(a: Args, err: Option<Text>, tree: bool) returns (steps: seq<Step>, s: State)
    requires a.Ok() && Fits(AckText(err)) && (tree ==> err.None?)
    ensures Reaches(steps, s, tree) && HandledWith(s, Left, a.uuid, 0, err)
    ensures s.left == Caller(a, 0, {0}, [Inbound(a.Reply(err), 0, 0)])
                      .(accepts := [Closing],
                        chans := map[a.uuid := Chan([Signal(if AckText(err) == [] then None else err, 0)], 0, [])])
  {
    hide Reaches, Encode, DecodeFrame, PutOnWire, WireOf;
    steps, s := AcceptAnswer(a, err, tree);
    var signal := Signal(if AckText(err) == [] then None else err, 0);
    assert AckError(a.Reply(err)) == signal.err && [] + [signal] == [signal];
    steps, s := Go(steps, s, SendSignal(Left, 0), tree);
    assert s.left.accepts == [Closing];
    assert s.left.chans == map[a.uuid := Chan([signal], 0, [])];
  }

  /** The call takes it and returns. */
  lemma TakeAnswer(a: Args, err: Option<Text>, tree: bool) returns (steps: seq<Step>, s: State)
    requires a.Ok() && Fits(AckText(err)) && (tree ==> err.None?)
    ensures Reaches(steps, s, tree) && HandledWith(s, Left, a.uuid, 0, err)
    ensures s.left.calls[a.uuid].phase == Returned(Reported(err)) && a.uuid !in s.left.waitingAcks
  {
    hide Reaches, Encode, DecodeFrame, PutOnWire, WireOf;
    steps, s := SendAnswer(a, err, tree);
    steps, s := Go(steps, s, ReceiveAck(Left, a.uuid), tree);
    steps, s := Go(steps, s, Return(Left, a.uuid), tree);
  }

  /** For every call there is a run of two nodes with no-op handlers in which it returns without an error. */
  lemma SendCanSucceed(a: Args) returns (steps: seq<Step>)
    requires a.Ok()
    ensures Run(INITIAL, steps) && TreeRun(TREES, INITIAL, steps)
    ensures var x := After(INITIAL, steps).left; a.uuid in x.calls && x.calls[a.uuid].phase == Returned(Acked(None))
  {
    var s;
    steps, s := TakeAnswer(a, None, true);
  }

  /** For every call and every text there is a run in which it returns with that text as the error. */
  lemma SendCanFailWith(a: Args, text: Text) returns (steps: seq<Step>)
    requires a.Ok() && Fits(text) && text != []
    ensures Run(INITIAL, steps) && NoFailedWrite(steps)
    ensures var x := After(INITIAL, steps).left;
            a.uuid in x.calls && x.calls[a.uuid].phase == Returned(Acked(Some(text)))
  {
    var s;
    steps, s := TakeAnswer(a, Some(text), false);
  }

  lemma GiveUpAndReturn(a: Args, cancelled: bool) returns (steps: seq<Step>, s: State)
    requires a.Ok()
    ensures Reaches(steps, s, true) && a.uuid in s.left.calls && a.uuid !in s.left.waitingAcks
    ensures s.left.calls[a.uuid].phase == Returned(if cancelled then Cancelled else TimedOut)
  {
    hide Reaches, Encode, DecodeFrame, PutOnWire, WireOf;
    steps, s := Enqueue(a, true);
    steps, s := Go(steps, s, GiveUp(Left, a.uuid, cancelled), true);
    steps, s := Go(steps, s, Return(Left, a.uuid), true);
  }

  /** For every call there is a run in which it is cancelled, and one in which it times out. */
  lemma SendCanGiveUp(a: Args, cancelled: bool) returns (steps: seq<Step>)
    requires a.Ok()
    ensures Run(INITIAL, steps)
    ensures var x := After(INITIAL, steps).left;
            a.uuid in x.calls && x.calls[a.uuid].phase == Returned(if cancelled then Cancelled else TimedOut)
  {
    var s;
    steps, s := GiveUpAndReturn(a, cancelled);
  }
}
