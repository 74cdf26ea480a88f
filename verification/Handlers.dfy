/** Message handlers: what each built-in one acks, alone and nested in routers. */
module Handlers {
  import opened Bytes
  import opened Frames
  import opened AckProtocol
  import opened AckInvariant
  import opened AckTheorems
  import opened AckAtMostOnce

  function Ascii(s: string): (b: seq<Byte>)
    ensures |b| == |s|
  {
    seq(|s|, i requires 0 <= i < |s| => s[i] as int % 256)
  }

  function Decimal(n: nat): (s: string)
    ensures s != ""
  {
    var digit := ['0' + (n % 10) as char];
    if n < 10 then digit else Decimal(n / 10) + digit
  }

  /** `parse` of an async-command handler gives the error text of an unparsable payload; that of a notification store
      tells whether the payload can be parsed. */
  datatype Handler =
    | Noop
    | AsyncCommand(parse: seq<Byte> -> Option<Text>)
    | Notification(parses: seq<Byte> -> bool)
    | Router(routes: map<Byte, Handler>)

  /** The arguments of all calls of the ack function made for one message, in order. */
  function Acks(h: Handler, opcode: Byte, payload: seq<Byte>): (acks: seq<Option<Text>>) {
    match h
    case Noop => [None]
    case AsyncCommand(parse) =>
      var err := parse(payload);
      if err.Some? then [Some(Ascii("error while parsing the async command: ") + err.value)] else [None]
    case Notification(parses) => if parses(payload) then [None] else []
    case Router(routes) =>
      if opcode in routes then Acks(routes[opcode], opcode, payload)
      else [Some(Ascii("received an unknown opcode '" + Decimal(opcode) + "', I don't know what to do with it"))]
  }

  /** The handler that finally gets messages with an opcode, through any nesting of routers. */
  function Leaf(h: Handler, opcode: Byte): (l: Option<Handler>)
    ensures l.Some? ==> !l.value.Router?
  {
    match h
    case Router(routes) => if opcode in routes then Leaf(routes[opcode], opcode) else None
    case _ => Some(h)
  }

  /** Whether a handler that is not a router takes a payload. */
  predicate Takes(h: Handler, payload: seq<Byte>) {
    match h
    case Noop => true
    case AsyncCommand(parse) => parse(payload).None?
    case Notification(parses) => parses(payload)
    case Router(_) => false
  }

  /** Every message is acked exactly once, except not at all when a notification store cannot parse it; it is acked
      without an error exactly when it reaches a handler that takes it, and an error always has a text. */
  lemma {:induction false} AckDiscipline(h: Handler, opcode: Byte, payload: seq<Byte>)
    ensures var l, acks := Leaf(h, opcode), Acks(h, opcode, payload);
            && |acks| == (if l.Some? && l.value.Notification? && !l.value.parses(payload) then 0 else 1)
            && (forall a :: a in acks && AckText(a) == [] ==> l.Some? && Takes(l.value, payload))
            && (l.Some? && Takes(l.value, payload) ==> acks == [None])
    decreases h
  {
    if h.Router? && opcode in h.routes {
      AckDiscipline(h.routes[opcode], opcode, payload);
    }
  }

  /** The number that decimal digits stand for. */
  function DecimalValue(s: string): (n: int) {
    if s == "" then 0 else DecimalValue(s[..|s| - 1]) * 10 + (s[|s| - 1] as int - '0' as int)
  }

  lemma {:induction false} DecimalIsValue(n: nat)
    ensures DecimalValue(Decimal(n)) == n && forall i :: 0 <= i < |Decimal(n)| ==> '0' <= Decimal(n)[i] <= '9'
    decreases n
  {
    if n >= 10 {
      DecimalIsValue(n / 10);
      assert Decimal(n)[..|Decimal(n)| - 1] == Decimal(n / 10);
    }
  }

  /** The texts of the errors: an opcode without a route is named in decimal, and the parse error of an async command is
      passed on. */
  lemma {:induction false} ErrorTexts(h: Handler, opcode: Byte, payload: seq<Byte>)
    ensures var l, acks := Leaf(h, opcode), Acks(h, opcode, payload);
            && (l.None? ==>
                  acks == [Some(Ascii("received an unknown opcode '" + Decimal(opcode) +
                                      "', I don't know what to do with it"))])
            && (l.Some? && l.value.AsyncCommand? && l.value.parse(payload).Some? ==>
                  acks == [Some(Ascii("error while parsing the async command: ") + l.value.parse(payload).value)])
    decreases h
  {
    if h.Router? && opcode in h.routes {
      ErrorTexts(h.routes[opcode], opcode, payload);
    }
  }

  // ---- Runs in which both nodes handle messages with such handlers ----

  datatype Trees = Trees(left: Handler, right: Handler) {
    function At(side: Side): (h: Handler) {
      if side.Left? then left else right
    }
  }

  function AcksOf(h: Handler, m: Message): (acks: seq<Option<Text>>) {
    Acks(h, m.header.opcode, m.payload)
  }

  /** An ack step is the next ack call of the node's handler. */
  predicate Obeys(trees: Trees, s: State, step: Step)
    requires Enabled(s, step)
  {
    step.Ack? ==>
      var x := s.At(step.side);
      var acks := AcksOf(trees.At(step.side), x.received[step.i].msg);
      |x.accepts[step.i].acks| < |acks| && step.err == acks[|x.accepts[step.i].acks|]
  }

  ghost predicate TreeRun(trees: Trees, s: State, steps: seq<Step>)
    requires Run(s, steps)
    decreases |steps|
  {
    steps != [] ==> Obeys(trees, s, steps[0]) && TreeRun(trees, Apply(s, steps[0]), steps[1..])
  }

  ghost predicate NodeFollows(h: Handler, accepts: seq<Accept>, received: seq<Inbound>) {
    forall i :: 0 <= i < |accepts| && i < |received| && accepts[i].Handling? ==>
      accepts[i].acks <= AcksOf(h, received[i].msg)
  }

  ghost predicate Follows(trees: Trees, s: State) {
    && NodeFollows(trees.left, s.left.accepts, s.left.received)
    && NodeFollows(trees.right, s.right.accepts, s.right.received)
    && |s.left.accepts| <= |s.left.received| && |s.right.accepts| <= |s.right.received|
  }

  /** What a step does to the ack calls on record. */
  lemma AckCallsEffect(s: State, step: Step)
    requires Enabled(s, step)
    ensures var x, y := s.At(step.side), Apply(s, step).At(step.side);
            && Apply(s, step).At(step.side.Peer()) == s.At(step.side.Peer())
            && x.received <= y.received
            && (|x.accepts| <= |x.received| ==> |y.accepts| <= |y.received|)
            && (forall i :: 0 <= i < |y.accepts| && y.accepts[i].Handling? ==>
                  || y.accepts[i].acks == []
                  || (i < |x.accepts| && y.accepts[i] == x.accepts[i])
                  || (step.Ack? && i == step.i && i < |x.accepts| && x.accepts[i].Handling? &&
                      y.accepts[i].acks == x.accepts[i].acks + [step.err]))
  {
    hide Apply;
    if step.Take? || step.Handle? || step.Ack? {
      HandlingStepEffect(s, step);
    } else if step.Lookup? || step.SendSignal? || step.CloseChan? {
      SignalStepEffect(s, step);
    } else if step.Register? || step.WriteRequest? || step.ReceiveAck? || step.GiveUp? || step.Return? {
      CallStepEffect(s, step);
    } else {
      LoopStepEffect(s, step);
    }
  }

  lemma HandlingStepEffect(s: State, step: Step)
    requires Enabled(s, step) && (step.Take? || step.Handle? || step.Ack?)
    ensures var x, y := s.At(step.side), Apply(s, step).At(step.side);
            && Apply(s, step).At(step.side.Peer()) == s.At(step.side.Peer())
            && x.received == y.received
            && (step.Take? ==> y.accepts == x.accepts + [Arrived] && |x.accepts| < |x.received|)
            && (step.Handle? ==> step.i < |x.accepts| && y.accepts == x.accepts[step.i := Handling([])])
            && (step.Ack? ==> step.i < |x.accepts| && x.accepts[step.i].Handling?
                              && y.accepts == x.accepts[step.i := Handling(x.accepts[step.i].acks + [step.err])])
  {
    hide NewAckMessage;
  }

  ghost predicate OnlyAcceptChanged(s: State, s': State, side: Side, i: nat) {
    var x, y := s.At(side), s'.At(side);
    && s'.At(side.Peer()) == s.At(side.Peer())
    && x.received == y.received && i < |x.accepts| == |y.accepts| && !y.accepts[i].Handling?
    && forall k :: 0 <= k < |x.accepts| && k != i ==> y.accepts[k] == x.accepts[k]
  }

  lemma SignalStepEffect(s: State, step: Step)
    requires Enabled(s, step) && (step.Lookup? || step.SendSignal? || step.CloseChan?)
    ensures OnlyAcceptChanged(s, Apply(s, step), step.side, step.i)
  {
    hide Apply, OnlyAcceptChanged;
    match step
    case Lookup(_, _) => LookupEffect(s, step);
    case SendSignal(_, _) => SendEffect(s, step);
    case CloseChan(_, _) => CloseEffect(s, step);
  }

  lemma LookupEffect(s: State, step: Step)
    requires Enabled(s, step) && step.Lookup?
    ensures OnlyAcceptChanged(s, Apply(s, step), step.side, step.i)
  {
    hide AckError;
  }

  lemma SendEffect(s: State, step: Step)
    requires Enabled(s, step) && step.SendSignal?
    ensures OnlyAcceptChanged(s, Apply(s, step), step.side, step.i)
  {
    hide AckError;
  }

  lemma CloseEffect(s: State, step: Step)
    requires Enabled(s, step) && step.CloseChan?
    ensures OnlyAcceptChanged(s, Apply(s, step), step.side, step.i)
  {
    hide AckError;
  }

  lemma CallStepEffect(s: State, step: Step)
    requires Enabled(s, step)
    requires step.Register? || step.WriteRequest? || step.ReceiveAck? || step.GiveUp? || step.Return?
    ensures var x, y := s.At(step.side), Apply(s, step).At(step.side);
            && Apply(s, step).At(step.side.Peer()) == s.At(step.side.Peer())
            && x.received == y.received && x.accepts == y.accepts
  {
  }

  lemma LoopStepEffect(s: State, step: Step)
    requires Enabled(s, step)
    requires step.Attach? || step.Poll? || step.PutBytes? || step.WriteOk? || step.WriteFail? || step.StopWriting?
          || step.ReadFrame? || step.StopReading? || step.Detach?
    ensures var x, y := s.At(step.side), Apply(s, step).At(step.side);
            && Apply(s, step).At(step.side.Peer()) == s.At(step.side.Peer())
            && x.received <= y.received && x.accepts == y.accepts
  {
    hide DecodeFrame, Encode, PutOnWire, WireOf;
  }

  lemma NodeKeepsFollowing(h: Handler, x: Node, y: Node, step: Step)
    requires NodeFollows(h, x.accepts, x.received) && |x.accepts| <= |x.received| && x.received <= y.received
    requires forall i :: 0 <= i < |y.accepts| && y.accepts[i].Handling? ==>
                  || y.accepts[i].acks == []
                  || (i < |x.accepts| && y.accepts[i] == x.accepts[i])
                  || (step.Ack? && i == step.i && i < |x.accepts| && x.accepts[i].Handling? &&
                      y.accepts[i].acks == x.accepts[i].acks + [step.err])
    requires step.Ack? && step.i < |x.accepts| && x.accepts[step.i].Handling? ==>
               var acks := AcksOf(h, x.received[step.i].msg);
               |x.accepts[step.i].acks| < |acks| && step.err == acks[|x.accepts[step.i].acks|]
    ensures NodeFollows(h, y.accepts, y.received)
  {
    hide AcksOf;
  }

  lemma KeepFollows(trees: Trees, s: State, step: Step)
    requires Follows(trees, s) && Enabled(s, step) && Obeys(trees, s, step)
    ensures Follows(trees, Apply(s, step))
  {
    hide Apply, AcksOf, NodeFollows, Encode, DecodeFrame;
    AckCallsEffect(s, step);
    NodeKeepsFollowing(trees.At(step.side), s.At(step.side), Apply(s, step).At(step.side), step);
  }

  /** With such handlers a run is disciplined as soon as its failed writes are. */
  ghost predicate WritesDisciplined(s: State, steps: seq<Step>)
    requires Run(s, steps)
    decreases |steps|
  {
    steps != [] ==>
      && (steps[0].WriteFail? ==> Disciplined(s, steps[0]))
      && WritesDisciplined(Apply(s, steps[0]), steps[1..])
  }

  lemma {:induction false} TreeRunIsDisciplined(trees: Trees, s: State, steps: seq<Step>)
    requires Follows(trees, s) && Run(s, steps) && TreeRun(trees, s, steps)
    ensures Follows(trees, After(s, steps))
    ensures WritesDisciplined(s, steps) ==> DisciplinedRun(s, steps)
    decreases |steps|
  {
    hide Enabled, Apply, Follows;
    if steps != [] {
      KeepFollows(trees, s, steps[0]);
      AckStepDisciplined(trees, s, steps[0]);
      TreeRunIsDisciplined(trees, Apply(s, steps[0]), steps[1..]);
    }
  }

  lemma AckStepDisciplined(trees: Trees, s: State, step: Step)
    requires Enabled(s, step) && Obeys(trees, s, step)
    ensures !step.WriteFail? ==> Disciplined(s, step)
  {
    hide DecodeFrame, Encode;
    if step.Ack? {
      var m := s.At(step.side).received[step.i].msg;
      AckDiscipline(trees.At(step.side), m.header.opcode, m.payload);
    }
  }

  lemma TakenIfHandled(trees: Trees, s: State, side: Side, u: Uuid, j: nat, err: Option<Text>)
    requires Follows(trees, s) && HandledWith(s, side, u, j, err) && AckText(err) == []
    ensures var c := s.At(side).calls[u];
            var l := Leaf(trees.At(side.Peer()), c.opcode);
            l.Some? && Takes(l.value, c.payload)
  {
    hide Leaf, Takes, Acks;
    var c, y, h := s.At(side).calls[u], s.At(side.Peer()), trees.At(side.Peer());
    assert NodeFollows(h, y.accepts, y.received);
    assert err in Acks(h, c.opcode, c.payload);
    AckDiscipline(h, c.opcode, c.payload);
  }

  /** End to end: between nodes that handle messages this way, a send that reports success reached, at the peer, a
      handler for its opcode that took its payload. */
  lemma SuccessMeansTaken(trees: Trees, steps: seq<Step>, side: Side, u: Uuid)
    requires Run(INITIAL, steps) && TreeRun(trees, INITIAL, steps)
    ensures var x := After(INITIAL, steps).At(side);
            u in x.calls && Ended(x.calls[u]) && x.calls[u].phase.outcome == Acked(None) ==>
            var l := Leaf(trees.At(side.Peer()), x.calls[u].opcode);
            l.Some? && Takes(l.value, x.calls[u].payload)
  {
    hide Enabled, Apply, Leaf, Takes, HandledWith;
    AckSoundness(steps, side, u);
    TreeRunIsDisciplined(trees, INITIAL, steps);
    var s := After(INITIAL, steps);
    var x := s.At(side);
    if u in x.calls && Ended(x.calls[u]) && x.calls[u].phase.outcome == Acked(None) {
      var j: nat :| HandledWith(s, side, u, j, None) || HandledWith(s, side, u, j, Some([]));
      TakenIfHandled(trees, s, side, u, j, if HandledWith(s, side, u, j, None) then None else Some([]));
    }
  }

  /** Between such nodes, as long as a failed write left only a strict prefix of its frame, no node ever panics. */
  lemma NoPanic(trees: Trees, steps: seq<Step>, side: Side)
    requires Run(INITIAL, steps) && TreeRun(trees, INITIAL, steps) && WritesDisciplined(INITIAL, steps)
    ensures !After(INITIAL, steps).At(side).crashed
  {
    hide Enabled, Apply;
    TreeRunIsDisciplined(trees, INITIAL, steps);
    AtMostOnce(steps, side);
  }
}
