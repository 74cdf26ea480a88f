/** What disciplined runs guarantee on top: every message is decoded at most once, every ack channel is used once. */
module AckAtMostOnce {
  import opened Bytes
  import opened Frames
  import opened AckProtocol
  import opened AckInvariant

  /** How many messages have their whole frame on some wire. */
  function Flushed(x: Node): (n: nat) {
    if x.flight.Writing? && x.flight.ticket < |x.enqueued| && x.flight.out == |FrameOf(x, x.flight.ticket)|
    then |x.written| + 1 else |x.written|
  }

  /** No message has its whole frame twice on the wires of `side`. */
  ghost predicate FlushedOnce(side: Side, flushed: nat, wires: map<Link, Wire>) {
    && (forall l, i :: l in wires && l.from == side && 0 <= i < |wires[l].tickets| ==> wires[l].tickets[i] < flushed)
    && (forall l, i, l', i' ::
          && l in wires && l.from == side && 0 <= i < |wires[l].tickets|
          && l' in wires && l'.from == side && 0 <= i' < |wires[l'].tickets|
          && (l != l' || i != i')
          ==> wires[l].tickets[i] != wires[l'].tickets[i'])
  }

  predicate SameKey(m: Message, m': Message) {
    m.header.uuid == m'.header.uuid && IsAck(m) == IsAck(m')
  }

  /** At most one request and at most one ack per uuid. */
  ghost predicate KeysDistinct(enqueued: seq<Outbound>) {
    forall t, t' :: 0 <= t < t' < |enqueued| ==> !SameKey(enqueued[t].msg, enqueued[t'].msg)
  }

  ghost predicate SideOnce(s: State, side: Side) {
    && FlushedOnce(side, Flushed(s.At(side)), s.wires)
    && KeysDistinct(s.At(side).enqueued)
    && !s.At(side).crashed
  }

  ghost predicate Once(s: State) {
    Invariant(s) && SideOnce(s, Left) && SideOnce(s, Right)
  }

  ghost predicate DecodedOnce(received: seq<Inbound>) {
    forall i, j :: 0 <= i < |received| && 0 <= j < |received| && SameKey(received[i].msg, received[j].msg) ==> i == j
  }

  /** No two acks of one uuid were decoded. */
  ghost predicate AcksOnce(received: seq<Inbound>) {
    forall u, i: nat, j: nat :: AckFor(u, i, received) && AckFor(u, j, received) ==> i == j
  }

  lemma DecodedOnceAcksOnce(received: seq<Inbound>)
    requires DecodedOnce(received)
    ensures AcksOnce(received)
  {
    forall u, i: nat, j: nat | AckFor(u, i, received) && AckFor(u, j, received) ensures i == j {
      assert SameKey(received[i].msg, received[j].msg);
    }
  }

  lemma OnceAt(s: State, side: Side)
    requires Once(s)
    ensures SideOnce(s, side) && NodeOk(side, s.At(side), s.wires)
  {
  }

  lemma ReceivedTicket(side: Side, y: Node, m: Inbound, wires: map<Link, Wire>)
    requires InboundOk(m, side, wires) && WiresOk(side, y.enqueued, y.used, wires)
    ensures var w := wires[Link(side, m.conn)];
            m.index < |w.tickets| && w.tickets[m.index] < |y.enqueued| && y.enqueued[w.tickets[m.index]].msg == m.msg
  {
    assert WireOk(wires[Link(side, m.conn)], y.enqueued);
  }

  /** Every message is decoded at most once. */
  lemma EachDecodedOnce(s: State, side: Side)
    requires Once(s)
    ensures DecodedOnce(s.At(side).received) && AcksOnce(s.At(side).received)
  {
    hide Invariant, WireOk, EncodeAll, CallsOk, ChansOk, OriginsOk, AcceptsOk, Conserved, FlightOk;
    var x, y, p := s.At(side), s.At(side.Peer()), side.Peer();
    OnceAt(s, side);
    OnceAt(s, p);
    forall i, j | 0 <= i < j < |x.received| ensures !SameKey(x.received[i].msg, x.received[j].msg) {
      var m, n := x.received[i], x.received[j];
      assert InboundOk(m, p, s.wires) && InboundOk(n, p, s.wires);
      ReceivedTicket(p, y, m, s.wires);
      ReceivedTicket(p, y, n, s.wires);
      var t, u := s.wires[Link(p, m.conn)].tickets[m.index], s.wires[Link(p, n.conn)].tickets[n.index];
      assert t != u;
    }
    DecodedOnceAcksOnce(x.received);
  }

  /** In such a state an ack goroutine that is about to send finds its channel empty and open, and one that is about
      to close finds it open. */
  ghost predicate ChannelReady(x: Node, i: nat)
    requires i < |x.accepts| && i < |x.received|
  {
    var u := x.received[i].msg.header.uuid;
    u in x.chans
    && (x.accepts[i].Sending? ==> x.chans[u].sent == [] && x.chans[u].closers == [])
    && (x.accepts[i].Closing? ==> x.chans[u].closers == [])
  }

  /** A channel that only the ack goroutine `i` can have used. */
  lemma SoleUser(u: Uuid, ch: Chan, phase: Phase, accepts: seq<Accept>, received: seq<Inbound>, i: nat)
    requires ChanOk(u, ch, phase, accepts, received) && i < |accepts|
    requires forall k: nat :: AckFor(u, k, received) ==> k == i
    ensures ch.closers != [] ==> accepts[i].Done?
    ensures ch.sent != [] ==> accepts[i].Closing? || accepts[i].Done?
  {
    if ch.closers != [] {
      assert AckFor(u, ch.closers[0], received);
    }
    if ch.sent != [] {
      assert AckFor(u, ch.sent[0].sender, received);
    }
  }

  lemma TwoSenders(u: Uuid, ch: Chan, phase: Phase, accepts: seq<Accept>, received: seq<Inbound>)
      returns (k: nat, k': nat)
    requires ChanOk(u, ch, phase, accepts, received) && |ch.sent| > 1
    ensures k != k' && AckFor(u, k, received) && AckFor(u, k', received)
  {
    k, k' := ch.sent[0].sender, ch.sent[1].sender;
  }

  /** It is enough that no two acks of one uuid were decoded. */
  lemma ReadyIfOnce(side: Side, x: Node, wires: map<Link, Wire>, i: nat)
    requires NodeOk(side, x, wires) && AcksOnce(x.received)
    requires i < |x.accepts| && (x.accepts[i].Sending? || x.accepts[i].Closing?)
    ensures i < |x.received| && ChannelReady(x, i)
  {
    hide Conserved, WiresOk, ReceivedOk, FlightOk, OriginsOk, LoopsOk, ChanOk;
    assert AcceptOk(x.accepts[i], x.received[i].msg, x.calls);
    var u := x.received[i].msg.header.uuid;
    assert AckFor(u, i, x.received);
    SoleUser(u, x.chans[u], x.calls[u].phase, x.accepts, x.received, i);
  }

  /** A channel is sent on at most once and closed at most once. */
  lemma ChannelUsedOnce(side: Side, x: Node, wires: map<Link, Wire>, u: Uuid)
    requires NodeOk(side, x, wires) && AcksOnce(x.received) && u in x.chans
    ensures |x.chans[u].sent| <= 1 && |x.chans[u].closers| <= 1
  {
    hide Conserved, WiresOk, ReceivedOk, FlightOk, OriginsOk, LoopsOk;
    var ch := x.chans[u];
    assert ChanOk(u, ch, x.calls[u].phase, x.accepts, x.received);
    if |ch.sent| > 1 {
      var k, k' := TwoSenders(u, ch, x.calls[u].phase, x.accepts, x.received);
    }
  }

  // ---- Every disciplined step keeps it ----

  /** Steps that move no frame and write no message. */
  lemma KeepQuiet(s: State, s': State, side: Side)
    requires Once(s) && Invariant(s')
    requires s'.wires == s.wires && s'.At(side.Peer()) == s.At(side.Peer())
    requires s'.At(side).enqueued == s.At(side).enqueued && !s'.At(side).crashed
    requires Flushed(s'.At(side)) == Flushed(s.At(side))
    ensures Once(s')
  {
    hide Invariant, FlushedOnce, KeysDistinct, Flushed;
  }

  lemma NewKey(enqueued: seq<Outbound>, o: Outbound)
    requires KeysDistinct(enqueued) && forall t :: 0 <= t < |enqueued| ==> !SameKey(enqueued[t].msg, o.msg)
    ensures KeysDistinct(enqueued + [o])
  {
  }

  lemma KeepEnqueue(s: State, s': State, side: Side, o: Outbound)
    requires Once(s) && Invariant(s')
    requires s'.wires == s.wires && s'.At(side.Peer()) == s.At(side.Peer())
    requires s'.At(side).enqueued == s.At(side).enqueued + [o] && s'.At(side).flight == s.At(side).flight
    requires s'.At(side).written == s.At(side).written && !s'.At(side).crashed
    requires forall t :: 0 <= t < |s.At(side).enqueued| ==> !SameKey(s.At(side).enqueued[t].msg, o.msg)
    ensures Once(s')
  {
    hide Invariant, FlushedOnce, KeysDistinct, SameKey, Encode, NodeOk;
    OnceAt(s, side);
    TicketAt(side, s.At(side), s.wires);
    NewKey(s.At(side).enqueued, o);
    assert Flushed(s'.At(side)) == Flushed(s.At(side));
  }

  lemma TicketAt(side: Side, x: Node, wires: map<Link, Wire>)
    requires NodeOk(side, x, wires)
    ensures x.flight.Writing? ==> x.flight.ticket == |x.written| && x.flight.ticket < |x.enqueued|
  {
    hide WiresOk, ReceivedOk, OriginsOk, LoopsOk, CallsOk, ChansOk, AcceptsOk;
    if x.flight.Writing? {
      assert Tickets(x.written, x.flight, x.queue)[|x.written|] == x.flight.ticket;
    }
  }

  lemma OriginAt(side: Side, x: Node, wires: map<Link, Wire>, t: nat)
    requires NodeOk(side, x, wires) && t < |x.enqueued|
    ensures OriginOk(x.enqueued[t], x.calls, x.accepts, x.received)
    ensures x.enqueued[t].origin.FromCall? ==> !IsAck(x.enqueued[t].msg)
  {
    hide WiresOk, ReceivedOk, Conserved, LoopsOk, ChansOk, AcceptsOk, FlightOk;
  }

  lemma KeepWriteRequest(s: State, step: Step)
    requires Once(s) && Enabled(s, step) && step.WriteRequest?
    ensures Once(Apply(s, step))
  {
    hide Invariant, NodeOk, FlushedOnce, KeysDistinct;
    var x, u := s.At(step.side), step.uuid;
    KeepInvariant(s, step);
    OnceAt(s, step.side);
    var o := Outbound(NewMessage(u, x.calls[u].opcode, x.calls[u].payload), FromCall);
    forall t | 0 <= t < |x.enqueued| ensures !SameKey(x.enqueued[t].msg, o.msg) {
      OriginAt(step.side, x, s.wires, t);
      CallOpcode(step.side, x, s.wires, u);
    }
    KeepEnqueue(s, Apply(s, step), step.side, o);
  }

  lemma CallOpcode(side: Side, x: Node, wires: map<Link, Wire>, u: Uuid)
    requires NodeOk(side, x, wires) && u in x.calls
    ensures x.calls[u].opcode != ACK
  {
  }

  lemma HandledMessage(side: Side, x: Node, wires: map<Link, Wire>, i: nat)
    requires NodeOk(side, x, wires) && i < |x.accepts| && x.accepts[i].Handling?
    ensures i < |x.received| && !IsAck(x.received[i].msg)
  {
    assert AcceptOk(x.accepts[i], x.received[i].msg, x.calls);
  }

  /** A handler that has not acked yet writes the first ack of its message. */
  lemma KeepAck(s: State, step: Step)
    requires Once(s) && Enabled(s, step) && step.Ack? && Disciplined(s, step)
    ensures Once(Apply(s, step))
  {
    hide Invariant, NodeOk, FlushedOnce, KeysDistinct;
    var x, i := s.At(step.side), step.i;
    KeepInvariant(s, step);
    OnceAt(s, step.side);
    EachDecodedOnce(s, step.side);
    HandledMessage(step.side, x, s.wires, i);
    var o := Outbound(NewAckMessage(x.received[i].msg.header.uuid, step.err), FromHandler(i, step.err));
    forall t | 0 <= t < |x.enqueued| ensures !SameKey(x.enqueued[t].msg, o.msg) {
      OriginAt(step.side, x, s.wires, t);
      if x.enqueued[t].origin.FromHandler? {
        var j := x.enqueued[t].origin.thread;
        HandledMessage(step.side, x, s.wires, j);
        assert j != i;
        assert !SameKey(x.received[j].msg, x.received[i].msg);
      }
    }
    KeepEnqueue(s, Apply(s, step), step.side, o);
  }

  lemma KeepSignal(s: State, step: Step)
    requires Once(s) && Enabled(s, step) && (step.SendSignal? || step.CloseChan?)
    ensures Once(Apply(s, step))
  {
    hide Invariant, NodeOk, FlushedOnce, KeysDistinct, DecodedOnce, AcksOnce;
    KeepInvariant(s, step);
    OnceAt(s, step.side);
    EachDecodedOnce(s, step.side);
    ReadyIfOnce(step.side, s.At(step.side), s.wires, step.i);
    KeepQuiet(s, Apply(s, step), step.side);
  }

  lemma KeepWriter(s: State, step: Step)
    requires Once(s) && Enabled(s, step) && Disciplined(s, step)
    requires step.Poll? || step.WriteOk? || step.WriteFail?
    ensures Once(Apply(s, step))
  {
    hide Invariant, NodeOk, FlushedOnce, KeysDistinct;
    KeepInvariant(s, step);
    OnceAt(s, step.side);
    TicketAt(step.side, s.At(step.side), s.wires);
    KeepQuiet(s, Apply(s, step), step.side);
  }

  lemma KeepCall(s: State, step: Step)
    requires Once(s) && Enabled(s, step)
    requires step.Register? || step.ReceiveAck? || step.GiveUp? || step.Return?
    ensures Once(Apply(s, step))
  {
    hide Invariant, NodeOk, FlushedOnce, KeysDistinct, SideOnce;
    KeepInvariant(s, step);
    KeepQuiet(s, Apply(s, step), step.side);
  }

  lemma KeepLoop(s: State, step: Step)
    requires Once(s) && Enabled(s, step)
    requires step.Attach? || step.StopWriting? || step.StopReading? || step.Detach?
    ensures Once(Apply(s, step))
  {
    hide Invariant, NodeOk, FlushedOnce, KeysDistinct, SideOnce;
    KeepInvariant(s, step);
    KeepQuiet(s, Apply(s, step), step.side);
  }

  lemma KeepAccept(s: State, step: Step)
    requires Once(s) && Enabled(s, step)
    requires step.Take? || step.Lookup? || step.Handle?
    ensures Once(Apply(s, step))
  {
    hide Invariant, NodeOk, FlushedOnce, KeysDistinct, SideOnce;
    KeepInvariant(s, step);
    KeepQuiet(s, Apply(s, step), step.side);
  }

  /** A new full frame carries a ticket no full frame had before. */
  lemma FlushNew(side: Side, flushed: nat, wires: map<Link, Wire>, l: Link, w: Wire)
    requires FlushedOnce(side, flushed, wires) && l.from == side
    requires w.tickets == WireOf(wires, l).tickets + [flushed]
    ensures FlushedOnce(side, flushed + 1, wires[l := w])
  {
  }

  lemma FlushSame(side: Side, flushed: nat, wires: map<Link, Wire>, l: Link, w: Wire)
    requires FlushedOnce(side, flushed, wires)
    requires w.tickets == WireOf(wires, l).tickets || l.from != side
    ensures FlushedOnce(side, flushed, wires[l := w])
  {
  }

  lemma KeepPutBytes(s: State, step: Step)
    requires Once(s) && Enabled(s, step) && step.PutBytes?
    ensures Once(Apply(s, step))
  {
    hide Invariant, NodeOk, FlushedOnce, KeysDistinct, Encode;
    var side, x := step.side, s.At(step.side);
    KeepInvariant(s, step);
    OnceAt(s, side);
    OnceAt(s, side.Peer());
    TicketAt(side, x, s.wires);
    var s' := Apply(s, step);
    var l := Link(side, x.conn.value);
    FlushSame(side.Peer(), Flushed(s.At(side.Peer())), s.wires, l, s'.wires[l]);
    if Flushed(s'.At(side)) == Flushed(x) {
      FlushSame(side, Flushed(x), s.wires, l, s'.wires[l]);
    } else {
      FlushNew(side, Flushed(x), s.wires, l, s'.wires[l]);
    }
  }

  lemma KeepReadFrame(s: State, step: Step)
    requires Once(s) && Enabled(s, step) && step.ReadFrame?
    ensures Once(Apply(s, step))
  {
    hide Invariant, NodeOk, FlushedOnce, KeysDistinct, Encode, DecodeFrame;
    var side, x := step.side, s.At(step.side);
    KeepInvariant(s, step);
    OnceAt(s, side);
    OnceAt(s, side.Peer());
    var s' := Apply(s, step);
    var l := Link(side.Peer(), x.conn.value);
    FlushSame(side.Peer(), Flushed(s.At(side.Peer())), s.wires, l, s'.wires[l]);
    FlushSame(side, Flushed(x), s.wires, l, s'.wires[l]);
  }

  lemma KeepOnce(s: State, step: Step)
    requires Once(s) && Enabled(s, step) && Disciplined(s, step)
    ensures Once(Apply(s, step))
  {
    hide *;
    match step
    case Register(_, _, _, _) => KeepCall(s, step);
    case WriteRequest(_, _) => KeepWriteRequest(s, step);
    case ReceiveAck(_, _) => KeepCall(s, step);
    case GiveUp(_, _, _) => KeepCall(s, step);
    case Return(_, _) => KeepCall(s, step);
    case Attach(_, _) => KeepLoop(s, step);
    case Poll(_) => KeepWriter(s, step);
    case PutBytes(_, _) => KeepPutBytes(s, step);
    case WriteOk(_) => KeepWriter(s, step);
    case WriteFail(_, _) => KeepWriter(s, step);
    case StopWriting(_) => KeepLoop(s, step);
    case ReadFrame(_, _) => KeepReadFrame(s, step);
    case StopReading(_) => KeepLoop(s, step);
    case Detach(_) => KeepLoop(s, step);
    case Take(_) => KeepAccept(s, step);
    case Lookup(_, _) => KeepAccept(s, step);
    case SendSignal(_, _) => KeepSignal(s, step);
    case CloseChan(_, _) => KeepSignal(s, step);
    case Handle(_, _) => KeepAccept(s, step);
    case Ack(_, _, _) => KeepAck(s, step);
  }

  lemma {:induction false} OnceAlong(s: State, steps: seq<Step>)
    requires Once(s) && Run(s, steps) && DisciplinedRun(s, steps)
    ensures Once(After(s, steps))
    decreases |steps|
  {
    hide Once, Enabled, Apply, Disciplined;
    if steps != [] {
      KeepOnce(s, steps[0]);
      OnceAlong(Apply(s, steps[0]), steps[1..]);
    }
  }

  /** At-most-once completion: in every disciplined run each uuid is decoded at most once as a request and at most
      once as an ack, each ack channel is sent on at most once and closed at most once, a goroutine about to send or
      close never finds its channel full or closed, and no node panics. */
  lemma AtMostOnce(steps: seq<Step>, side: Side)
    requires Run(INITIAL, steps) && DisciplinedRun(INITIAL, steps)
    ensures var x := After(INITIAL, steps).At(side);
            && DecodedOnce(x.received)
            && (forall u :: u in x.chans ==> |x.chans[u].sent| <= 1 && |x.chans[u].closers| <= 1)
            && (forall i :: 0 <= i < |x.accepts| && (x.accepts[i].Sending? || x.accepts[i].Closing?) ==>
                  i < |x.received| && ChannelReady(x, i))
            && !x.crashed
  {
    hide Enabled, Apply, Disciplined, Invariant, NodeOk, DecodedOnce, AcksOnce, FlushedOnce, KeysDistinct, ChannelReady;
    InitialOnce();
    OnceAlong(INITIAL, steps);
    var s := After(INITIAL, steps);
    OnceAt(s, side);
    EachDecodedOnce(s, side);
    forall u | u in s.At(side).chans ensures |s.At(side).chans[u].sent| <= 1 && |s.At(side).chans[u].closers| <= 1 {
      ChannelUsedOnce(side, s.At(side), s.wires, u);
    }
    forall i | 0 <= i < |s.At(side).accepts| && (s.At(side).accepts[i].Sending? || s.At(side).accepts[i].Closing?)
      ensures i < |s.At(side).received| && ChannelReady(s.At(side), i)
    {
      ReadyIfOnce(side, s.At(side), s.wires, i);
    }
  }

  lemma InitialOnce()
    ensures Once(INITIAL)
  {
    InitialOk();
  }

  /** Decoding an ack once is needed: wherever two goroutines hold acks for the same open channel, three steps of that
      node lead to a panic. */
  lemma SecondAckPanics(s: State, side: Side, i: nat, j: nat)
    requires i != j && Enabled(s, SendSignal(side, i)) && Enabled(s, SendSignal(side, j))
    requires s.At(side).received[i].msg.header.uuid == s.At(side).received[j].msg.header.uuid
    requires s.At(side).chans[s.At(side).received[i].msg.header.uuid].closers == []
    ensures var steps := [SendSignal(side, i), CloseChan(side, i), SendSignal(side, j)];
            Run(s, steps) && After(s, steps).At(side).crashed
  {
    var a, b, c := SendSignal(side, i), CloseChan(side, i), SendSignal(side, j);
    SendOpens(s, side, i, j);
    var s1 := Apply(s, a);
    CloseCloses(s1, side, i, j);
    var s2 := Apply(s1, b);
    SendOnClosed(s2, side, j);
    hide Enabled, Apply;
    RunCons(s2, c, []);
    RunCons(s1, b, [c]);
    RunCons(s, a, [b, c]);
    assert [c] + [] == [c] && [b] + [c] == [b, c] && [a] + [b, c] == [a, b, c];
  }

  /** So are two goroutines about to close one channel. */
  lemma SecondClosePanics(s: State, side: Side, i: nat, j: nat)
    requires i != j && Holding(s.At(side), i, Closing, false) && Holding(s.At(side), j, Closing, false)
    requires s.At(side).received[i].msg.header.uuid == s.At(side).received[j].msg.header.uuid
    ensures var steps := [CloseChan(side, i), CloseChan(side, j)]; Run(s, steps) && After(s, steps).At(side).crashed
  {
    var a, b := CloseChan(side, i), CloseChan(side, j);
    var s1 := Apply(s, a);
    CloseOnClosed(s1, side, j);
    hide Enabled, Apply;
    RunCons(s1, b, []);
    RunCons(s, a, [b]);
    assert [b] + [] == [b] && [a] + [b] == [a, b];
  }

  lemma CloseOnClosed(s: State, side: Side, j: nat)
    requires Holding(s.At(side), j, Closing, true)
    ensures Enabled(s, CloseChan(side, j)) && Apply(s, CloseChan(side, j)).At(side).crashed
  {
  }

  lemma RunCons(s: State, step: Step, rest: seq<Step>)
    requires Enabled(s, step) && Run(Apply(s, step), rest)
    ensures Run(s, [step] + rest) && After(s, [step] + rest) == After(Apply(s, step), rest)
  {
    hide Enabled, Apply;
    assert ([step] + rest)[0] == step && ([step] + rest)[1..] == rest;
  }

  ghost predicate Holding(x: Node, i: nat, a: Accept, closed: bool) {
    && i < |x.accepts| && i < |x.received| && x.accepts[i] == a && !x.crashed
    && var u := x.received[i].msg.header.uuid; u in x.chans && (x.chans[u].closers != [] <==> closed)
  }

  lemma SendOpens(s: State, side: Side, i: nat, j: nat)
    requires i != j && Enabled(s, SendSignal(side, i)) && Enabled(s, SendSignal(side, j))
    requires s.At(side).received[i].msg.header.uuid == s.At(side).received[j].msg.header.uuid
    requires s.At(side).chans[s.At(side).received[i].msg.header.uuid].closers == []
    ensures var x, y := s.At(side), Apply(s, SendSignal(side, i)).At(side);
            y.received == x.received && Holding(y, i, Closing, false) && Holding(y, j, Sending, false)
  {
  }

  lemma CloseCloses(s: State, side: Side, i: nat, j: nat)
    requires i != j && Holding(s.At(side), i, Closing, false) && Holding(s.At(side), j, Sending, false)
    requires s.At(side).received[i].msg.header.uuid == s.At(side).received[j].msg.header.uuid
    ensures Enabled(s, CloseChan(side, i)) && Holding(Apply(s, CloseChan(side, i)).At(side), j, Sending, true)
  {
  }

  lemma SendOnClosed(s: State, side: Side, j: nat)
    requires Holding(s.At(side), j, Sending, true)
    ensures Enabled(s, SendSignal(side, j)) && Apply(s, SendSignal(side, j)).At(side).crashed
  {
  }
}
