/** The invariant of every run, disciplined or not, one predicate per concern. */
module AckInvariant {
  import opened Bytes
  import opened Frames
  import opened AckProtocol

  function FlightTickets(f: Flight): (t: seq<nat>) {
    if f.Writing? then [f.ticket] else []
  }

  function Tickets(written: seq<nat>, flight: Flight, queue: seq<nat>): (t: seq<nat>) {
    written + FlightTickets(flight) + queue
  }

  /** Nothing is lost, duplicated or reordered on the sending side. */
  ghost predicate Conserved(enqueued: seq<Outbound>, written: seq<nat>, flight: Flight, queue: seq<nat>) {
    var all := Tickets(written, flight, queue);
    |all| == |enqueued| && forall i :: 0 <= i < |all| ==> all[i] == i
  }

  ghost predicate LoopsOk(conn: Option<ConnId>, used: set<ConnId>, writing: bool, reading: bool, flight: Flight) {
    && (conn.Some? ==> conn.value in used)
    && (writing || reading ==> conn.Some?)
    && (flight.Writing? ==> writing)
  }

  ghost predicate CallsOk(calls: map<Uuid, Call>, waitingAcks: set<Uuid>, chans: map<Uuid, Chan>) {
    && chans.Keys == calls.Keys
    && (forall u :: u in waitingAcks <==> u in calls && !calls[u].phase.Returned?)
    && (forall u :: u in calls ==> calls[u].opcode != ACK && Fits(calls[u].payload))
  }

  /** Every message given to WriteMessage is the request of a registered call or the ack of a started handler. */
  ghost predicate OriginOk(o: Outbound, calls: map<Uuid, Call>, accepts: seq<Accept>, received: seq<Inbound>) {
    var u := o.msg.header.uuid;
    match o.origin
    case FromCall =>
      u in calls && !calls[u].phase.Registered? && o.msg == NewMessage(u, calls[u].opcode, calls[u].payload)
    case FromHandler(j, err) =>
      && j < |accepts| <= |received| && accepts[j].Handling? && err in accepts[j].acks
      && u == received[j].msg.header.uuid && o.msg == NewAckMessage(u, err) && Fits(AckText(err))
  }

  ghost predicate OriginsOk(enqueued: seq<Outbound>, calls: map<Uuid, Call>, accepts: seq<Accept>,
                            received: seq<Inbound>)
  {
    forall t :: 0 <= t < |enqueued| ==> OriginOk(enqueued[t], calls, accepts, received)
  }

  ghost predicate NoFrame(s: seq<Byte>) {
    forall n :: 0 <= n <= |s| ==> DecodeFrame(s[..n], EOF).Stopped?
  }

  /** A wire holds whole frames and then something that never decodes; its reader stands between two frames. */
  ghost predicate WireOk(w: Wire, enqueued: seq<Outbound>) {
    && w.bytes == EncodeAll(w.frames) + w.torn
    && AllWellFormed(w.frames)
    && |w.tickets| == |w.frames|
    && (forall i :: 0 <= i < |w.frames| ==> w.tickets[i] < |enqueued| && w.frames[i] == enqueued[w.tickets[i]].msg)
    && NoFrame(w.torn)
    && w.got <= |w.frames|
    && w.pos == |EncodeAll(w.frames[..w.got])|
  }

  ghost predicate WiresOk(side: Side, enqueued: seq<Outbound>, used: set<ConnId>, wires: map<Link, Wire>) {
    forall l :: l in wires && l.from == side ==> l.conn in used && WireOk(wires[l], enqueued)
  }

  /** What the writing loop left behind the last full frame of the connection it is writing to. */
  function TornBy(flight: Flight, enqueued: seq<Outbound>): (b: seq<Byte>) {
    if flight.Writing? && flight.ticket < |enqueued| && flight.out < |Encode(enqueued[flight.ticket].msg)|
    then Encode(enqueued[flight.ticket].msg)[..flight.out] else []
  }

  ghost predicate FlightOk(side: Side, enqueued: seq<Outbound>, flight: Flight, writing: bool, conn: Option<ConnId>,
                           wires: map<Link, Wire>)
  {
    && (flight.Writing? ==> flight.ticket < |enqueued| && flight.out <= |Encode(enqueued[flight.ticket].msg)|)
    && (writing && conn.Some? ==> WireOf(wires, Link(side, conn.value)).torn == TornBy(flight, enqueued))
  }

  /** Every decoded message is a full frame of its wire, and no frame is decoded twice. */
  ghost predicate InboundOk(m: Inbound, from: Side, wires: map<Link, Wire>) {
    var l := Link(from, m.conn);
    l in wires && m.index < wires[l].got && m.index < |wires[l].frames| && wires[l].frames[m.index] == m.msg
  }

  ghost predicate ReceivedOk(from: Side, received: seq<Inbound>, wires: map<Link, Wire>) {
    && (forall i :: 0 <= i < |received| ==> InboundOk(received[i], from, wires))
    && (forall i, j :: 0 <= i < j < |received| ==>
          received[i].conn != received[j].conn || received[i].index != received[j].index)
  }

  ghost predicate AcceptOk(a: Accept, m: Message, calls: map<Uuid, Call>) {
    match a
    case Arrived => true
    case Handling(_) => !IsAck(m)
    case Done => IsAck(m)
    case _ => IsAck(m) && m.header.uuid in calls
  }

  ghost predicate AcceptsOk(accepts: seq<Accept>, received: seq<Inbound>, calls: map<Uuid, Call>) {
    && |accepts| <= |received|
    && forall i :: 0 <= i < |accepts| ==> AcceptOk(accepts[i], received[i].msg, calls)
  }

  ghost predicate AckFor(u: Uuid, i: nat, received: seq<Inbound>) {
    i < |received| && IsAck(received[i].msg) && received[i].msg.header.uuid == u
  }

  /** A channel holds what distinct ack goroutines sent; it is closed only after something was sent; a call ends with
      an ack only by taking the first thing sent. */
  ghost predicate ChanOk(u: Uuid, ch: Chan, phase: Phase, accepts: seq<Accept>, received: seq<Inbound>) {
    && (forall k :: 0 <= k < |ch.sent| ==>
          var i := ch.sent[k].sender;
          i < |accepts| && AckFor(u, i, received) && (accepts[i].Closing? || accepts[i].Done?) &&
          ch.sent[k].err == AckError(received[i].msg))
    && (forall k, k' :: 0 <= k < k' < |ch.sent| ==> ch.sent[k].sender != ch.sent[k'].sender)
    && (forall k :: 0 <= k < |ch.closers| ==>
          ch.closers[k] < |accepts| && AckFor(u, ch.closers[k], received) && accepts[ch.closers[k]].Done?)
    && |ch.closers| <= 1
    && (ch.closers != [] ==> ch.sent != [])
    && ch.taken <= 1 && ch.taken <= |ch.sent| <= ch.taken + 1
    && ((phase.Registered? || phase.Waiting?) ==> ch.taken == 0)
    && ((phase.Decided? || phase.Returned?) && phase.outcome.Acked? ==>
          ch.taken == 1 && phase.outcome.err == ch.sent[0].err)
  }

  ghost predicate ChansOk(chans: map<Uuid, Chan>, calls: map<Uuid, Call>, accepts: seq<Accept>, received: seq<Inbound>)
  {
    && (forall u :: u in chans && u in calls ==> ChanOk(u, chans[u], calls[u].phase, accepts, received))
    && (forall i ::
          0 <= i < |accepts| && i < |received| && accepts[i].Closing? && received[i].msg.header.uuid in chans ==>
          chans[received[i].msg.header.uuid].sent != [])
  }

  ghost predicate NodeOk(side: Side, x: Node, wires: map<Link, Wire>) {
    && Conserved(x.enqueued, x.written, x.flight, x.queue)
    && LoopsOk(x.conn, x.used, x.writing, x.reading, x.flight)
    && CallsOk(x.calls, x.waitingAcks, x.chans)
    && OriginsOk(x.enqueued, x.calls, x.accepts, x.received)
    && WiresOk(side, x.enqueued, x.used, wires)
    && FlightOk(side, x.enqueued, x.flight, x.writing, x.conn, wires)
    && ReceivedOk(side.Peer(), x.received, wires)
    && AcceptsOk(x.accepts, x.received, x.calls)
    && ChansOk(x.chans, x.calls, x.accepts, x.received)
  }

  ghost predicate Invariant(s: State) {
    && NodeOk(Left, s.left, s.wires)
    && NodeOk(Right, s.right, s.wires)
    && s.left.calls.Keys !! s.right.calls.Keys
  }

  lemma InitialOk()
    ensures Invariant(INITIAL)
  {
  }

  /** Steps that touch one node only: the other node keeps its part of the invariant. */
  lemma KeepLocal(s: State, side: Side, y: Node)
    requires Invariant(s)
    requires NodeOk(side, y, s.wires)
    requires y.calls.Keys - s.At(side).calls.Keys !! s.At(side.Peer()).calls.Keys
    ensures Invariant(s.With(side, y))
  {
  }

  lemma NodeAt(s: State, side: Side)
    requires Invariant(s)
    ensures NodeOk(side, s.At(side), s.wires)
  {
  }

  // ---- What may grow without harm ----

  ghost predicate CallsGrow(calls: map<Uuid, Call>, calls': map<Uuid, Call>) {
    forall u :: u in calls ==>
      && u in calls' && calls'[u].opcode == calls[u].opcode && calls'[u].payload == calls[u].payload
      && (calls'[u].phase.Registered? ==> calls[u].phase.Registered?)
  }

  ghost predicate AcceptGrows(a: Accept, a': Accept) {
    && (a.Handling? ==> a'.Handling? && forall e :: e in a.acks ==> e in a'.acks)
    && (a.Done? ==> a'.Done?)
    && (a.Closing? <==> a'.Closing?)
  }

  ghost predicate AcceptsGrow(accepts: seq<Accept>, accepts': seq<Accept>) {
    && |accepts| <= |accepts'|
    && (forall j :: 0 <= j < |accepts| ==> AcceptGrows(accepts[j], accepts'[j]))
    && (forall j :: |accepts| <= j < |accepts'| ==> accepts'[j].Arrived?)
  }

  lemma OriginsGrow(enqueued: seq<Outbound>, calls: map<Uuid, Call>, accepts: seq<Accept>, received: seq<Inbound>,
                    calls': map<Uuid, Call>, accepts': seq<Accept>, received': seq<Inbound>)
    requires OriginsOk(enqueued, calls, accepts, received)
    requires CallsGrow(calls, calls') && received <= received' && |accepts| <= |accepts'| <= |received'|
    requires forall j :: 0 <= j < |accepts| && accepts[j].Handling? ==> AcceptGrows(accepts[j], accepts'[j])
    ensures OriginsOk(enqueued, calls', accepts', received')
  {
    forall t | 0 <= t < |enqueued| ensures OriginOk(enqueued[t], calls', accepts', received') {
      assert OriginOk(enqueued[t], calls, accepts, received);
    }
  }

  lemma ChansGrow(chans: map<Uuid, Chan>, calls: map<Uuid, Call>, accepts: seq<Accept>, received: seq<Inbound>,
                  accepts': seq<Accept>, received': seq<Inbound>)
    requires ChansOk(chans, calls, accepts, received)
    requires AcceptsGrow(accepts, accepts') && received <= received' && |accepts| <= |received|
    ensures ChansOk(chans, calls, accepts', received')
  {
    forall u | u in chans && u in calls ensures ChanOk(u, chans[u], calls[u].phase, accepts', received') {
      assert ChanOk(u, chans[u], calls[u].phase, accepts, received);
    }
    forall i | 0 <= i < |accepts'| && i < |received'| && accepts'[i].Closing? && received'[i].msg.header.uuid in chans
      ensures chans[received'[i].msg.header.uuid].sent != []
    {
      assert accepts[i].Closing? && received[i] == received'[i];
    }
  }

  // ---- Steps of a call ----

  lemma RegisterNode(side: Side, x: Node, u: Uuid, c: Call, wires: map<Link, Wire>)
    requires NodeOk(side, x, wires) && u !in x.calls && c.phase.Registered? && c.opcode != ACK && Fits(c.payload)
    ensures NodeOk(side, x.(calls := x.calls[u := c], waitingAcks := x.waitingAcks + {u},
                            chans := x.chans[u := Chan([], 0, [])]), wires)
  {
    hide OriginsOk, ChansOk, Conserved, WiresOk, ReceivedOk, FlightOk, LoopsOk, AcceptsOk;
    AcceptsLength(x.accepts, x.received, x.calls);
    OriginsGrow(x.enqueued, x.calls, x.accepts, x.received, x.calls[u := c], x.accepts, x.received);
    AcceptsKeep(x.accepts, x.received, x.calls, x.calls[u := c]);
    RegisterChans(x.chans, x.calls, x.accepts, x.received, u, c);
  }

  lemma RegisterChans(chans: map<Uuid, Chan>, calls: map<Uuid, Call>, accepts: seq<Accept>, received: seq<Inbound>,
                      u: Uuid, c: Call)
    requires ChansOk(chans, calls, accepts, received) && AcceptsOk(accepts, received, calls)
    requires u !in calls && chans.Keys == calls.Keys && c.phase.Registered?
    ensures ChansOk(chans[u := Chan([], 0, [])], calls[u := c], accepts, received)
  {
    forall i | 0 <= i < |accepts| && accepts[i].Closing?
      ensures received[i].msg.header.uuid in chans && received[i].msg.header.uuid != u
    {
      assert AcceptOk(accepts[i], received[i].msg, calls);
    }
  }

  lemma KeepRegister(s: State, step: Step)
    requires Invariant(s) && Enabled(s, step) && step.Register?
    ensures Invariant(Apply(s, step))
  {
    hide Invariant, NodeOk;
    NodeAt(s, step.side);
    RegisterNode(step.side, s.At(step.side), step.uuid, Call(step.opcode, step.payload, Registered), s.wires);
    KeepLocal(s, step.side, Apply(s, step).At(step.side));
  }

  /** A call moves on; if it ends with an ack, that is what it took from its channel. */
  lemma PhaseNode(side: Side, x: Node, u: Uuid, p: Phase, ch: Chan, waiting: set<Uuid>, wires: map<Link, Wire>)
    requires NodeOk(side, x, wires) && u in x.calls && !p.Registered? && !x.calls[u].phase.Returned?
    requires waiting == (if p.Returned? then x.waitingAcks - {u} else x.waitingAcks)
    requires x.chans[u].sent == ch.sent && ChanOk(u, ch, p, x.accepts, x.received)
    ensures NodeOk(side, x.(calls := x.calls[u := x.calls[u].(phase := p)], waitingAcks := waiting,
                            chans := x.chans[u := ch]), wires)
  {
    hide OriginsOk, AcceptsOk, ChansOk, ChanOk, Conserved, WiresOk, ReceivedOk, FlightOk, LoopsOk;
    var calls' := x.calls[u := x.calls[u].(phase := p)];
    AcceptsLength(x.accepts, x.received, x.calls);
    OriginsGrow(x.enqueued, x.calls, x.accepts, x.received, calls', x.accepts, x.received);
    AcceptsKeep(x.accepts, x.received, x.calls, calls');
    PhaseChans(x.chans, x.calls, x.accepts, x.received, u, p, ch);
  }

  lemma AcceptsLength(accepts: seq<Accept>, received: seq<Inbound>, calls: map<Uuid, Call>)
    requires AcceptsOk(accepts, received, calls)
    ensures |accepts| <= |received|
  {
  }

  lemma AcceptsKeep(accepts: seq<Accept>, received: seq<Inbound>, calls: map<Uuid, Call>, calls': map<Uuid, Call>)
    requires AcceptsOk(accepts, received, calls) && calls.Keys <= calls'.Keys
    ensures AcceptsOk(accepts, received, calls')
  {
    forall i | 0 <= i < |accepts| ensures AcceptOk(accepts[i], received[i].msg, calls') {
      assert AcceptOk(accepts[i], received[i].msg, calls);
    }
  }

  lemma PhaseChans(chans: map<Uuid, Chan>, calls: map<Uuid, Call>, accepts: seq<Accept>, received: seq<Inbound>,
                   u: Uuid, p: Phase, ch: Chan)
    requires ChansOk(chans, calls, accepts, received) && u in calls && u in chans
    requires chans[u].sent == ch.sent && ChanOk(u, ch, p, accepts, received)
    ensures ChansOk(chans[u := ch], calls[u := calls[u].(phase := p)], accepts, received)
  {
    hide ChanOk;
  }

  /** What the `select` of a call takes, if it takes an ack, is the first thing sent on its channel. */
  lemma PhaseReady(side: Side, x: Node, wires: map<Link, Wire>, u: Uuid)
    requires NodeOk(side, x, wires) && u in x.calls
    ensures u in x.chans && ChanOk(u, x.chans[u], x.calls[u].phase, x.accepts, x.received)
  {
  }

  lemma KeepReceiveAck(s: State, step: Step)
    requires Invariant(s) && Enabled(s, step) && step.ReceiveAck?
    ensures Invariant(Apply(s, step))
  {
    hide Invariant, NodeOk;
    var x, u := s.At(step.side), step.uuid;
    NodeAt(s, step.side);
    PhaseReady(step.side, x, s.wires, u);
    var ch := x.chans[u];
    PhaseNode(step.side, x, u, Decided(Acked(ch.sent[0].err)), ch.(taken := 1), x.waitingAcks, s.wires);
    KeepLocal(s, step.side, Apply(s, step).At(step.side));
  }

  lemma KeepGiveUp(s: State, step: Step)
    requires Invariant(s) && Enabled(s, step) && (step.GiveUp? || step.Return?)
    ensures Invariant(Apply(s, step))
  {
    hide Invariant, NodeOk;
    var x, y, u := s.At(step.side), Apply(s, step).At(step.side), step.uuid;
    NodeAt(s, step.side);
    PhaseReady(step.side, x, s.wires, u);
    PhaseNode(step.side, x, u, y.calls[u].phase, x.chans[u], y.waitingAcks, s.wires);
    assert x.chans[u := x.chans[u]] == x.chans;
    KeepLocal(s, step.side, y);
  }

  // ---- Giving a message to WriteMessage ----

  lemma ConservedAppend(enqueued: seq<Outbound>, o: Outbound, written: seq<nat>, flight: Flight, queue: seq<nat>)
    requires Conserved(enqueued, written, flight, queue)
    ensures Conserved(enqueued + [o], written, flight, queue + [|enqueued|])
  {
    assert Tickets(written, flight, queue + [|enqueued|]) == Tickets(written, flight, queue) + [|enqueued|];
  }

  lemma WiresGrow(side: Side, enqueued: seq<Outbound>, o: Outbound, used: set<ConnId>, wires: map<Link, Wire>)
    requires WiresOk(side, enqueued, used, wires)
    ensures WiresOk(side, enqueued + [o], used, wires)
  {
    forall l | l in wires && l.from == side ensures WireOk(wires[l], enqueued + [o]) {
      assert WireOk(wires[l], enqueued);
    }
  }

  lemma WriteMessageNode(side: Side, x: Node, o: Outbound, wires: map<Link, Wire>)
    requires NodeOk(side, x, wires)
    requires OriginOk(o, x.calls, x.accepts, x.received)
    ensures NodeOk(side, WriteMessage(x, o), wires)
  {
    hide OriginOk, AcceptsOk, ChansOk, Conserved, WiresOk, ReceivedOk;
    ConservedAppend(x.enqueued, o, x.written, x.flight, x.queue);
    WiresGrow(side, x.enqueued, o, x.used, wires);
  }

  lemma KeepWriteRequest(s: State, step: Step)
    requires Invariant(s) && Enabled(s, step) && step.WriteRequest?
    ensures Invariant(Apply(s, step))
  {
    hide Invariant, NodeOk;
    var x, u := s.At(step.side), step.uuid;
    NodeAt(s, step.side);
    PhaseReady(step.side, x, s.wires, u);
    PhaseNode(step.side, x, u, Waiting, x.chans[u], x.waitingAcks, s.wires);
    assert x.chans[u := x.chans[u]] == x.chans;
    var y := WithPhase(x, u, Waiting);
    var o := Outbound(NewMessage(u, x.calls[u].opcode, x.calls[u].payload), FromCall);
    WriteMessageNode(step.side, y, o, s.wires);
    KeepLocal(s, step.side, WriteMessage(y, o));
  }

  // ---- Steps of the goroutines that accept a message ----

  lemma AcceptNode(side: Side, x: Node, accepts: seq<Accept>, wires: map<Link, Wire>)
    requires NodeOk(side, x, wires)
    requires AcceptsGrow(x.accepts, accepts) && AcceptsOk(accepts, x.received, x.calls)
    ensures NodeOk(side, x.(accepts := accepts), wires)
  {
    OriginsGrow(x.enqueued, x.calls, x.accepts, x.received, x.calls, accepts, x.received);
    ChansGrow(x.chans, x.calls, x.accepts, x.received, accepts, x.received);
  }

  lemma AcceptsAt(side: Side, x: Node, wires: map<Link, Wire>)
    requires NodeOk(side, x, wires)
    ensures AcceptsOk(x.accepts, x.received, x.calls) && CallsOk(x.calls, x.waitingAcks, x.chans)
    ensures ChansOk(x.chans, x.calls, x.accepts, x.received)
  {
  }

  lemma KeepTake(s: State, step: Step)
    requires Invariant(s) && Enabled(s, step) && step.Take?
    ensures Invariant(Apply(s, step))
  {
    hide Invariant, NodeOk;
    var x := s.At(step.side);
    NodeAt(s, step.side);
    AcceptsAt(step.side, x, s.wires);
    AcceptNode(step.side, x, x.accepts + [Arrived], s.wires);
    KeepLocal(s, step.side, x.(accepts := x.accepts + [Arrived]));
  }

  lemma MoveAccept(accepts: seq<Accept>, received: seq<Inbound>, calls: map<Uuid, Call>, i: nat, a: Accept)
    requires AcceptsOk(accepts, received, calls) && i < |accepts| && !a.Closing?
    requires accepts[i].Arrived? || (accepts[i].Handling? && a.Handling? && accepts[i].acks <= a.acks)
    requires AcceptOk(a, received[i].msg, calls)
    ensures AcceptsGrow(accepts, accepts[i := a]) && AcceptsOk(accepts[i := a], received, calls)
  {
  }

  lemma KeepLookup(s: State, step: Step)
    requires Invariant(s) && Enabled(s, step) && step.Lookup?
    ensures Invariant(Apply(s, step))
  {
    hide Invariant, NodeOk, ChansOk, AcceptsOk, AcceptsGrow;
    var x, y := s.At(step.side), Apply(s, step).At(step.side);
    NodeAt(s, step.side);
    AcceptsAt(step.side, x, s.wires);
    MoveAccept(x.accepts, x.received, x.calls, step.i, y.accepts[step.i]);
    AcceptNode(step.side, x, y.accepts, s.wires);
    KeepLocal(s, step.side, y);
  }

  lemma KeepHandle(s: State, step: Step)
    requires Invariant(s) && Enabled(s, step) && step.Handle?
    ensures Invariant(Apply(s, step))
  {
    hide Invariant, NodeOk, ChansOk, CallsOk, AcceptsOk, AcceptsGrow;
    var x, y := s.At(step.side), Apply(s, step).At(step.side);
    NodeAt(s, step.side);
    AcceptsAt(step.side, x, s.wires);
    MoveAccept(x.accepts, x.received, x.calls, step.i, Handling([]));
    AcceptNode(step.side, x, y.accepts, s.wires);
    KeepLocal(s, step.side, y);
  }

  lemma KeepAck(s: State, step: Step)
    requires Invariant(s) && Enabled(s, step) && step.Ack?
    ensures Invariant(Apply(s, step))
  {
    hide Invariant, NodeOk, ChansOk, CallsOk, AcceptsGrow;
    var x, i := s.At(step.side), step.i;
    var accepts := x.accepts[i := Handling(x.accepts[i].acks + [step.err])];
    NodeAt(s, step.side);
    AcceptsAt(step.side, x, s.wires);
    assert AcceptOk(x.accepts[i], x.received[i].msg, x.calls);
    MoveAccept(x.accepts, x.received, x.calls, i, accepts[i]);
    AcceptNode(step.side, x, accepts, s.wires);
    var y := x.(accepts := accepts);
    var o := Outbound(NewAckMessage(x.received[i].msg.header.uuid, step.err), FromHandler(i, step.err));
    WriteMessageNode(step.side, y, o, s.wires);
    KeepLocal(s, step.side, WriteMessage(y, o));
  }

  /** Another channel is not affected by an ack goroutine that moves on. */
  lemma OtherChan(v: Uuid, ch: Chan, phase: Phase, accepts: seq<Accept>, received: seq<Inbound>, i: nat, a: Accept)
    requires ChanOk(v, ch, phase, accepts, received)
    requires i < |accepts| <= |received| && !AckFor(v, i, received)
    requires accepts[i].Sending? || (accepts[i].Closing? && a.Done?)
    ensures ChanOk(v, ch, phase, accepts[i := a], received)
  {
  }

  lemma SentChan(u: Uuid, ch: Chan, phase: Phase, accepts: seq<Accept>, received: seq<Inbound>, i: nat)
    requires ChanOk(u, ch, phase, accepts, received)
    requires i < |accepts| <= |received| && accepts[i].Sending? && AckFor(u, i, received)
    requires |ch.sent| <= ch.taken
    ensures ChanOk(u, ch.(sent := ch.sent + [Signal(AckError(received[i].msg), i)]), phase, accepts[i := Closing],
                   received)
  {
  }

  lemma ClosedChan(u: Uuid, ch: Chan, phase: Phase, accepts: seq<Accept>, received: seq<Inbound>, i: nat)
    requires ChanOk(u, ch, phase, accepts, received) && ch.closers == [] && ch.sent != []
    requires i < |accepts| <= |received| && accepts[i].Closing? && AckFor(u, i, received)
    ensures ChanOk(u, ch.(closers := ch.closers + [i]), phase, accepts[i := Done], received)
  {
  }

  lemma SignalChans(chans: map<Uuid, Chan>, calls: map<Uuid, Call>, accepts: seq<Accept>, received: seq<Inbound>,
                    i: nat, a: Accept, ch: Chan)
    requires ChansOk(chans, calls, accepts, received) && AcceptsOk(accepts, received, calls) && chans.Keys == calls.Keys
    requires i < |accepts| && AckFor(received[i].msg.header.uuid, i, received) && received[i].msg.header.uuid in calls
    requires (accepts[i].Sending? && a.Closing?) || (accepts[i].Closing? && a.Done?)
    requires ch.sent != []
    requires var u := received[i].msg.header.uuid; ChanOk(u, ch, calls[u].phase, accepts[i := a], received)
    ensures ChansOk(chans[received[i].msg.header.uuid := ch], calls, accepts[i := a], received)
  {
    hide ChanOk;
    var u := received[i].msg.header.uuid;
    forall v | v in chans && v != u ensures ChanOk(v, chans[v], calls[v].phase, accepts[i := a], received) {
      OtherChan(v, chans[v], calls[v].phase, accepts, received, i, a);
    }
  }

  /** An ack goroutine that does not panic moves on and changes the channel of its call. */
  lemma SignalNode(side: Side, x: Node, i: nat, a: Accept, ch: Chan, wires: map<Link, Wire>)
    requires NodeOk(side, x, wires)
    requires i < |x.accepts| && i < |x.received|
    requires (x.accepts[i].Sending? && a.Closing?) || (x.accepts[i].Closing? && a.Done?)
    requires ch.sent != []
    requires var u := x.received[i].msg.header.uuid;
             u in x.calls && ChanOk(u, ch, x.calls[u].phase, x.accepts[i := a], x.received)
    ensures NodeOk(side, x.(accepts := x.accepts[i := a], chans := x.chans[x.received[i].msg.header.uuid := ch]), wires)
  {
    hide OriginsOk, ChansOk, ChanOk, Conserved, WiresOk, ReceivedOk, FlightOk, LoopsOk;
    assert AcceptOk(x.accepts[i], x.received[i].msg, x.calls);
    OriginsGrow(x.enqueued, x.calls, x.accepts, x.received, x.calls, x.accepts[i := a], x.received);
    SignalChans(x.chans, x.calls, x.accepts, x.received, i, a, ch);
  }

  lemma KeepSendSignal(s: State, step: Step)
    requires Invariant(s) && Enabled(s, step) && step.SendSignal? && !Apply(s, step).At(step.side).crashed
    ensures Invariant(Apply(s, step))
  {
    hide Invariant, NodeOk, ChanOk;
    var x, i := s.At(step.side), step.i;
    NodeAt(s, step.side);
    AcceptsAt(step.side, x, s.wires);
    assert AcceptOk(x.accepts[i], x.received[i].msg, x.calls);
    var u := x.received[i].msg.header.uuid;
    SentChan(u, x.chans[u], x.calls[u].phase, x.accepts, x.received, i);
    SignalNode(step.side, x, i, Closing, Apply(s, step).At(step.side).chans[u], s.wires);
    KeepLocal(s, step.side, Apply(s, step).At(step.side));
  }

  lemma KeepCloseChan(s: State, step: Step)
    requires Invariant(s) && Enabled(s, step) && step.CloseChan? && !Apply(s, step).At(step.side).crashed
    ensures Invariant(Apply(s, step))
  {
    hide Invariant, NodeOk, ChanOk;
    var x, i := s.At(step.side), step.i;
    NodeAt(s, step.side);
    AcceptsAt(step.side, x, s.wires);
    assert AcceptOk(x.accepts[i], x.received[i].msg, x.calls);
    var u := x.received[i].msg.header.uuid;
    ClosedChan(u, x.chans[u], x.calls[u].phase, x.accepts, x.received, i);
    SignalNode(step.side, x, i, Done, Apply(s, step).At(step.side).chans[u], s.wires);
    KeepLocal(s, step.side, Apply(s, step).At(step.side));
  }

  lemma CrashNode(side: Side, x: Node, wires: map<Link, Wire>)
    requires NodeOk(side, x, wires)
    ensures NodeOk(side, x.(crashed := true), wires)
  {
  }

  lemma KeepCrash(s: State, step: Step)
    requires Invariant(s) && Enabled(s, step) && Apply(s, step).At(step.side).crashed
    requires step.SendSignal? || step.CloseChan?
    ensures Invariant(Apply(s, step))
  {
    hide Invariant, NodeOk;
    NodeAt(s, step.side);
    CrashNode(step.side, s.At(step.side), s.wires);
    KeepLocal(s, step.side, s.At(step.side).(crashed := true));
  }

  // ---- Steps of the loops that consume a connection ----

  lemma LoopNode(side: Side, x: Node, conn: Option<ConnId>, used: set<ConnId>, writing: bool, reading: bool,
                 wires: map<Link, Wire>)
    requires NodeOk(side, x, wires)
    requires LoopsOk(conn, used, writing, reading, x.flight) && x.used <= used
    requires writing ==> (x.writing && conn == x.conn) || (x.flight.Idle? && conn.Some? && conn.value !in x.used)
    ensures NodeOk(side, x.(conn := conn, used := used, writing := writing, reading := reading), wires)
  {
  }

  lemma LoopsAt(side: Side, x: Node, wires: map<Link, Wire>)
    requires NodeOk(side, x, wires)
    ensures LoopsOk(x.conn, x.used, x.writing, x.reading, x.flight)
    ensures FlightOk(side, x.enqueued, x.flight, x.writing, x.conn, wires)
  {
  }

  lemma KeepAttach(s: State, step: Step)
    requires Invariant(s) && Enabled(s, step) && step.Attach?
    ensures Invariant(Apply(s, step))
  {
    hide Invariant, NodeOk, FlightOk;
    var x, c := s.At(step.side), step.conn;
    NodeAt(s, step.side);
    LoopsAt(step.side, x, s.wires);
    LoopNode(step.side, x, Some(c), x.used + {c}, true, true, s.wires);
    KeepLocal(s, step.side, Apply(s, step).At(step.side));
  }

  lemma KeepStop(s: State, step: Step)
    requires Invariant(s) && Enabled(s, step)
    requires step.StopWriting? || step.StopReading? || step.Detach?
    ensures Invariant(Apply(s, step))
  {
    hide Invariant, NodeOk, FlightOk;
    var x, y := s.At(step.side), Apply(s, step).At(step.side);
    NodeAt(s, step.side);
    LoopsAt(step.side, x, s.wires);
    LoopNode(step.side, x, y.conn, y.used, y.writing, y.reading, s.wires);
    KeepLocal(s, step.side, y);
  }

  /** Polling, a successful write and a failed write that is prepended only move tickets. */
  lemma WriterNode(side: Side, x: Node, written: seq<nat>, flight: Flight, queue: seq<nat>, writing: bool,
                   wires: map<Link, Wire>)
    requires NodeOk(side, x, wires)
    requires x.writing && Tickets(written, flight, queue) == Tickets(x.written, x.flight, x.queue)
    requires flight.Writing? ==> x.flight.Idle? && writing && flight.out == 0
    requires writing ==> TornBy(x.flight, x.enqueued) == []
    ensures NodeOk(side, x.(written := written, flight := flight, queue := queue, writing := writing), wires)
  {
    hide OriginsOk, ChansOk, AcceptsOk, CallsOk, WiresOk, ReceivedOk;
    if flight.Writing? {
      var all := Tickets(written, flight, queue);
      assert all[|written|] == flight.ticket;
    }
  }

  lemma KeepWriter(s: State, step: Step)
    requires Invariant(s) && Enabled(s, step)
    requires step.Poll? || step.WriteOk? || step.WriteFail?
    ensures Invariant(Apply(s, step))
  {
    hide Invariant, NodeOk;
    var x, y := s.At(step.side), Apply(s, step).At(step.side);
    NodeAt(s, step.side);
    assert Tickets(y.written, y.flight, y.queue) == Tickets(x.written, x.flight, x.queue);
    WriterNode(step.side, x, y.written, y.flight, y.queue, y.writing, s.wires);
    KeepLocal(s, step.side, y);
  }

  // ---- Bytes ----

  lemma TornNoFrame(m: Message, k: nat)
    requires WellFormed(m) && k < |Encode(m)|
    ensures NoFrame(Encode(m)[..k])
  {
    hide Encode, DecodeFrame;
    forall n | 0 <= n <= k ensures DecodeFrame(Encode(m)[..k][..n], EOF).Stopped? {
      assert Encode(m)[..k][..n] == Encode(m)[..n];
      StrictPrefixDecodesToNothing(m, n, EOF);
    }
  }

  lemma EmptyNoFrame()
    ensures NoFrame([])
  {
  }

  /** Putting bytes of the frame in flight on the wire: it stays whole frames and then a strict prefix of one. */
  lemma PutBytesWire(w: Wire, enqueued: seq<Outbound>, t: nat, out: nat, n: nat)
    requires WireOk(w, enqueued) && t < |enqueued| && WellFormed(enqueued[t].msg)
    requires 0 < n && out + n <= |Encode(enqueued[t].msg)| && w.torn == Encode(enqueued[t].msg)[..out]
    ensures var w' := PutOnWire(w, enqueued[t].msg, t, out, n);
            && WireOk(w', enqueued)
            && w'.torn == TornBy(Writing(t, out + n), enqueued)
            && w'.got == w.got && w.frames <= w'.frames
  {
    hide Encode, NoFrame, EncodeAll;
    var m := enqueued[t].msg;
    var w' := PutOnWire(w, m, t, out, n);
    assert w.torn + Encode(m)[out..out + n] == Encode(m)[..out + n];
    assert w'.bytes == EncodeAll(w.frames) + (w.torn + Encode(m)[out..out + n]);
    if out + n == |Encode(m)| {
      assert w'.frames[..w.got] == w.frames[..w.got];
      assert Encode(m)[..out + n] == Encode(m);
      EncodeAllConcat(w.frames, [m]);
      EncodeAllSingle(m);
      assert w'.bytes == EncodeAll(w'.frames) + [];
      EmptyNoFrame();
    } else {
      TornNoFrame(m, out + n);
    }
  }

  /** What is left of a wire, however much of it is visible, decodes to its first frame or to nothing. */
  lemma DecodeFirst(after: seq<Message>, torn: seq<Byte>, n: nat)
    requires AllWellFormed(after) && NoFrame(torn) && n <= |EncodeAll(after) + torn|
    ensures var d := DecodeFrame((EncodeAll(after) + torn)[..n], EOF);
            d.Stopped? || (after != [] && d == Frame(after[0], |Encode(after[0])|))
  {
    hide Encode, DecodeFrame, EncodeAll;
    var seen := (EncodeAll(after) + torn)[..n];
    if after == [] {
      EmptyEncodesToNothing();
      assert seen == torn[..n];
    } else {
      var m := after[0];
      assert after == [m] + after[1..];
      EncodeAllConcat([m], after[1..]);
      EncodeAllSingle(m);
      var rest := EncodeAll(after[1..]) + torn;
      assert EncodeAll(after) + torn == Encode(m) + rest;
      if n < |Encode(m)| {
        assert seen == Encode(m)[..n];
        StrictPrefixDecodesToNothing(m, n, EOF);
      } else {
        assert seen == Encode(m) + rest[..n - |Encode(m)|];
        DecodeEncode(m, rest[..n - |Encode(m)|], EOF);
      }
    }
  }

  lemma EmptyEncodesToNothing()
    ensures EncodeAll([]) == []
  {
  }

  /** What a reader decodes is the next full frame of the wire. */
  lemma DecodeNext(w: Wire, enqueued: seq<Outbound>, visible: nat)
    requires WireOk(w, enqueued) && w.pos <= visible <= |w.bytes|
    requires DecodeFrame(w.bytes[w.pos..visible], EOF).Frame?
    ensures var d := DecodeFrame(w.bytes[w.pos..visible], EOF);
            w.got < |w.frames| && d.msg == w.frames[w.got] && w.pos + d.size == |EncodeAll(w.frames[..w.got + 1])|
  {
    hide Encode, DecodeFrame, NoFrame, EncodeAll;
    var before, after := w.frames[..w.got], w.frames[w.got..];
    assert before + after == w.frames;
    EncodeAllConcat(before, after);
    assert w.bytes[w.pos..visible] == (EncodeAll(after) + w.torn)[..visible - w.pos];
    DecodeFirst(after, w.torn, visible - w.pos);
    assert w.frames[..w.got + 1] == before + [after[0]];
    EncodeAllConcat(before, [after[0]]);
    EncodeAllSingle(after[0]);
  }

  /** One wire of `side` changes under the node that writes to it. */
  lemma WriterWire(side: Side, x: Node, flight: Flight, wires: map<Link, Wire>, c: ConnId, w: Wire)
    requires NodeOk(side, x, wires)
    requires x.conn == Some(c) && x.writing && x.flight.Writing? && flight.Writing? && flight.ticket == x.flight.ticket
    requires flight.out <= |Encode(x.enqueued[flight.ticket].msg)|
    requires WireOk(w, x.enqueued) && w.torn == TornBy(flight, x.enqueued)
    ensures NodeOk(side, x.(flight := flight), wires[Link(side, c) := w])
  {
    hide OriginsOk, ChansOk, AcceptsOk, CallsOk, WireOk, TornBy, Encode;
    var wires' := wires[Link(side, c) := w];
    assert Conserved(x.enqueued, x.written, flight, x.queue);
    assert ReceivedOk(side.Peer(), x.received, wires') by {
      forall i | 0 <= i < |x.received| ensures InboundOk(x.received[i], side.Peer(), wires') {
        assert InboundOk(x.received[i], side.Peer(), wires);
      }
    }
  }

  /** The other end of a wire whose frames grow. */
  lemma ReaderWire(side: Side, y: Node, wires: map<Link, Wire>, c: ConnId, w: Wire)
    requires NodeOk(side, y, wires)
    requires var v := WireOf(wires, Link(side.Peer(), c)); v.got == w.got && v.frames <= w.frames
    ensures NodeOk(side, y, wires[Link(side.Peer(), c) := w])
  {
    hide OriginsOk, ChansOk, AcceptsOk, CallsOk, Conserved, WireOk, TornBy, Encode;
    var wires' := wires[Link(side.Peer(), c) := w];
    assert ReceivedOk(side.Peer(), y.received, wires') by {
      forall i | 0 <= i < |y.received| ensures InboundOk(y.received[i], side.Peer(), wires') {
        assert InboundOk(y.received[i], side.Peer(), wires);
      }
    }
  }

  lemma EmptyWireOk(enqueued: seq<Outbound>)
    ensures WireOk(EMPTY, enqueued)
  {
    EmptyNoFrame();
  }

  lemma FlightAt(side: Side, x: Node, wires: map<Link, Wire>)
    requires NodeOk(side, x, wires) && x.flight.Writing?
    ensures x.flight.ticket < |x.enqueued| && x.conn.Some? && x.writing
    ensures var w := WireOf(wires, Link(side, x.conn.value));
            && WireOk(w, x.enqueued) && WellFormed(x.enqueued[x.flight.ticket].msg)
            && w.torn == TornBy(x.flight, x.enqueued)
  {
    hide ChansOk, ReceivedOk, Conserved, AcceptsOk, TornBy, Encode;
    EmptyWireOk(x.enqueued);
    assert OriginOk(x.enqueued[x.flight.ticket], x.calls, x.accepts, x.received);
  }

  lemma Combine(s: State, side: Side, x: Node, y: Node, wires: map<Link, Wire>)
    requires Invariant(s)
    requires NodeOk(side, x, wires) && NodeOk(side.Peer(), y, wires)
    requires x.calls == s.At(side).calls && y == s.At(side.Peer())
    ensures Invariant(s.With(side, x).(wires := wires))
  {
  }

  lemma KeepPutBytes(s: State, step: Step)
    requires Invariant(s) && Enabled(s, step) && step.PutBytes?
    ensures Invariant(Apply(s, step))
  {
    hide Invariant, NodeOk, WireOk;
    var side, x := step.side, s.At(step.side);
    NodeAt(s, side);
    NodeAt(s, side.Peer());
    FlightAt(side, x, s.wires);
    var Writing(t, out) := x.flight;
    var l := Link(side, x.conn.value);
    PutBytesWire(WireOf(s.wires, l), x.enqueued, t, out, step.n);
    var w := PutOnWire(WireOf(s.wires, l), x.enqueued[t].msg, t, out, step.n);
    WriterWire(side, x, Writing(t, out + step.n), s.wires, x.conn.value, w);
    ReaderWire(side.Peer(), s.At(side.Peer()), s.wires, x.conn.value, w);
    Combine(s, side, x.(flight := Writing(t, out + step.n)), s.At(side.Peer()), s.wires[l := w]);
  }

  /** The reader of a wire has decoded its next frame. */
  lemma ReadNode(side: Side, x: Node, wires: map<Link, Wire>, c: ConnId)
    requires NodeOk(side, x, wires)
    requires Link(side.Peer(), c) in wires
    requires wires[Link(side.Peer(), c)].got < |wires[Link(side.Peer(), c)].frames|
    ensures var l := Link(side.Peer(), c);
            var w := wires[l].(pos := |EncodeAll(wires[l].frames[..wires[l].got + 1])|, got := wires[l].got + 1);
            NodeOk(side, x.(received := x.received + [Inbound(w.frames[w.got - 1], c, w.got - 1)]), wires[l := w])
  {
    hide ChansOk, CallsOk, Conserved, WireOk, EncodeAll, OriginsOk, AcceptOk;
    var l := Link(side.Peer(), c);
    var w := wires[l].(pos := |EncodeAll(wires[l].frames[..wires[l].got + 1])|, got := wires[l].got + 1);
    var received := x.received + [Inbound(w.frames[w.got - 1], c, w.got - 1)];
    OriginsGrow(x.enqueued, x.calls, x.accepts, x.received, x.calls, x.accepts, received);
    ChansGrow(x.chans, x.calls, x.accepts, x.received, x.accepts, received);
    assert ReceivedOk(side.Peer(), received, wires[l := w]) by {
      forall i | 0 <= i < |x.received|
        ensures InboundOk(x.received[i], side.Peer(), wires[l := w])
        ensures x.received[i].conn != c || x.received[i].index < w.got - 1
      {
        assert InboundOk(x.received[i], side.Peer(), wires);
      }
    }
  }

  /** The writer of a wire whose reader moved on. */
  lemma WrittenNode(side: Side, y: Node, wires: map<Link, Wire>, c: ConnId)
    requires NodeOk(side, y, wires)
    requires Link(side, c) in wires && wires[Link(side, c)].got < |wires[Link(side, c)].frames|
    ensures var l := Link(side, c);
            var w := wires[l].(pos := |EncodeAll(wires[l].frames[..wires[l].got + 1])|, got := wires[l].got + 1);
            NodeOk(side, y, wires[l := w])
  {
    hide ChansOk, CallsOk, Conserved, OriginsOk, AcceptsOk, NoFrame, EncodeAll;
    var l := Link(side, c);
    var w := wires[l].(pos := |EncodeAll(wires[l].frames[..wires[l].got + 1])|, got := wires[l].got + 1);
    assert WireOk(wires[l], y.enqueued);
    assert WireOk(w, y.enqueued);
    assert ReceivedOk(side.Peer(), y.received, wires[l := w]) by {
      forall i | 0 <= i < |y.received| ensures InboundOk(y.received[i], side.Peer(), wires[l := w]) {
        assert InboundOk(y.received[i], side.Peer(), wires);
      }
    }
  }

  lemma WireAt(side: Side, y: Node, wires: map<Link, Wire>, l: Link)
    requires NodeOk(side, y, wires) && l in wires && l.from == side
    ensures WireOk(wires[l], y.enqueued)
  {
  }

  /** A read decodes something only on a connection that was written on. */
  lemma ReadOnWire(s: State, step: Step)
    requires Enabled(s, step) && step.ReadFrame?
    ensures var x, peer := s.At(step.side), step.side.Peer();
            && x.conn.Some? && Link(peer, x.conn.value) in s.wires
            && var w := s.wires[Link(peer, x.conn.value)];
               w.pos <= step.visible <= |w.bytes| && DecodeFrame(w.bytes[w.pos..step.visible], EOF).Frame?
  {
    hide DecodeFrame;
  }

  lemma ReadFrameEffect(s: State, step: Step)
    requires Enabled(s, step) && step.ReadFrame?
    requires s.At(step.side).conn.Some? && Link(step.side.Peer(), s.At(step.side).conn.value) in s.wires
    ensures var side, x := step.side, s.At(step.side);
            var l := Link(side.Peer(), x.conn.value);
            var w := s.wires[l];
            && w.pos <= step.visible <= |w.bytes|
            && var d := DecodeFrame(w.bytes[w.pos..step.visible], EOF);
               && d.Frame?
               && Apply(s, step) == s.With(side, x.(received := x.received + [Inbound(d.msg, x.conn.value, w.got)]))
                                    .(wires := s.wires[l := w.(pos := w.pos + d.size, got := w.got + 1)])
  {
    hide DecodeFrame;
  }

  lemma KeepReadFrame(s: State, step: Step)
    requires Invariant(s) && Enabled(s, step) && step.ReadFrame?
    ensures Invariant(Apply(s, step))
  {
    hide *;
    ReadOnWire(s, step);
    ReadFrameEffect(s, step);
    var side, x, y := step.side, s.At(step.side), s.At(step.side.Peer());
    var c := x.conn.value;
    var l := Link(side.Peer(), c);
    NodeAt(s, side);
    NodeAt(s, side.Peer());
    WireAt(side.Peer(), y, s.wires, l);
    DecodeNext(s.wires[l], y.enqueued, step.visible);
    ReadNode(side, x, s.wires, c);
    WrittenNode(side.Peer(), y, s.wires, c);
    var w := s.wires[l].(pos := |EncodeAll(s.wires[l].frames[..s.wires[l].got + 1])|, got := s.wires[l].got + 1);
    Combine(s, side, x.(received := x.received + [Inbound(w.frames[w.got - 1], c, w.got - 1)]), y, s.wires[l := w]);
  }

  /** The invariant is kept by every step. */
  lemma KeepInvariant(s: State, step: Step)
    requires Invariant(s) && Enabled(s, step)
    ensures Invariant(Apply(s, step))
  {
    hide *;
    match step
    case Register(_, _, _, _) => KeepRegister(s, step);
    case WriteRequest(_, _) => KeepWriteRequest(s, step);
    case ReceiveAck(_, _) => KeepReceiveAck(s, step);
    case GiveUp(_, _, _) => KeepGiveUp(s, step);
    case Return(_, _) => KeepGiveUp(s, step);
    case Attach(_, _) => KeepAttach(s, step);
    case Poll(_) => KeepWriter(s, step);
    case PutBytes(_, _) => KeepPutBytes(s, step);
    case WriteOk(_) => KeepWriter(s, step);
    case WriteFail(_, _) => KeepWriter(s, step);
    case StopWriting(_) => KeepStop(s, step);
    case ReadFrame(_, _) => KeepReadFrame(s, step);
    case StopReading(_) => KeepStop(s, step);
    case Detach(_) => KeepStop(s, step);
    case Take(_) => KeepTake(s, step);
    case Lookup(_, _) => KeepLookup(s, step);
    case SendSignal(_, _) =>
      if Apply(s, step).At(step.side).crashed { KeepCrash(s, step); } else { KeepSendSignal(s, step); }
    case CloseChan(_, _) =>
      if Apply(s, step).At(step.side).crashed { KeepCrash(s, step); } else { KeepCloseChan(s, step); }
    case Handle(_, _) => KeepHandle(s, step);
    case Ack(_, _, _) => KeepAck(s, step);
  }

  /** The invariant holds in every reachable state. */
  lemma {:induction false} InvariantAlong(s: State, steps: seq<Step>)
    requires Invariant(s) && Run(s, steps)
    ensures Invariant(After(s, steps))
    decreases |steps|
  {
    hide Invariant, Enabled, Apply;
    if steps != [] {
      KeepInvariant(s, steps[0]);
      InvariantAlong(Apply(s, steps[0]), steps[1..]);
    }
  }
}
