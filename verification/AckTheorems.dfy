/** What every run of the two nodes guarantees. */
module AckTheorems {
  import opened Bytes
  import opened Frames
  import opened AckProtocol
  import opened AckInvariant

  /** Every message a node receives is one the other node gave to WriteMessage. */
  lemma ReceivedWasEnqueued(s: State, side: Side, i: nat) returns (t: nat)
    requires Invariant(s) && i < |s.At(side).received|
    ensures var y := s.At(side.Peer());
            && t < |y.enqueued| && y.enqueued[t].msg == s.At(side).received[i].msg
            && OriginOk(y.enqueued[t], y.calls, y.accepts, y.received)
  {
    hide ChansOk, CallsOk, Conserved, AcceptsOk, EncodeAll, OriginOk, NoFrame;
    var x, y := s.At(side), s.At(side.Peer());
    var m := x.received[i];
    assert InboundOk(m, side.Peer(), s.wires);
    var w := s.wires[Link(side.Peer(), m.conn)];
    assert WireOk(w, y.enqueued);
    t := w.tickets[m.index];
  }

  /** An ack that `side` receives answers a call of `side`: the peer's handler was started on exactly the message of
      that call, and called its ack function with what the ack carries. */
  lemma AckComesFromHandler(s: State, side: Side, i: nat) returns (j: nat, err: Option<Text>)
    requires Invariant(s) && i < |s.At(side).received| && IsAck(s.At(side).received[i].msg)
    ensures HandledWith(s, side, s.At(side).received[i].msg.header.uuid, j, err)
    ensures AckError(s.At(side).received[i].msg) == (if AckText(err) == [] then None else Some(AckText(err)))
  {
    hide ChansOk, Conserved, WiresOk, ReceivedOk, FlightOk;
    var x, y := s.At(side), s.At(side.Peer());
    var t := ReceivedWasEnqueued(s, side, i);
    assert y.enqueued[t].origin.FromHandler?;
    j, err := y.enqueued[t].origin.thread, y.enqueued[t].origin.err;
    assert AcceptOk(y.accepts[j], y.received[j].msg, y.calls);
    var t' := ReceivedWasEnqueued(s, side.Peer(), j);
    assert side.Peer().Peer() == side;
    assert x.enqueued[t'].origin.FromCall?;
  }

  /** The peer of `side` started a handler on exactly the message of call `u`, and that handler acked with `err`. */
  ghost predicate HandledWith(s: State, side: Side, u: Uuid, j: nat, err: Option<Text>) {
    var x, y := s.At(side), s.At(side.Peer());
    && u in x.calls && !x.calls[u].phase.Registered?
    && j < |y.accepts| && j < |y.received|
    && y.received[j].msg == NewMessage(u, x.calls[u].opcode, x.calls[u].payload)
    && y.accepts[j].Handling? && err in y.accepts[j].acks
  }

  ghost predicate Ended(c: Call) {
    c.phase.Decided? || c.phase.Returned?
  }

  /** What an ended call reports came out of a handler at the peer. */
  lemma EndedByHandler(s: State, side: Side, u: Uuid) returns (j: nat, err: Option<Text>)
    requires Invariant(s) && u in s.At(side).calls && Ended(s.At(side).calls[u])
    requires s.At(side).calls[u].phase.outcome.Acked?
    ensures HandledWith(s, side, u, j, err)
    ensures s.At(side).calls[u].phase.outcome.err == (if AckText(err) == [] then None else Some(AckText(err)))
  {
    var x := s.At(side);
    var i := SignalTaken(s, side, u);
    j, err := AckComesFromHandler(s, side, i);
  }

  lemma SignalTaken(s: State, side: Side, u: Uuid) returns (i: nat)
    requires Invariant(s) && u in s.At(side).calls && Ended(s.At(side).calls[u])
    requires s.At(side).calls[u].phase.outcome.Acked?
    ensures AckFor(u, i, s.At(side).received)
    ensures s.At(side).calls[u].phase.outcome.err == AckError(s.At(side).received[i].msg)
  {
    hide Conserved, WiresOk, ReceivedOk, FlightOk, OriginsOk, AcceptsOk;
    var x := s.At(side);
    assert ChanOk(u, x.chans[u], x.calls[u].phase, x.accepts, x.received);
    i := x.chans[u].sent[0].sender;
  }

  /** Ack soundness: in every run, whatever broke and was sent again, a send that reports success was handled: the
      peer's handler was started on exactly its opcode and payload and acked without an error, or with an empty one. */
  lemma AckSoundness(steps: seq<Step>, side: Side, u: Uuid)
    requires Run(INITIAL, steps)
    ensures var s := After(INITIAL, steps);
            u in s.At(side).calls && Ended(s.At(side).calls[u]) && s.At(side).calls[u].phase.outcome == Acked(None) ==>
            exists j :: HandledWith(s, side, u, j, None) || HandledWith(s, side, u, j, Some([]))
  {
    hide Invariant, Enabled, Apply, HandledWith;
    InitialOk();
    InvariantAlong(INITIAL, steps);
    var s := After(INITIAL, steps);
    if u in s.At(side).calls && Ended(s.At(side).calls[u]) && s.At(side).calls[u].phase.outcome == Acked(None) {
      var j, err := EndedByHandler(s, side, u);
      assert err == None || err == Some([]);
    }
  }

  /** An error that a send reports from an ack is the non-empty text some handler of that very message acked with. */
  lemma AckErrorSoundness(steps: seq<Step>, side: Side, u: Uuid, text: Text)
    requires Run(INITIAL, steps)
    ensures var s := After(INITIAL, steps);
            u in s.At(side).calls && Ended(s.At(side).calls[u]) &&
            s.At(side).calls[u].phase.outcome == Acked(Some(text)) ==>
            text != [] && exists j :: HandledWith(s, side, u, j, Some(text))
  {
    hide Invariant, Enabled, Apply, HandledWith;
    InitialOk();
    InvariantAlong(INITIAL, steps);
    var s := After(INITIAL, steps);
    if u in s.At(side).calls && Ended(s.At(side).calls[u]) && s.At(side).calls[u].phase.outcome == Acked(Some(text)) {
      var j, err := EndedByHandler(s, side, u);
      assert err == Some(text);
    }
  }

  /** Write-queue conservation: in every run, the messages written, then the one in flight, then the queue, are
      exactly the messages given to WriteMessage, in that order. */
  lemma WriteQueueConservation(steps: seq<Step>, side: Side)
    requires Run(INITIAL, steps)
    ensures var x := After(INITIAL, steps).At(side);
            var all := x.written + FlightTickets(x.flight) + x.queue;
            && |all| == |x.enqueued|
            && forall i :: 0 <= i < |all| ==> all[i] == i
  {
    hide Enabled, Apply;
    InitialOk();
    InvariantAlong(INITIAL, steps);
  }

  /** Pending-send exactness: in every reachable state `waitingAcks` holds exactly the calls that registered and have
      not returned; every ack a node receives is for a call it made; and the lookup of that ack misses only if the
      call has returned. */
  lemma PendingSends(steps: seq<Step>, side: Side)
    requires Run(INITIAL, steps)
    ensures var x := After(INITIAL, steps).At(side);
            && (forall u :: u in x.waitingAcks <==> u in x.calls && !x.calls[u].phase.Returned?)
            && (forall i :: 0 <= i < |x.received| && IsAck(x.received[i].msg) ==>
                  var u := x.received[i].msg.header.uuid;
                  u in x.calls && u in x.chans && (u in x.waitingAcks || x.calls[u].phase.Returned?))
  {
    hide Enabled, Apply, Conserved, WiresOk, ReceivedOk, FlightOk, OriginsOk, AcceptsOk, ChansOk;
    InitialOk();
    InvariantAlong(INITIAL, steps);
    var s := After(INITIAL, steps);
    var x := s.At(side);
    forall i | 0 <= i < |x.received| && IsAck(x.received[i].msg) ensures x.received[i].msg.header.uuid in x.calls {
      var j, err := AckComesFromHandler(s, side, i);
    }
  }

  /** The lookup of an ack finds the channel of its call exactly when that call has not returned. */
  lemma LookupFindsPending(steps: seq<Step>, side: Side, i: nat)
    requires Run(INITIAL, steps) && Enabled(After(INITIAL, steps), Lookup(side, i))
    ensures var x := After(INITIAL, steps).At(side);
            var u := x.received[i].msg.header.uuid;
            && u in x.calls
            && Apply(After(INITIAL, steps), Lookup(side, i)).At(side).accepts[i] ==
               if x.calls[u].phase.Returned? then Done else Sending
  {
    PendingSends(steps, side);
  }

  /** An ack channel has one slot: in every run, disciplined or not, at most one signal waits in it, and one that waits
      in an open channel keeps the next one out. */
  lemma ChannelHoldsOne(steps: seq<Step>, side: Side, u: Uuid)
    requires Run(INITIAL, steps) && u in After(INITIAL, steps).At(side).chans
    ensures var s := After(INITIAL, steps);
            var x := s.At(side);
            && SlotOk(x, u)
            && (x.chans[u].closers == [] && x.chans[u].taken < |x.chans[u].sent| ==> NoSend(s, side, u))
  {
    hide Enabled, Apply;
    InitialOk();
    InvariantAlong(INITIAL, steps);
    var s := After(INITIAL, steps);
    SlotHolds(s, side, u);
    hide Invariant;
    if s.At(side).chans[u].closers == [] && s.At(side).chans[u].taken < |s.At(side).chans[u].sent| {
      FullKeepsOut(s, side, u);
    }
  }

  ghost predicate NoSend(s: State, side: Side, u: Uuid) {
    forall i: nat :: i < |s.At(side).received| && s.At(side).received[i].msg.header.uuid == u ==>
      !Enabled(s, SendSignal(side, i))
  }

  lemma FullKeepsOut(s: State, side: Side, u: Uuid)
    requires u in s.At(side).chans
    requires s.At(side).chans[u].closers == [] && s.At(side).chans[u].taken < |s.At(side).chans[u].sent|
    ensures NoSend(s, side, u)
  {
  }

  ghost predicate SlotOk(x: Node, u: Uuid)
    requires u in x.chans
  {
    x.chans[u].taken <= |x.chans[u].sent| <= x.chans[u].taken + 1
  }

  lemma SlotHolds(s: State, side: Side, u: Uuid)
    requires Invariant(s) && u in s.At(side).chans
    ensures SlotOk(s.At(side), u)
  {
    hide Conserved, WiresOk, ReceivedOk, FlightOk, OriginsOk, AcceptsOk;
    var x := s.At(side);
    assert ChanOk(u, x.chans[u], x.calls[u].phase, x.accepts, x.received);
  }
}
