/**
  Two nodes of the protocol, each driven by the goroutines of a client or server connection. The guards of the two-node
  protocol say that a node has one writer and one reader at a time; here they are proved of the goroutines.
*/
module DrivenNodes {
  import opened Bytes
  import Ack = AckProtocol
  import AckAtMostOnce
  import AckInvariant
  import AckPanics
  import AckTheorems
  import Handlers
  import Life = Lifecycle

  /** The connection a node is on, those it was on, and whether its writing and reading loops run. */
  datatype Loops = Loops(conn: Option<nat>, used: set<nat>, writing: bool, reading: bool)

  function LoopsOf(x: Ack.Node): (l: Loops) {
    Loops(x.conn, x.used, x.writing, x.reading)
  }

  predicate IsRunning(s: Life.State, w: Life.Worker) {
    w in s.workers && s.workers[w].Running?
  }

  function LoopsNow(s: Life.State): (l: Loops) {
    if s.main.Consuming? then
      var c := s.main.conn;
      Loops(Some(c), s.consumed, IsRunning(s, Life.Worker(c, Life.Writer)), IsRunning(s, Life.Worker(c, Life.Reader)))
    else Loops(None, s.consumed, false, false)
  }

  datatype Joint = Joint(left: Life.State, right: Life.State, nodes: Ack.State) {
    function At(side: Ack.Side): (s: Life.State) {
      if side.Left? then left else right
    }
    function With(side: Ack.Side, s: Life.State): (j: Joint) {
      if side.Left? then this.(left := s) else this.(right := s)
    }
  }

  /** A step of the goroutines of one side, or a step of the nodes that does not start or stop a loop. */
  datatype Event = Goroutine(side: Ack.Side, step: Life.Step) | Local(action: Ack.Step)

  predicate ControlsLoops(v: Ack.Step) {
    v.Attach? || v.Detach? || v.StopWriting? || v.StopReading? || (v.WriteFail? && !v.transient)
  }

  /** What a step of the goroutines is in the two-node protocol. A writer that stops while it holds a message does so
      because its write failed. */
  function LoopStep(s: Life.State, step: Life.Step, x: Ack.Node, side: Ack.Side): (v: Option<Ack.Step>) {
    match step
    case BeginConsume => if s.main.Starting? then Some(Ack.Attach(side, s.main.conn)) else None
    case EndConsume => Some(Ack.Detach(side))
    case WriterStops(_) => Some(if x.flight.Writing? then Ack.WriteFail(side, false) else Ack.StopWriting(side))
    case ReaderCancels(_) => Some(Ack.StopReading(side))
    case _ => None
  }

  function Image(j: Joint, e: Event): (v: Option<Ack.Step>) {
    match e
    case Goroutine(side, step) => LoopStep(j.At(side), step, j.nodes.At(side), side)
    case Local(v) => Some(v)
  }

  /** The goroutines are not held back by the nodes, except that a panic stops everything. */
  predicate Enabled(j: Joint, e: Event) {
    match e
    case Goroutine(side, step) => !j.nodes.At(side).crashed && Life.Enabled(j.At(side), step)
    case Local(v) => Ack.Enabled(j.nodes, v) && !ControlsLoops(v)
  }

  /** The nodes take the image of the step if they can. */
  function Apply(j: Joint, e: Event): (j': Joint)
    requires Enabled(j, e)
  {
    var v := Image(j, e);
    var nodes := if v.Some? && Ack.Enabled(j.nodes, v.value) then Ack.Apply(j.nodes, v.value) else j.nodes;
    match e
    case Goroutine(side, step) => j.With(side, Life.Apply(j.At(side), step)).(nodes := nodes)
    case Local(_) => j.(nodes := nodes)
  }

  ghost predicate Run(j: Joint, events: seq<Event>)
    decreases |events|
  {
    events != [] ==> Enabled(j, events[0]) && Run(Apply(j, events[0]), events[1..])
  }

  ghost function After(j: Joint, events: seq<Event>): (j': Joint)
    requires Run(j, events)
    decreases |events|
  {
    if events == [] then j else After(Apply(j, events[0]), events[1..])
  }

  /** The images of all steps, whether the nodes could take them or not. */
  ghost function Images(j: Joint, events: seq<Event>): (steps: seq<Ack.Step>)
    requires Run(j, events)
    decreases |events|
  {
    if events == [] then []
    else
      var v := Image(j, events[0]);
      (if v.Some? then [v.value] else []) + Images(Apply(j, events[0]), events[1..])
  }

  ghost predicate Agrees(j: Joint, side: Ack.Side) {
    Life.Invariant(j.At(side)) && LoopsOf(j.nodes.At(side)) == LoopsNow(j.At(side))
  }

  // ---- What steps do to the loops ----

  /** What each step of the goroutines does to the loops. */
  lemma LoopsAfter(s: Life.State, step: Life.Step)
    requires Life.Invariant(s) && Life.Enabled(s, step)
    ensures var l, l' := LoopsNow(s), LoopsNow(Life.Apply(s, step));
            match step
            case BeginConsume =>
              && l == Loops(None, s.consumed, false, false) && s.main.conn !in s.consumed
              && l' == Loops(Some(s.main.conn), s.consumed + {s.main.conn}, true, true)
            case EndConsume => l.conn.Some? && !l.writing && !l.reading && l' == l.(conn := None)
            case WriterStops(_) => l.writing && l' == l.(writing := false)
            case ReaderCancels(_) => l.reading && l' == l.(reading := false)
            case _ => l' == l
  {
    hide Life.ErrorsOk;
  }

  lemma AttachEffect(t: Ack.State, side: Ack.Side, c: nat)
    requires var x := t.At(side); !x.crashed && x.conn.None? && c !in x.used
    ensures var v := Ack.Attach(side, c);
            && Ack.Enabled(t, v)
            && LoopsOf(Ack.Apply(t, v).At(side)) == Loops(Some(c), t.At(side).used + {c}, true, true)
  {
  }

  lemma WriterStopsEffect(t: Ack.State, side: Ack.Side)
    requires !t.At(side).crashed && t.At(side).writing
    ensures var x := t.At(side);
            var v := if x.flight.Writing? then Ack.WriteFail(side, false) else Ack.StopWriting(side);
            Ack.Enabled(t, v) && LoopsOf(Ack.Apply(t, v).At(side)) == LoopsOf(x).(writing := false)
  {
  }

  lemma ReaderStopsEffect(t: Ack.State, side: Ack.Side)
    requires !t.At(side).crashed && t.At(side).reading
    ensures var v := Ack.StopReading(side);
            Ack.Enabled(t, v) && LoopsOf(Ack.Apply(t, v).At(side)) == LoopsOf(t.At(side)).(reading := false)
  {
  }

  lemma DetachEffect(t: Ack.State, side: Ack.Side)
    requires var x := t.At(side); !x.crashed && x.conn.Some? && !x.writing && !x.reading
    ensures var v := Ack.Detach(side);
            Ack.Enabled(t, v) && LoopsOf(Ack.Apply(t, v).At(side)) == LoopsOf(t.At(side)).(conn := None)
  {
  }

  /** The other steps of a node leave its loops alone. */
  lemma LocalEffect(t: Ack.State, v: Ack.Step)
    requires Ack.Enabled(t, v) && !ControlsLoops(v)
    ensures LoopsOf(Ack.Apply(t, v).At(v.side)) == LoopsOf(t.At(v.side))
  {
    hide Ack.Enabled, Ack.Apply;
    if v.Register? || v.WriteRequest? || v.ReceiveAck? || v.GiveUp? || v.Return? {
      CallEffect(t, v);
    } else if v.Poll? || v.PutBytes? || v.WriteOk? || v.WriteFail? || v.ReadFrame? {
      TransferEffect(t, v);
    } else {
      AcceptEffect(t, v);
    }
  }

  lemma CallEffect(t: Ack.State, v: Ack.Step)
    requires Ack.Enabled(t, v)
    requires v.Register? || v.WriteRequest? || v.ReceiveAck? || v.GiveUp? || v.Return?
    ensures LoopsOf(Ack.Apply(t, v).At(v.side)) == LoopsOf(t.At(v.side))
  {
  }

  lemma TransferEffect(t: Ack.State, v: Ack.Step)
    requires Ack.Enabled(t, v)
    requires v.Poll? || v.PutBytes? || v.WriteOk? || (v.WriteFail? && v.transient) || v.ReadFrame?
    ensures LoopsOf(Ack.Apply(t, v).At(v.side)) == LoopsOf(t.At(v.side))
  {
    hide Ack.PutOnWire, Ack.WireOf, Ack.FrameOf;
  }

  lemma AcceptEffect(t: Ack.State, v: Ack.Step)
    requires Ack.Enabled(t, v)
    requires v.Take? || v.Lookup? || v.SendSignal? || v.CloseChan? || v.Handle? || v.Ack?
    ensures LoopsOf(Ack.Apply(t, v).At(v.side)) == LoopsOf(t.At(v.side))
  {
    hide Ack.NewAckMessage, Ack.AckError;
  }

  // ---- The simulation ----

  /** Whatever the goroutines of a client or server do to the loops of their node, the two-node protocol allows it, and
      both then agree about the loops again. */
  lemma StepSimulated(s: Life.State, step: Life.Step, t: Ack.State, side: Ack.Side)
    requires Life.Invariant(s) && Life.Enabled(s, step)
    requires LoopsOf(t.At(side)) == LoopsNow(s) && !t.At(side).crashed
    ensures var v := LoopStep(s, step, t.At(side), side);
            && (v.Some? ==>
                  && v.value.side == side && Ack.Enabled(t, v.value)
                  && LoopsOf(Ack.Apply(t, v.value).At(side)) == LoopsNow(Life.Apply(s, step)))
            && (v.None? ==> LoopsNow(Life.Apply(s, step)) == LoopsNow(s))
  {
    LoopsAfter(s, step);
    hide Life.Invariant, Life.Enabled, Life.Apply, LoopsNow, Ack.Enabled, Ack.Apply;
    match step
    case BeginConsume => AttachEffect(t, side, s.main.conn);
    case EndConsume => DetachEffect(t, side);
    case WriterStops(_) => WriterStopsEffect(t, side);
    case ReaderCancels(_) => ReaderStopsEffect(t, side);
    case _ =>
  }

  lemma KeepAgreement(j: Joint, e: Event)
    requires Agrees(j, Ack.Left) && Agrees(j, Ack.Right) && Enabled(j, e)
    ensures Agrees(Apply(j, e), Ack.Left) && Agrees(Apply(j, e), Ack.Right)
    ensures var v := Image(j, e);
            && (v.Some? ==> Ack.Enabled(j.nodes, v.value) && Apply(j, e).nodes == Ack.Apply(j.nodes, v.value))
            && (v.None? ==> Apply(j, e).nodes == j.nodes)
  {
    hide Life.Invariant, Life.Enabled, Life.Apply, LoopsNow, LoopStep, Ack.Enabled, Ack.Apply, ControlsLoops;
    match e
    case Goroutine(side, step) =>
      StepSimulated(j.At(side), step, j.nodes, side);
      KeepLife(j.At(side), step);
      var v := Image(j, e);
      if v.Some? {
        Handlers.AckCallsEffect(j.nodes, v.value);
      }
    case Local(v) =>
      LocalEffect(j.nodes, v);
      Handlers.AckCallsEffect(j.nodes, v);
  }

  lemma KeepLife(s: Life.State, step: Life.Step)
    requires Life.Invariant(s) && Life.Enabled(s, step)
    ensures Life.Invariant(Life.Apply(s, step))
  {
    hide Life.WorkersOk, Life.ClosesOk, Life.ErrorsOk, Life.Enabled, Life.Apply;
    Life.KeepWorkers(s, step);
    Life.KeepCloses(s, step);
    Life.KeepErrors(s, step);
  }

  lemma {:induction false} AgreementAlong(j: Joint, events: seq<Event>)
    requires Agrees(j, Ack.Left) && Agrees(j, Ack.Right) && Run(j, events)
    ensures var j', steps := After(j, events), Images(j, events);
            && Agrees(j', Ack.Left) && Agrees(j', Ack.Right)
            && Ack.Run(j.nodes, steps) && Ack.After(j.nodes, steps) == j'.nodes
    decreases |events|
  {
    hide Enabled, Apply, Agrees, Image, Ack.Enabled, Ack.Apply;
    if events != [] {
      var e, j1, rest := events[0], Apply(j, events[0]), events[1..];
      KeepAgreement(j, e);
      AgreementAlong(j1, rest);
      var v := Image(j, e);
      if v.Some? {
        hide Ack.Run, Ack.After;
        AckAtMostOnce.RunCons(j.nodes, v.value, Images(j1, rest));
      } else {
        assert [] + Images(j1, rest) == Images(j1, rest);
      }
    }
  }

  function Begin(left: Life.Kind, leftConn: nat, right: Life.Kind, rightConn: nat): (j: Joint) {
    Joint(Life.Start(left, leftConn), Life.Start(right, rightConn), Ack.INITIAL)
  }

  /** In every run of two nodes driven by clients or servers, in any interleaving and whatever breaks, every step of the
      goroutines is one that the two-node protocol allows: the nodes go through a run of that protocol, about which its
      theorems speak, and its loops are always those of the goroutines. */
  lemma DrivenRunIsRun(left: Life.Kind, leftConn: nat, right: Life.Kind, rightConn: nat, events: seq<Event>)
    requires Run(Begin(left, leftConn, right, rightConn), events)
    ensures var j := Begin(left, leftConn, right, rightConn);
            var j', steps := After(j, events), Images(j, events);
            && Ack.Run(Ack.INITIAL, steps) && Ack.After(Ack.INITIAL, steps) == j'.nodes
            && LoopsOf(j'.nodes.left) == LoopsNow(j'.left) && LoopsOf(j'.nodes.right) == LoopsNow(j'.right)
  {
    hide Enabled, Apply, Image, Ack.Enabled, Ack.Apply;
    AgreementAlong(Begin(left, leftConn, right, rightConn), events);
  }

  // ---- Reconnecting ----

  function Lift(side: Ack.Side, steps: seq<Life.Step>): (events: seq<Event>) {
    seq(|steps|, i requires 0 <= i < |steps| => Goroutine(side, steps[i]))
  }

  lemma LifeStep(j: Joint, side: Ack.Side, step: Life.Step)
    requires Agrees(j, Ack.Left) && Agrees(j, Ack.Right)
    requires !j.nodes.At(side).crashed && Life.Enabled(j.At(side), step)
    ensures var e := Goroutine(side, step);
            && Enabled(j, e) && Apply(j, e).At(side) == Life.Apply(j.At(side), step)
            && !Apply(j, e).nodes.At(side).crashed
            && Agrees(Apply(j, e), Ack.Left) && Agrees(Apply(j, e), Ack.Right)
  {
    hide Life.Enabled, Life.Apply, Agrees, Ack.Enabled, Ack.Apply;
    var e := Goroutine(side, step);
    KeepAgreement(j, e);
    var v := Image(j, e);
    if v.Some? {
      AckPanics.OtherStepsDoNotPanic(j.nodes, v.value);
    }
  }

  /** The goroutines of one side can do in a driven run whatever they can do alone. */
  lemma {:induction false} LifeRunLifts(j: Joint, side: Ack.Side, steps: seq<Life.Step>)
    requires Agrees(j, Ack.Left) && Agrees(j, Ack.Right) && !j.nodes.At(side).crashed && Life.Run(j.At(side), steps)
    ensures Run(j, Lift(side, steps))
    ensures After(j, Lift(side, steps)).At(side) == Life.After(j.At(side), steps)
    decreases |steps|
  {
    hide Life.Enabled, Life.Apply, Enabled, Apply, Agrees;
    if steps != [] {
      LifeStep(j, side, steps[0]);
      assert Lift(side, steps)[0] == Goroutine(side, steps[0]) && Lift(side, steps)[1..] == Lift(side, steps[1..]);
      LifeRunLifts(Apply(j, Goroutine(side, steps[0])), side, steps[1..]);
    }
  }

  /** For every list of different connections, starting with the first one for a client, there is a driven run after
      which the left node was on exactly these. */
  lemma DrivenReconnects(left: Life.Kind, leftConn: nat, right: Life.Kind, rightConn: nat, cs: seq<nat>)
      returns (events: seq<Event>)
    requires Life.NoDuplicates(cs) && (left.Client? ==> cs != [] && cs[0] == leftConn)
    ensures Run(Begin(left, leftConn, right, rightConn), events)
    ensures After(Begin(left, leftConn, right, rightConn), events).nodes.left.used == Life.SetOf(cs)
  {
    hide Life.Enabled, Life.Apply, Enabled, Apply, Life.Run, Life.After, Run, After;
    var j := Begin(left, leftConn, right, rightConn);
    var steps, s := Life.ConsumesAll(left, leftConn, cs);
    events := Lift(Ack.Left, steps);
    LifeRunLifts(j, Ack.Left, steps);
    DrivenRunIsRun(left, leftConn, right, rightConn, events);
  }

  /** So the write queue of a driven node loses, repeats and reorders nothing. */
  lemma DrivenConservation(left: Life.Kind, leftConn: nat, right: Life.Kind, rightConn: nat, events: seq<Event>,
                           side: Ack.Side)
    requires Run(Begin(left, leftConn, right, rightConn), events)
    ensures var x := After(Begin(left, leftConn, right, rightConn), events).nodes.At(side);
            var all := x.written + AckInvariant.FlightTickets(x.flight) + x.queue;
            |all| == |x.enqueued| && forall i :: 0 <= i < |all| ==> all[i] == i
  {
    hide *;
    DrivenRunIsRun(left, leftConn, right, rightConn, events);
    AckTheorems.WriteQueueConservation(Images(Begin(left, leftConn, right, rightConn), events), side);
  }
}
