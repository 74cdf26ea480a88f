/**
  The life of a client or server connection: a main goroutine that consumes one connection after another, the three
  goroutines that consume a connection, and the channels and connections they close.
*/
module Lifecycle {
  import opened Bytes

  type ConnId = nat

  datatype Kind = Client | Server

  datatype Main =
    | Starting(conn: ConnId)   // about to call consumeConnection
    | Consuming(conn: ConnId)  // in wg.Wait() of consumeConnection
    | Between                  // at the head of reDialLoop or listenLoop, about to look at the context
    | Trying                   // found the context open: dialling or accepting
    | Accepted(conn: ConnId)   // server: accepted, TLS configuration not loaded yet
    | CleaningUp
    | CleanedUp                // errors channel closed; the server still has to close its own channel
    | Finished

  datatype Role = Closer | Writer | Reader

  datatype At = Running | Woken | Leaving

  datatype Worker = Worker(conn: ConnId, role: Role)

  datatype Event = Sent | Closed

  datatype State = State(
    kind: Kind,
    main: Main,
    ctxDone: bool,
    waitGroup: int,
    workers: map<Worker, At>,
    cancelled: set<ConnId>,    // connections whose own context is done
    consumed: set<ConnId>,
    known: set<ConnId>,        // dialled or accepted so far
    closes: map<ConnId, nat>,  // how often a consumer closed each connection
    rejected: set<ConnId>,     // closed by listenLoop because no TLS configuration could be loaded
    errors: seq<Event>,        // what happened to unrecoverableErrors
    serverClosed: nat          // how often closedServerChannel was closed
  )

  function Start(kind: Kind, first: ConnId): (s: State) {
    var main := if kind.Client? then Starting(first) else Between;
    State(kind, main, false, 0, map[], {}, {}, if kind.Client? then {first} else {}, map[], {}, [], 0)
  }

  function Closes(s: State, c: ConnId): (n: nat) {
    if c in s.closes then s.closes[c] else 0
  }

  datatype Step =
    | CancelContext
    | BeginConsume
    | EndConsume
    | TryNext
    | Dialled(conn: ConnId)
    | Accept(conn: ConnId)
    | TlsReady
    | TlsFailed
    | Quit
    | Fail
    | CleanUp
    | CloseServerChannel
    | CloserWakes(c: ConnId)
    | CloserCloses(c: ConnId)
    | SignalError(w: Worker)
    | WriterStops(c: ConnId)
    | ReaderCancels(c: ConnId)
    | WorkerDone(w: Worker)

  predicate Enabled(s: State, step: Step) {
    match step
    case CancelContext => true
    case BeginConsume => s.main.Starting?
    case EndConsume => s.main.Consuming? && s.waitGroup == 0
    case TryNext => s.main.Between? && !s.ctxDone
    case Dialled(c) => s.kind.Client? && s.main.Trying? && c !in s.known
    case Accept(c) => s.kind.Server? && s.main.Trying? && c !in s.known
    case TlsReady => s.main.Accepted?
    case TlsFailed => s.main.Accepted?
    case Quit => s.main.Between? && s.ctxDone
    // No dial attempt succeeded, or accepting failed.
    case Fail => s.main.Trying?
    case CleanUp => s.main.CleaningUp?
    case CloseServerChannel => s.main.CleanedUp?
    case CloserWakes(c) =>
      Worker(c, Closer) in s.workers && s.workers[Worker(c, Closer)].Running? && (s.ctxDone || c in s.cancelled)
    case CloserCloses(c) => Worker(c, Closer) in s.workers && s.workers[Worker(c, Closer)].Woken?
    // A writer whose write failed for good has stopped writing when it signals the error.
    case SignalError(w) =>
      w in s.workers && !w.role.Closer? && (s.workers[w].Running? || (w.role.Writer? && s.workers[w].Leaving?))
    // Its poll was unblocked, or its write failed for good and the message is back in the queue.
    case WriterStops(c) => Worker(c, Writer) in s.workers && s.workers[Worker(c, Writer)].Running?
    case ReaderCancels(c) => Worker(c, Reader) in s.workers && s.workers[Worker(c, Reader)].Running?
    // Each goroutine decrements the wait group as its last action.
    case WorkerDone(w) => w in s.workers && s.workers[w].Leaving?
  }

  function Apply(s: State, step: Step): (s': State)
    requires Enabled(s, step)
  {
    match step
    case CancelContext => s.(ctxDone := true)
    case BeginConsume =>
      var c := s.main.conn;
      s.(main := Consuming(c), waitGroup := 3, consumed := s.consumed + {c},
         workers := s.workers[Worker(c, Closer) := Running][Worker(c, Writer) := Running][Worker(c, Reader) := Running])
    case EndConsume => s.(main := Between)
    case TryNext => s.(main := Trying)
    case Dialled(c) => s.(main := Starting(c), known := s.known + {c})
    case Accept(c) => s.(main := Accepted(c), known := s.known + {c})
    case TlsReady => s.(main := Starting(s.main.conn))
    case TlsFailed => s.(main := Between, errors := s.errors + [Sent], rejected := s.rejected + {s.main.conn})
    case Quit => s.(main := CleaningUp)
    case Fail => s.(main := CleaningUp)
    case CleanUp => s.(main := if s.kind.Client? then Finished else CleanedUp, errors := s.errors + [Closed])
    case CloseServerChannel => s.(main := Finished, serverClosed := s.serverClosed + 1)
    case CloserWakes(c) => s.(workers := s.workers[Worker(c, Closer) := Woken], cancelled := s.cancelled + {c})
    case CloserCloses(c) =>
      s.(workers := s.workers[Worker(c, Closer) := Leaving], closes := s.closes[c := Closes(s, c) + 1])
    case SignalError(w) => s.(errors := s.errors + [Sent])
    case WriterStops(c) => s.(workers := s.workers[Worker(c, Writer) := Leaving])
    case ReaderCancels(c) => s.(workers := s.workers[Worker(c, Reader) := Leaving], cancelled := s.cancelled + {c})
    case WorkerDone(w) => s.(workers := s.workers - {w}, waitGroup := s.waitGroup - 1)
  }

  ghost predicate Run(s: State, steps: seq<Step>)
    decreases |steps|
  {
    steps != [] ==> Enabled(s, steps[0]) && Run(Apply(s, steps[0]), steps[1..])
  }

  ghost function After(s: State, steps: seq<Step>): (s': State)
    requires Run(s, steps)
    decreases |steps|
  {
    if steps == [] then s else After(Apply(s, steps[0]), steps[1..])
  }

  function Alive(s: State, c: ConnId, r: Role): (n: nat) {
    if Worker(c, r) in s.workers then 1 else 0
  }

  ghost predicate WorkersOk(s: State) {
    && (forall w :: w in s.workers ==> s.main.Consuming? && w.conn == s.main.conn)
    && (s.main.Consuming? ==>
          s.waitGroup == Alive(s, s.main.conn, Closer) + Alive(s, s.main.conn, Writer) + Alive(s, s.main.conn, Reader))
  }

  /** A connection being consumed has been closed exactly when its closing goroutine is past that point. */
  function ClosesNow(s: State, c: ConnId): (n: nat) {
    if c !in s.consumed then 0
    else if Worker(c, Closer) in s.workers && !s.workers[Worker(c, Closer)].Leaving? then 0
    else 1
  }

  /** Every connection that was had is being looked after: it is or was consumed, it was closed unused, or the main
      goroutine holds it. */
  ghost predicate NoneForgotten(s: State) {
    forall c :: c in s.known ==>
      || c in s.consumed || c in s.rejected
      || ((s.main.Starting? || s.main.Accepted?) && s.main.conn == c)
  }

  ghost predicate ClosesOk(s: State) {
    && NoneForgotten(s)
    && (forall c :: Closes(s, c) == ClosesNow(s, c))
    && s.consumed <= s.known && s.rejected <= s.known && s.rejected !! s.consumed
    && (s.main.Consuming? ==> s.main.conn in s.consumed)
    && ((s.main.Starting? || s.main.Accepted?) ==> s.main.conn in s.known - s.consumed - s.rejected)
  }

  ghost predicate ErrorsOk(s: State) {
    var down := s.main.CleanedUp? || s.main.Finished?;
    && (down ==> s.errors != [] && s.errors[|s.errors| - 1].Closed?)
    && (forall i :: 0 <= i < |s.errors| && s.errors[i].Closed? ==> down && i == |s.errors| - 1)
    && s.serverClosed == (if s.kind.Server? && s.main.Finished? then 1 else 0)
    && (s.main.CleanedUp? ==> s.kind.Server?)
  }

  ghost predicate Invariant(s: State) {
    WorkersOk(s) && ClosesOk(s) && ErrorsOk(s)
  }

  lemma KeepWorkers(s: State, step: Step)
    requires WorkersOk(s) && Enabled(s, step)
    ensures WorkersOk(Apply(s, step))
  {
    forall w | w in s.workers ensures s.waitGroup > 0 {
      assert w == Worker(s.main.conn, w.role);
      match w.role case Closer => case Writer => case Reader =>
    }
    if step.WorkerDone? {
      assert step.w == Worker(s.main.conn, step.w.role);
      match step.w.role case Closer => case Writer => case Reader =>
    }
  }

  lemma KeepCloses(s: State, step: Step)
    requires WorkersOk(s) && ClosesOk(s) && Enabled(s, step)
    ensures ClosesOk(Apply(s, step))
  {
    var s' := Apply(s, step);
    forall c: ConnId ensures Closes(s', c) == ClosesNow(s', c) {
      assert Closes(s, c) == ClosesNow(s, c);
    }
  }

  lemma KeepErrors(s: State, step: Step)
    requires WorkersOk(s) && ErrorsOk(s) && Enabled(s, step)
    ensures ErrorsOk(Apply(s, step))
  {
  }

  lemma {:induction false} InvariantAlong(s: State, steps: seq<Step>)
    requires Invariant(s) && Run(s, steps)
    ensures Invariant(After(s, steps))
    decreases |steps|
  {
    hide WorkersOk, ClosesOk, ErrorsOk, Enabled, Apply;
    if steps != [] {
      KeepWorkers(s, steps[0]);
      KeepCloses(s, steps[0]);
      KeepErrors(s, steps[0]);
      InvariantAlong(Apply(s, steps[0]), steps[1..]);
    }
  }

  /** Lifecycle safety: in every run of a client or a server at most one connection is consumed at a time, by
      goroutines the main goroutine is waiting for; every connection is closed at most once by its consumer, and
      exactly once when its consumption has ended; no connection is forgotten; the errors channel is closed at most
      once and nothing is sent on it afterwards; the channel that announces a stopped server is closed at most once, and
      after the errors channel; both are closed when everything has finished. */
  lemma LifecycleSafety(kind: Kind, first: ConnId, steps: seq<Step>)
    requires Run(Start(kind, first), steps)
    ensures var s := After(Start(kind, first), steps);
            && (forall w, v :: w in s.workers && v in s.workers ==> w.conn == v.conn && s.main == Consuming(w.conn))
            && (forall c :: Closes(s, c) <= 1)
            && (forall c :: c in s.consumed && s.main != Consuming(c) ==> Closes(s, c) == 1)
            && (forall c :: c !in s.consumed ==> Closes(s, c) == 0)
            && s.rejected !! s.consumed && NoneForgotten(s)
            && (forall i :: 0 <= i < |s.errors| && s.errors[i].Closed? ==> i == |s.errors| - 1)
            && s.serverClosed <= 1 && (s.serverClosed == 1 ==> s.errors != [] && s.errors[|s.errors| - 1].Closed?)
            && (s.main.Finished? ==> s.errors != [] && s.errors[|s.errors| - 1].Closed?)
            && (s.serverClosed == 1 <==> s.main.Finished? && kind.Server?)
  {
    hide Enabled, Apply;
    var s0 := Start(kind, first);
    InvariantAlong(s0, steps);
    var s := After(s0, steps);
    KindKept(s0, steps);
    forall c: ConnId ensures Closes(s, c) == ClosesNow(s, c) {}
  }

  lemma {:induction false} KindKept(s: State, steps: seq<Step>)
    requires Run(s, steps)
    ensures After(s, steps).kind == s.kind
    decreases |steps|
  {
    hide Enabled;
    if steps != [] {
      KindKept(Apply(s, steps[0]), steps[1..]);
    }
  }

  // ---- Going on ----

  lemma RunCons(s: State, step: Step, rest: seq<Step>)
    requires Enabled(s, step) && Run(Apply(s, step), rest)
    ensures Run(s, [step] + rest) && After(s, [step] + rest) == After(Apply(s, step), rest)
  {
    hide Enabled, Apply;
    assert ([step] + rest)[0] == step && ([step] + rest)[1..] == rest;
  }

  lemma {:induction false} RunConcat(s: State, a: seq<Step>, b: seq<Step>)
    requires Run(s, a) && Run(After(s, a), b)
    ensures Run(s, a + b) && After(s, a + b) == After(After(s, a), b)
    decreases |a|
  {
    hide Enabled, Apply;
    if a == [] {
      assert a + b == b;
    } else {
      assert (a + b)[0] == a[0] && (a + b)[1..] == a[1..] + b;
      RunConcat(Apply(s, a[0]), a[1..], b);
    }
  }

  lemma RunSnoc(s: State, steps: seq<Step>, step: Step)
    requires Run(s, steps) && Enabled(After(s, steps), step)
    ensures Run(s, steps + [step]) && After(s, steps + [step]) == Apply(After(s, steps), step)
  {
    hide Enabled, Apply;
    assert [step] + [] == [step];
    RunCons(After(s, steps), step, []);
    RunConcat(s, steps, [step]);
  }

  /** The step with which a client or server gets its next connection. */
  function GetConn(kind: Kind, c: ConnId): (step: Step) {
    if kind.Client? then Dialled(c) else Accept(c)
  }

  /** After a connection has ended, or could not be upgraded to TLS, a client or server whose context is open can get
      any new connection and consume it; one whose context is closed can only clean up. */
  lemma GoesOn(kind: Kind, first: ConnId, steps: seq<Step>, end: Step, c: ConnId)
    requires Run(Start(kind, first), steps) && Enabled(After(Start(kind, first), steps), end)
    requires (end.EndConsume? || end.TlsFailed?) && c !in After(Start(kind, first), steps).known
    ensures var s := Apply(After(Start(kind, first), steps), end);
            var upgrade := if kind.Server? then [TlsReady] else [];
            && s.main.Between?
            && (!s.ctxDone ==>
                  && Run(s, [TryNext, GetConn(kind, c)] + upgrade + [BeginConsume])
                  && After(s, [TryNext, GetConn(kind, c)] + upgrade + [BeginConsume]).main == Consuming(c))
            && (s.ctxDone ==> Enabled(s, Quit) && !Enabled(s, TryNext))
  {
    KindKept(Start(kind, first), steps);
    var s := Apply(After(Start(kind, first), steps), end);
    if !s.ctxDone {
      NextConn(s, c);
      var upgrade := if kind.Server? then [TlsReady] else [];
      assert [TryNext, GetConn(kind, c)] + upgrade + [BeginConsume] == Connect(kind, c) + [BeginConsume];
      RunSnoc(s, Connect(kind, c), BeginConsume);
    }
  }

  /** From the head of the loop to the next connection. */
  function Connect(kind: Kind, c: ConnId): (steps: seq<Step>) {
    [TryNext] + [GetConn(kind, c)] + if kind.Server? then [TlsReady] else []
  }

  lemma NextConn(s: State, c: ConnId)
    requires s.main.Between? && !s.ctxDone && c !in s.known
    ensures Run(s, Connect(s.kind, c))
    ensures After(s, Connect(s.kind, c)) == s.(main := Starting(c), known := s.known + {c})
  {
    var s1 := Apply(s, TryNext);
    var s2 := Apply(s1, GetConn(s.kind, c));
    assert [TryNext] + [] == [TryNext];
    RunCons(s, TryNext, []);
    RunSnoc(s, [TryNext], GetConn(s.kind, c));
    if s.kind.Server? {
      RunSnoc(s, [TryNext] + [GetConn(s.kind, c)], TlsReady);
    } else {
      assert [TryNext] + [GetConn(s.kind, c)] + [] == [TryNext] + [GetConn(s.kind, c)];
    }
  }

  /** A state from which a run to here has been taken. */
  ghost predicate Reached(s0: State, steps: seq<Step>, s: State) {
    Run(s0, steps) && After(s0, steps) == s
  }

  lemma Go(s0: State, steps: seq<Step>, s: State, step: Step) returns (steps': seq<Step>, s': State)
    requires Reached(s0, steps, s) && Enabled(s, step)
    ensures steps' == steps + [step] && s' == Apply(s, step) && Reached(s0, steps', s')
  {
    hide Enabled, Apply, Run, After;
    RunSnoc(s0, steps, step);
    steps', s' := steps + [step], Apply(s, step);
  }

  function Team(c: ConnId, closer: At, writer: At, reader: At): (workers: map<Worker, At>) {
    map[Worker(c, Closer) := closer, Worker(c, Writer) := writer, Worker(c, Reader) := reader]
  }

  /** The life of one connection that breaks: its reader notices. */
  lemma ReaderNotices(s: State) returns (steps: seq<Step>, s': State)
    requires s.main.Starting? && s.workers == map[]
    ensures Reached(s, steps, s') && s.main.conn in s'.cancelled
    ensures s'.main == Consuming(s.main.conn) && s'.workers == Team(s.main.conn, Running, Running, Leaving)
    ensures s'.waitGroup == 3 && s'.kind == s.kind && s'.ctxDone == s.ctxDone
    ensures s'.known == s.known && s'.consumed == s.consumed + {s.main.conn}
  {
    hide Reached;
    var c := s.main.conn;
    steps, s' := [], s;
    StartHere(s);
    steps, s' := Go(s, steps, s', BeginConsume);
    steps, s' := Go(s, steps, s', ReaderCancels(c));
    assert s'.workers == Team(c, Running, Running, Leaving);
  }

  /** Its closer wakes up and closes it, and its writer stops. */
  lemma Breaks(s: State) returns (steps: seq<Step>, s': State)
    requires s.main.Starting? && s.workers == map[]
    ensures Reached(s, steps, s')
    ensures s'.main == Consuming(s.main.conn) && s'.workers == Team(s.main.conn, Leaving, Leaving, Leaving)
    ensures s'.waitGroup == 3 && s'.kind == s.kind && s'.ctxDone == s.ctxDone
    ensures s'.known == s.known && s'.consumed == s.consumed + {s.main.conn}
  {
    hide Reached;
    var c := s.main.conn;
    steps, s' := ReaderNotices(s);
    steps, s' := Go(s, steps, s', CloserWakes(c));
    steps, s' := Go(s, steps, s', CloserCloses(c));
    steps, s' := Go(s, steps, s', WriterStops(c));
    assert s'.workers == Team(c, Leaving, Leaving, Leaving);
  }

  /** Then the goroutines end, and the main goroutine goes on. */
  lemma ConsumesAndEnds(s: State) returns (steps: seq<Step>, s': State)
    requires s.main.Starting? && s.workers == map[]
    ensures Reached(s, steps, s')
    ensures s'.main.Between? && s'.workers == map[] && s'.kind == s.kind && s'.ctxDone == s.ctxDone
    ensures s'.known == s.known && s'.consumed == s.consumed + {s.main.conn}
  {
    hide Reached;
    var c := s.main.conn;
    steps, s' := Breaks(s);
    steps, s' := Go(s, steps, s', WorkerDone(Worker(c, Reader)));
    steps, s' := Go(s, steps, s', WorkerDone(Worker(c, Closer)));
    steps, s' := Go(s, steps, s', WorkerDone(Worker(c, Writer)));
    steps, s' := Go(s, steps, s', EndConsume);
    assert s'.workers == map[];
  }

  lemma StartHere(s: State)
    ensures Reached(s, [], s)
  {
  }

  function SetOf(cs: seq<ConnId>): (s: set<ConnId>) {
    set c | c in cs
  }

  ghost predicate NoDuplicates(cs: seq<ConnId>) {
    forall i, j :: 0 <= i < j < |cs| ==> cs[i] != cs[j]
  }

  /** Reconnection: for every list of different connections, starting with the first one for a client, there is a run
      with an open context after which exactly these were consumed, each was closed once by its consumer, and the next
      one can be dialled or accepted. */
  lemma {:induction false} ConsumesAll(kind: Kind, first: ConnId, cs: seq<ConnId>) returns (steps: seq<Step>, s: State)
    requires NoDuplicates(cs) && (kind.Client? ==> cs != [] && cs[0] == first)
    ensures Reached(Start(kind, first), steps, s)
    ensures s.main.Between? && !s.ctxDone && s.workers == map[] && s.kind == kind
    ensures s.known == s.consumed == SetOf(cs)
    ensures forall c :: c in cs ==> Closes(s, c) == 1
    decreases |cs|
  {
    hide Enabled, Apply, Reached;
    var s0 := Start(kind, first);
    if cs == [] {
      steps, s := [], s0;
      StartHere(s0);
    } else {
      var init, c := cs[..|cs| - 1], cs[|cs| - 1];
      if kind.Client? && |cs| == 1 {
        steps, s := [], s0;
        StartHere(s0);
        assert SetOf(init) == {};
      } else {
        steps, s := ConsumesAll(kind, first, init);
        NextConn(s, c);
        steps, s := Follow(s0, steps, s, Connect(kind, c));
      }
      var more, s' := ConsumesAndEnds(s);
      steps, s := FollowTo(s0, steps, s, more, s');
      assert SetOf(cs) == SetOf(init) + {c};
      ClosedOnce(kind, first, steps, s);
    }
  }

  lemma Follow(s0: State, steps: seq<Step>, s: State, more: seq<Step>) returns (steps': seq<Step>, s': State)
    requires Reached(s0, steps, s) && Run(s, more)
    ensures s' == After(s, more) && Reached(s0, steps', s')
  {
    hide Enabled, Apply, Run, After;
    RunConcat(s0, steps, more);
    steps', s' := steps + more, After(s, more);
  }

  lemma FollowTo(s0: State, steps: seq<Step>, s: State, more: seq<Step>, t: State)
      returns (steps': seq<Step>, s': State)
    requires Reached(s0, steps, s) && Reached(s, more, t)
    ensures s' == t && Reached(s0, steps', s')
  {
    hide Enabled, Apply, Run, After;
    steps', s' := Follow(s0, steps, s, more);
  }

  lemma ClosedOnce(kind: Kind, first: ConnId, steps: seq<Step>, s: State)
    requires Reached(Start(kind, first), steps, s) && s.main.Between?
    ensures forall c :: c in s.consumed ==> Closes(s, c) == 1
  {
    hide Enabled, Apply;
    LifecycleSafety(kind, first, steps);
  }

  // ---- Shutting down ----

  /** Whether a connection is still on its way to being consumed. */
  function OnItsWay(s: State): (n: nat) {
    if s.main.Trying? || s.main.Accepted? || s.main.Starting? then 1 else 0
  }

  lemma {:induction false} OneMoreAtMost(s: State, steps: seq<Step>)
    requires s.ctxDone && Run(s, steps)
    ensures var s' := After(s, steps);
            s'.ctxDone && s.consumed <= s'.consumed && |s'.consumed| + OnItsWay(s') <= |s.consumed| + OnItsWay(s)
    decreases |steps|
  {
    if steps != [] {
      StepTowardsEnd(s, steps[0]);
      hide Enabled, Apply;
      OneMoreAtMost(Apply(s, steps[0]), steps[1..]);
    }
  }

  lemma StepTowardsEnd(s: State, step: Step)
    requires s.ctxDone && Enabled(s, step)
    ensures var s' := Apply(s, step);
            s'.ctxDone && s.consumed <= s'.consumed && |s'.consumed| + OnItsWay(s') <= |s.consumed| + OnItsWay(s)
  {
    if step.BeginConsume? {
      var c := s.main.conn;
      if c in s.consumed {
        assert s.consumed + {c} == s.consumed;
      }
    }
  }

  /** Once the context is closed at most one more connection is consumed, however the run goes on: the one that was
      being dialled or accepted. */
  lemma ClosedContextStops(s: State, steps: seq<Step>)
    requires s.ctxDone && Run(s, steps)
    ensures s.consumed <= After(s, steps).consumed && |After(s, steps).consumed| <= |s.consumed| + 1
    ensures !s.main.Trying? && !s.main.Accepted? && !s.main.Starting? ==> After(s, steps).consumed == s.consumed
  {
    hide Enabled, Apply;
    OneMoreAtMost(s, steps);
    if |After(s, steps).consumed| <= |s.consumed| {
      SameSize(s.consumed, After(s, steps).consumed);
    }
  }

  lemma SameSize(a: set<ConnId>, b: set<ConnId>)
    requires a <= b && |b| <= |a|
    ensures a == b
  {
    assert b == a + (b - a) && |b| == |a| + |b - a|;
  }

  /** A connection whose context is closed, or that broke, is closed, and its own context is done: the closer is not
      held back. */
  lemma ClosesWhenDone(kind: Kind, first: ConnId, steps: seq<Step>, c: ConnId)
    requires Run(Start(kind, first), steps)
    requires var s := After(Start(kind, first), steps);
             && Worker(c, Closer) in s.workers && s.workers[Worker(c, Closer)].Running?
             && (s.ctxDone || c in s.cancelled)
    ensures var s := After(Start(kind, first), steps);
            && Run(s, [CloserWakes(c), CloserCloses(c)]) && Closes(s, c) == 0
            && Closes(After(s, [CloserWakes(c), CloserCloses(c)]), c) == 1
            && c in After(s, [CloserWakes(c), CloserCloses(c)]).cancelled
  {
    hide Run, After;
    var s0 := Start(kind, first);
    InvariantAlong(s0, steps);
    var s := After(s0, steps);
    NotClosedYet(s, c);
    CloserWorks(s, c);
  }

  lemma NotClosedYet(s: State, c: ConnId)
    requires Invariant(s) && Worker(c, Closer) in s.workers && s.workers[Worker(c, Closer)].Running?
    ensures Closes(s, c) == 0
  {
    assert Closes(s, c) == ClosesNow(s, c);
  }

  lemma CloserWorks(s: State, c: ConnId)
    requires Enabled(s, CloserWakes(c))
    ensures Run(s, [CloserWakes(c), CloserCloses(c)])
    ensures Closes(After(s, [CloserWakes(c), CloserCloses(c)]), c) == Closes(s, c) + 1
    ensures c in After(s, [CloserWakes(c), CloserCloses(c)]).cancelled
  {
    var s1 := Apply(s, CloserWakes(c));
    var s2 := Apply(s1, CloserCloses(c));
    assert Closes(s2, c) == Closes(s, c) + 1;
    hide Enabled, Apply, Closes;
    assert [CloserWakes(c)] + [CloserCloses(c)] == [CloserWakes(c), CloserCloses(c)];
    assert [CloserCloses(c)] + [] == [CloserCloses(c)];
    RunCons(s1, CloserCloses(c), []);
    RunCons(s, CloserWakes(c), [CloserCloses(c)]);
  }

  /** A reader that leaves makes its connection one that is closed. */
  lemma ReaderCancelsConnection(s: State, c: ConnId)
    requires Enabled(s, ReaderCancels(c))
    ensures c in Apply(s, ReaderCancels(c)).cancelled && Apply(s, CancelContext).ctxDone
  {
  }

  /** Only these steps touch the errors channel. */
  lemma ErrorsGrow(s: State, step: Step)
    requires Enabled(s, step)
    ensures Apply(s, step).errors ==
            s.errors + if step.SignalError? || step.TlsFailed? then [Sent] else if step.CleanUp? then [Closed] else []
  {
  }

  /** When no connection can be had any more, or the context is closed, everything is closed once and for all. */
  lemma ShutsDown(s: State, step: Step)
    requires Enabled(s, step) && (step.Quit? || step.Fail?)
    ensures var steps := [step] + [CleanUp] + if s.kind.Server? then [CloseServerChannel] else [];
            && Run(s, steps) && After(s, steps).main.Finished? && After(s, steps).errors == s.errors + [Closed]
            && After(s, steps).serverClosed == s.serverClosed + if s.kind.Server? then 1 else 0
  {
    assert [step] + [] == [step];
    RunCons(s, step, []);
    RunSnoc(s, [step], CleanUp);
    if s.kind.Server? {
      RunSnoc(s, [step] + [CleanUp], CloseServerChannel);
    } else {
      assert [step] + [CleanUp] + [] == [step] + [CleanUp];
    }
  }

  /** `tryDial`: the outcome of attempt `i` is `dial(i)`, and the context is found done after it when `done(i)`. A
      connection is returned exactly when some attempt succeeds within the retries before the context is done; with no
      retries at all neither a connection nor an error is returned. */
  method TryDial(dial: nat -> Option<ConnId>, done: nat -> bool, retries: nat)
      returns (conn: Option<ConnId>, failed: bool)
    ensures conn.Some? ==>
              && !failed
              && exists i: nat ::
                   i < retries && dial(i) == conn && forall k: nat :: k < i ==> dial(k).None? && !done(k)
    ensures conn.None? ==>
              forall i: nat :: i < retries && dial(i).Some? ==> exists k: nat :: k < i && done(k)
    ensures failed <==> conn.None? && retries > 0
  {
    failed := false;
    for i := 0 to retries
      invariant forall k: nat :: k < i ==> dial(k).None? && !done(k)
      invariant failed <==> i > 0
    {
      conn := dial(i);
      if conn.Some? {
        return conn, false;
      }
      failed := true;
      if done(i) {
        return None, true;
      }
    }
    return None, failed;
  }
}
