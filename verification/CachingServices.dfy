/** The service wrapper that does not send again what was already acked. */
module CachingServices {
  import opened Bytes

  /** How a send ends: it fails and nothing arrives, it fails although the message arrives (it timed out, was cancelled,
      or was acked with an error), or it succeeds. A send that succeeds has arrived. */
  datatype Outcome = Lost | Unacked | Acked

  /** One call of SendAndWaitForAck, and how the send ends if the wrapped service is asked. */
  datatype Call<+P> = Call(opcode: Byte, payload: P, outcome: Outcome)

  datatype Msg<+P> = Msg(opcode: Byte, payload: P)

  /** The last payload delivered with an opcode. */
  function LastFor<P>(opcode: Byte, ms: seq<Msg<P>>): (r: Option<P>) {
    if ms == [] then None
    else if ms[|ms| - 1].opcode == opcode then Some(ms[|ms| - 1].payload)
    else LastFor(opcode, ms[..|ms| - 1])
  }

  /** The last payload acked with an opcode. */
  function LastAcked<P>(opcode: Byte, calls: seq<Call<P>>): (r: Option<P>) {
    if calls == [] then None
    else
      var c := calls[|calls| - 1];
      if c.opcode == opcode && c.outcome.Acked? then Some(c.payload) else LastAcked(opcode, calls[..|calls| - 1])
  }

  /** What the other end receives without the wrapper. */
  function Uncached<P>(calls: seq<Call<P>>): (ms: seq<Msg<P>>) {
    if calls == [] then []
    else
      var c := calls[|calls| - 1];
      Uncached(calls[..|calls| - 1]) + if c.outcome.Lost? then [] else [Msg(c.opcode, c.payload)]
  }

  /** What it receives with the wrapper: not what was acked last. */
  function Cached<P(==)>(calls: seq<Call<P>>): (ms: seq<Msg<P>>) {
    if calls == [] then []
    else
      var init, c := calls[..|calls| - 1], calls[|calls| - 1];
      Cached(init) +
      if c.outcome.Lost? || LastAcked(c.opcode, init) == Some(c.payload) then [] else [Msg(c.opcode, c.payload)]
  }

  lemma CallsSnoc<P>(calls: seq<Call<P>>, c: Call<P>, opcode: Byte)
    ensures var skip := LastAcked(c.opcode, calls) == Some(c.payload);
            Cached(calls + [c]) == Cached(calls) + if c.outcome.Lost? || skip then [] else [Msg(c.opcode, c.payload)]
    ensures Uncached(calls + [c]) == Uncached(calls) + if c.outcome.Lost? then [] else [Msg(c.opcode, c.payload)]
    ensures LastAcked(opcode, calls + [c]) ==
            if c.opcode == opcode && c.outcome.Acked? then Some(c.payload) else LastAcked(opcode, calls)
  {
    assert (calls + [c])[..|calls|] == calls;
  }

  lemma LastForSnoc<P>(opcode: Byte, ms: seq<Msg<P>>, m: Msg<P>)
    ensures LastFor(opcode, ms + [m]) == if m.opcode == opcode then Some(m.payload) else LastFor(opcode, ms)
  {
    assert (ms + [m])[..|ms|] == ms;
  }

  // ---- Where the wrapper and the other end disagree ----

  /** Call `k` delivered something else than the payload that was acked last before it and still is. */
  ghost predicate OtherAt<P>(opcode: Byte, calls: seq<Call<P>>, k: nat) {
    var acked := LastAcked(opcode, calls);
    && acked.Some? && k < |calls|
    && calls[k].opcode == opcode && !calls[k].outcome.Lost? && calls[k].payload != acked.value
    && forall j :: k <= j <= |calls| ==> LastAcked(opcode, calls[..j]) == acked
  }

  /** Another payload was delivered since the one that is remembered was acked. */
  ghost predicate OtherSince<P>(opcode: Byte, calls: seq<Call<P>>) {
    exists k: nat :: OtherAt(opcode, calls, k)
  }

  /** A call that leaves the remembered payload as it is leaves the earlier deliveries of others as they are. */
  lemma OtherAtSnoc<P>(opcode: Byte, calls: seq<Call<P>>, c: Call<P>, k: nat)
    requires LastAcked(opcode, calls + [c]) == LastAcked(opcode, calls) && k < |calls|
    ensures OtherAt(opcode, calls + [c], k) <==> OtherAt(opcode, calls, k)
  {
    hide LastAcked;
    var all, acked := calls + [c], LastAcked(opcode, calls);
    assert all[..|all|] == all && calls[..|calls|] == calls;
    assert forall j :: k <= j <= |calls| ==> all[..j] == calls[..j];
    if OtherAt(opcode, calls, k) {
      forall j | k <= j <= |all| ensures LastAcked(opcode, all[..j]) == acked {
        assert j <= |calls| ==> LastAcked(opcode, calls[..j]) == acked;
      }
    }
    if OtherAt(opcode, all, k) {
      forall j | k <= j <= |calls| ensures LastAcked(opcode, calls[..j]) == acked {
        assert LastAcked(opcode, all[..j]) == acked;
      }
    }
  }

  lemma OtherAtLast<P>(opcode: Byte, calls: seq<Call<P>>, c: Call<P>)
    ensures OtherAt(opcode, calls + [c], |calls|) <==>
            && c.opcode == opcode && c.outcome.Unacked?
            && LastAcked(opcode, calls).Some? && c.payload != LastAcked(opcode, calls).value
  {
    CallsSnoc(calls, c, opcode);
    hide LastAcked;
    var all := calls + [c];
    assert all[..|calls|] == calls && all[..|all|] == all;
  }

  /** A newly acked payload starts afresh. */
  lemma NewlyAcked<P>(opcode: Byte, calls: seq<Call<P>>, c: Call<P>)
    requires LastAcked(opcode, calls + [c]) != LastAcked(opcode, calls)
    ensures !OtherSince(opcode, calls + [c])
  {
    OtherAtLast(opcode, calls, c);
    CallsSnoc(calls, c, opcode);
    hide LastAcked;
    var all := calls + [c];
    assert all[..|calls|] == calls;
  }

  lemma OtherSinceSnoc<P>(opcode: Byte, calls: seq<Call<P>>, c: Call<P>)
    requires LastAcked(opcode, calls + [c]) == LastAcked(opcode, calls)
    ensures OtherSince(opcode, calls + [c]) <==>
            || OtherSince(opcode, calls)
            || (&& c.opcode == opcode && c.outcome.Unacked?
                && LastAcked(opcode, calls).Some? && c.payload != LastAcked(opcode, calls).value)
  {
    var all := calls + [c];
    OtherAtLast(opcode, calls, c);
    forall k: nat | k < |calls| ensures OtherAt(opcode, all, k) <==> OtherAt(opcode, calls, k) {
      OtherAtSnoc(opcode, calls, c, k);
    }
    hide OtherAt;
    assert forall k: nat :: OtherAt(opcode, all, k) ==> k <= |calls| by { Bounded(opcode, all); }
    assert forall k: nat :: OtherAt(opcode, calls, k) ==> k < |calls| by { Bounded(opcode, calls); }
  }

  lemma Bounded<P>(opcode: Byte, calls: seq<Call<P>>)
    ensures forall k: nat :: OtherAt(opcode, calls, k) ==> k < |calls|
  {
  }

  /** With the wrapper the other end has the remembered payload unless it got another one since; without it, it has that
      payload or the same as with it. */
  ghost predicate Related<P(!new)>(opcode: Byte, calls: seq<Call<P>>) {
    var acked := LastAcked(opcode, calls);
    var cached, uncached := LastFor(opcode, Cached(calls)), LastFor(opcode, Uncached(calls));
    && (acked.Some? ==> (cached == acked <==> !OtherSince(opcode, calls)) && (uncached == acked || uncached == cached))
    && (acked.None? ==> uncached == cached)
  }

  lemma KeepRelated<P(!new)>(opcode: Byte, calls: seq<Call<P>>, c: Call<P>)
    requires Related(opcode, calls)
    ensures Related(opcode, calls + [c])
  {
    CallsSnoc(calls, c, opcode);
    LastForSnoc(opcode, Cached(calls), Msg(c.opcode, c.payload));
    LastForSnoc(opcode, Uncached(calls), Msg(c.opcode, c.payload));
    assert Cached(calls) + [] == Cached(calls) && Uncached(calls) + [] == Uncached(calls);
    if LastAcked(opcode, calls + [c]) == LastAcked(opcode, calls) {
      OtherSinceSnoc(opcode, calls, c);
    } else {
      NewlyAcked(opcode, calls, c);
    }
    hide LastAcked, LastFor, Cached, Uncached, OtherSince;
  }

  lemma {:induction false} AlwaysRelated<P(!new)>(opcode: Byte, calls: seq<Call<P>>)
    ensures Related(opcode, calls)
    decreases |calls|
  {
    if calls != [] {
      hide Related;
      var init, c := calls[..|calls| - 1], calls[|calls| - 1];
      assert calls == init + [c];
      AlwaysRelated(opcode, init);
      KeepRelated(opcode, init, c);
    }
  }

  /** Whatever succeeds and fails, the last payload delivered per opcode is what it would be without the wrapper, unless
      and only unless the last call to arrive without it repeats the remembered payload and another payload was
      delivered since that one was acked. */
  lemma SameLastPayloadIff<P(!new)>(calls: seq<Call<P>>, opcode: Byte)
    ensures LastFor(opcode, Cached(calls)) == LastFor(opcode, Uncached(calls)) <==>
            !(OtherSince(opcode, calls) && LastFor(opcode, Uncached(calls)) == LastAcked(opcode, calls))
  {
    AlwaysRelated(opcode, calls);
    hide LastFor, Cached, Uncached;
    if OtherSince(opcode, calls) {
      var k: nat :| OtherAt(opcode, calls, k);
    }
  }

  /** When a send that fails has not arrived, the last payload per opcode is always what it would be without the
      wrapper. */
  lemma SameLastPayload<P(!new)>(calls: seq<Call<P>>, opcode: Byte)
    requires forall i :: 0 <= i < |calls| ==> !calls[i].outcome.Unacked?
    ensures LastFor(opcode, Cached(calls)) == LastFor(opcode, Uncached(calls))
  {
    SameLastPayloadIff(calls, opcode);
    forall k: nat ensures !OtherAt(opcode, calls, k) {
      ArrivedMeansAcked(opcode, calls, k);
    }
  }

  lemma ArrivedMeansAcked<P>(opcode: Byte, calls: seq<Call<P>>, k: nat)
    requires forall i :: 0 <= i < |calls| ==> !calls[i].outcome.Unacked?
    ensures !OtherAt(opcode, calls, k)
  {
    if k < |calls| {
      var upTo := calls[..k + 1];
      assert upTo[|upTo| - 1] == calls[k];
      assert calls[k].opcode == opcode && calls[k].outcome.Acked? ==>
               LastAcked(opcode, upTo) == Some(calls[k].payload);
    }
  }

  /** A send that times out after it arrived: the wrapper takes the next call for a repetition and skips it, so the
      other end stays on `b` although `a` was sent last and its sender was told that it succeeded. */
  lemma TimedOutSend<P(!new)>(opcode: Byte, a: P, b: P)
    requires a != b
    ensures var calls := [Call(opcode, a, Acked), Call(opcode, b, Unacked), Call(opcode, a, Acked)];
            && LastFor(opcode, Cached(calls)) == Some(b)
            && LastFor(opcode, Uncached(calls)) == Some(a)
            && OtherSince(opcode, calls)
  {
    var first, second := Call(opcode, a, Acked), Call(opcode, b, Unacked);
    var one, two, three := [first], [first, second], [first, second, first];
    assert [] + [first] == one && one + [second] == two && two + [first] == three;
    CallsSnoc([], first, opcode);
    CallsSnoc(one, second, opcode);
    CallsSnoc(two, first, opcode);
    LastForSnoc(opcode, Cached(one), Msg(opcode, b));
    LastForSnoc(opcode, Uncached(two), Msg(opcode, a));
    assert Cached(two) + [] == Cached(two);
    SameLastPayloadIff(three, opcode);
  }

  // ---- The wrapper ----

  class CachingService<P(==,!new)> {
    var sentMessages: map<Byte, P>
    var delivered: seq<Msg<P>>
    ghost var calls: seq<Call<P>>

    /** The map remembers what was last acked, and what was delivered is what the history calls for. */
    ghost predicate Valid()
      reads this
    {
      && delivered == Cached(calls)
      && forall op: Byte :: LastAcked(op, calls) == if op in sentMessages then Some(sentMessages[op]) else None
    }

    constructor ()
      ensures Valid() && calls == []
    {
      sentMessages, delivered, calls := map[], [], [];
    }

    /** `SendAndWaitForAck`, with how the send ends if the wrapped service is asked: it fails only if the message had to
        be sent and that failed. Success means that the other end has the payload, if and only if no other one was
        delivered since it was acked. */
    method SendAndWaitForAck(opcode: Byte, payload: P, outcome: Outcome) returns (ok: bool)
      requires Valid()
      modifies this
      ensures Valid()
      ensures var skipped := LastAcked(opcode, old(calls)) == Some(payload);
              && (ok <==> outcome.Acked? || skipped)
              && calls == old(calls) + [Call(opcode, payload, outcome)]
              && delivered == old(delivered) + if skipped || outcome.Lost? then [] else [Msg(opcode, payload)]
      ensures ok ==> LastAcked(opcode, calls) == Some(payload)
      ensures ok ==> (LastFor(opcode, delivered) == Some(payload) <==> !OtherSince(opcode, calls))
    {
      hide LastAcked, LastFor, Cached, Uncached, OtherSince;
      ghost var c := Call(opcode, payload, outcome);
      ghost var before := calls;
      forall op: Byte
        ensures LastAcked(op, before + [c]) ==
                if opcode == op && outcome.Acked? then Some(payload) else LastAcked(op, before)
      {
        CallsSnoc(before, c, op);
      }
      CallsSnoc(before, c, opcode);
      AlwaysRelated(opcode, before + [c]);
      calls := calls + [c];
      if opcode in sentMessages && sentMessages[opcode] == payload {
        assert delivered == delivered + [];
        return true;
      }
      if !outcome.Lost? {
        delivered := delivered + [Msg(opcode, payload)];
      }
      if !outcome.Acked? {
        return false;
      }
      sentMessages := sentMessages[opcode := payload];
      return true;
    }
  }

  // ---- When every send succeeds ----

  /** The payloads delivered with one opcode. */
  function PayloadsOf<P>(opcode: Byte, ms: seq<Msg<P>>): (ps: seq<P>) {
    if ms == [] then []
    else
      var m := ms[|ms| - 1];
      PayloadsOf(opcode, ms[..|ms| - 1]) + if m.opcode == opcode then [m.payload] else []
  }

  /** A sequence without its adjacent repeats. */
  function Distinct<P(==)>(ps: seq<P>): (r: seq<P>)
    ensures r == [] <==> ps == []
    ensures ps != [] ==> r[|r| - 1] == ps[|ps| - 1]
  {
    if |ps| <= 1 then ps
    else
      var init := Distinct(ps[..|ps| - 1]);
      if ps[|ps| - 1] == ps[|ps| - 2] then init else init + [ps[|ps| - 1]]
  }

  lemma PayloadsSnoc<P>(opcode: Byte, ms: seq<Msg<P>>, m: Msg<P>)
    ensures PayloadsOf(opcode, ms + [m]) == PayloadsOf(opcode, ms) + if m.opcode == opcode then [m.payload] else []
  {
    assert (ms + [m])[..|ms|] == ms;
  }

  lemma DistinctSnoc<P>(ps: seq<P>, p: P)
    ensures Distinct(ps + [p]) == if ps != [] && ps[|ps| - 1] == p then Distinct(ps) else Distinct(ps) + [p]
  {
    assert (ps + [p])[..|ps|] == ps;
  }

  /** Then the last payload acked is the last one sent. */
  lemma {:induction false} AckedIsLast<P>(opcode: Byte, calls: seq<Call<P>>)
    requires forall i :: 0 <= i < |calls| ==> calls[i].outcome.Acked?
    ensures var ps := PayloadsOf(opcode, Uncached(calls));
            LastAcked(opcode, calls) == if ps == [] then None else Some(ps[|ps| - 1])
    decreases |calls|
  {
    if calls != [] {
      var init, c := calls[..|calls| - 1], calls[|calls| - 1];
      AckedIsLast(opcode, init);
      PayloadsSnoc(opcode, Uncached(init), Msg(c.opcode, c.payload));
    }
  }

  /** When every send succeeds, what is delivered per opcode is the uncached sequence without its adjacent repeats. */
  lemma {:induction false} DeliversDistinct<P>(calls: seq<Call<P>>, opcode: Byte)
    requires forall i :: 0 <= i < |calls| ==> calls[i].outcome.Acked?
    ensures PayloadsOf(opcode, Cached(calls)) == Distinct(PayloadsOf(opcode, Uncached(calls)))
    decreases |calls|
  {
    hide PayloadsOf, Distinct, LastAcked;
    if calls == [] {
      EmptyPayloads<P>(opcode);
    } else {
      hide Cached, Uncached;
      var init, c := calls[..|calls| - 1], calls[|calls| - 1];
      assert calls == init + [c];
      DeliversDistinct(init, opcode);
      CallsSnoc(init, c, opcode);
      AckedIsLast(c.opcode, init);
      PayloadsSnoc(opcode, Cached(init), Msg(c.opcode, c.payload));
      PayloadsSnoc(opcode, Uncached(init), Msg(c.opcode, c.payload));
      DistinctSnoc(PayloadsOf(opcode, Uncached(init)), c.payload);
      assert Cached(init) + [] == Cached(init);
      assert PayloadsOf(opcode, Cached(init)) + [] == PayloadsOf(opcode, Cached(init));
      assert PayloadsOf(opcode, Uncached(init)) + [] == PayloadsOf(opcode, Uncached(init));
    }
  }

  lemma EmptyPayloads<P>(opcode: Byte)
    ensures PayloadsOf<P>(opcode, []) == [] && Distinct<P>([]) == []
  {
  }
}
