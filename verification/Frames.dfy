/** The frame codec: a 24-byte header followed by the payload. */
module Frames {
  import opened Bytes

  type Uuid = u: seq<Byte> | |u| == 16 witness seq(16, i => 0)

  const HEADER_SIZE: nat := 24

  datatype Header = Header(version: Byte, flags: Byte, opcode: Byte, uuid: Uuid, length: Uint32)

  /** A nil payload and an empty payload are the same value here: no byte on the wire tells them apart. */
  datatype Message = Message(header: Header, payload: seq<Byte>)

  /** The options of `NewMessage` may overwrite the version and the flags; the length is truncated to 32 bits. */
  function NewMessage(uuid: Uuid, opcode: Byte, payload: seq<Byte>, version: Byte := 0, flags: Byte := 0): (m: Message)
  {
    Message(Header(version, flags, opcode, uuid, |payload| % TWO_TO_32), payload)
  }

  ghost predicate WellFormed(m: Message) {
    m.header.length == |m.payload|
  }

  ghost predicate AllWellFormed(ms: seq<Message>) {
    forall i :: 0 <= i < |ms| ==> WellFormed(ms[i])
  }

  /** What `NewMessage` builds is well formed exactly when the payload length fits the 32-bit length field. */
  lemma NewMessageWellFormed(uuid: Uuid, opcode: Byte, payload: seq<Byte>, version: Byte, flags: Byte)
    ensures WellFormed(NewMessage(uuid, opcode, payload, version, flags)) <==> |payload| < TWO_TO_32
  {
  }

  function EncodeHeader(h: Header): (b: seq<Byte>)
    ensures |b| == HEADER_SIZE
  {
    [h.version, h.flags, 0, h.opcode] + h.uuid + PutUint32(h.length)
  }

  /** Byte 2 of the header is never looked at. */
  function DecodeHeader(b: seq<Byte>): (h: Header)
    requires |b| == HEADER_SIZE
  {
    Header(b[0], b[1], b[3], b[4..20], GetUint32(b[20..24]))
  }

  lemma HeaderRoundTrip(h: Header)
    ensures DecodeHeader(EncodeHeader(h)) == h
  {
    var b := EncodeHeader(h);
    assert b[4..20] == h.uuid;
    assert b[20..24] == PutUint32(h.length);
    GetPutUint32(h.length);
  }

  /** The header on the wire, byte by byte. */
  lemma HeaderLayout(h: Header)
    ensures var b := EncodeHeader(h);
            && b[..4] == [h.version, h.flags, 0, h.opcode] && b[4..20] == h.uuid
            && BigEndian(b[20..]) == h.length
  {
    var b := EncodeHeader(h);
    assert b[20..] == PutUint32(h.length);
    PutUint32IsBigEndian(h.length);
  }

  /** What any 24 bytes say. */
  lemma HeaderFields(b: seq<Byte>)
    requires |b| == HEADER_SIZE
    ensures var h := DecodeHeader(b);
            && h.version == b[0] && h.flags == b[1] && h.opcode == b[3] && h.uuid == b[4..20]
            && h.length == BigEndian(b[20..])
  {
    hide GetUint32;
    assert b[20..24] == b[20..];
    GetUint32IsBigEndian(b[20..24]);
  }

  function Encode(m: Message): (b: seq<Byte>)
    ensures |b| == HEADER_SIZE + |m.payload|
  {
    EncodeHeader(m.header) + m.payload
  }

  function EncodeAll(ms: seq<Message>): (b: seq<Byte>) {
    if ms == [] then [] else EncodeAll(ms[..|ms| - 1]) + Encode(ms[|ms| - 1])
  }

  datatype IoError = EOF | UnexpectedEOF | Fault(code: nat, transient: bool)

  predicate IsEOF(e: IoError) {
    e.EOF? || e.UnexpectedEOF?
  }

  predicate IsTransient(e: IoError) {
    e.Fault? && e.transient
  }

  /** The error of `io.ReadAtLeast` when the stream ends with `end` after `got` bytes, too few. */
  function ShortRead(got: nat, end: IoError): (e: IoError) {
    if got > 0 && end.EOF? then UnexpectedEOF else end
  }

  datatype Decoded = Frame(msg: Message, size: nat) | Stopped(err: IoError)

  /** One read from a stream that still holds `s` and then reports `end`. */
  function DecodeFrame(s: seq<Byte>, end: IoError): (d: Decoded)
    ensures d.Frame? ==> HEADER_SIZE <= d.size <= |s| && WellFormed(d.msg) && d.size == HEADER_SIZE + |d.msg.payload|
  {
    if |s| < HEADER_SIZE then Stopped(ShortRead(|s|, end))
    else
      var h := DecodeHeader(s[..HEADER_SIZE]);
      if h.length == 0 then Frame(Message(h, []), HEADER_SIZE)
      else if |s| - HEADER_SIZE < h.length then Stopped(ShortRead(|s| - HEADER_SIZE, end))
      else Frame(Message(h, s[HEADER_SIZE..HEADER_SIZE + h.length]), HEADER_SIZE + h.length)
  }

  /** Reads until the first error; `err` is that error. */
  function DecodeStream(s: seq<Byte>, end: IoError): (r: (seq<Message>, IoError))
    decreases |s|
  {
    match DecodeFrame(s, end)
    case Stopped(err) => ([], err)
    case Frame(m, size) =>
      var rest := DecodeStream(s[size..], end);
      ([m] + rest.0, rest.1)
  }

  /** A complete frame decodes to its message, whatever follows it. */
  lemma DecodeEncode(m: Message, rest: seq<Byte>, end: IoError)
    requires WellFormed(m)
    ensures DecodeFrame(Encode(m) + rest, end) == Frame(m, |Encode(m)|)
  {
    var s := Encode(m) + rest;
    assert s[..HEADER_SIZE] == EncodeHeader(m.header);
    HeaderRoundTrip(m.header);
    assert s[HEADER_SIZE..HEADER_SIZE + |m.payload|] == m.payload;
  }

  /** No strict prefix of a frame decodes to anything. */
  lemma StrictPrefixDecodesToNothing(m: Message, k: nat, end: IoError)
    requires WellFormed(m)
    requires k < |Encode(m)|
    ensures DecodeFrame(Encode(m)[..k], end).Stopped?
    ensures end.EOF? ==> IsEOF(DecodeFrame(Encode(m)[..k], end).err)
  {
    var s := Encode(m)[..k];
    if k >= HEADER_SIZE {
      assert s[..HEADER_SIZE] == EncodeHeader(m.header);
      HeaderRoundTrip(m.header);
    }
  }

  /** A message with the default version and flags on the wire. */
  lemma FrameLayout(uuid: Uuid, opcode: Byte, payload: seq<Byte>)
    ensures var b := Encode(NewMessage(uuid, opcode, payload));
            && b[..4] == [0, 0, 0, opcode] && b[4..20] == uuid
            && BigEndian(b[20..24]) == |payload| % TWO_TO_32 && b[24..] == payload
  {
    var m := NewMessage(uuid, opcode, payload);
    HeaderLayout(m.header);
    hide EncodeHeader, BigEndian;
    assert Encode(m)[..4] == EncodeHeader(m.header)[..4];
    assert Encode(m)[4..20] == EncodeHeader(m.header)[4..20];
    assert Encode(m)[20..24] == EncodeHeader(m.header)[20..];
  }

  /** The error of a frame that is cut: the end of the stream is unexpected unless it comes before the header or right
      after it. */
  lemma StrictPrefixError(m: Message, k: nat)
    requires WellFormed(m) && k < |Encode(m)|
    ensures DecodeFrame(Encode(m)[..k], EOF) == Stopped(if k == 0 || k == 24 then EOF else UnexpectedEOF)
  {
    var s := Encode(m)[..k];
    if k >= HEADER_SIZE {
      assert s[..HEADER_SIZE] == EncodeHeader(m.header);
      HeaderRoundTrip(m.header);
    }
  }

  /** The round trip of one message built by `NewMessage` holds exactly when its payload is shorter than 2^32 bytes. */
  lemma RoundTripIffLengthFits(uuid: Uuid, opcode: Byte, payload: seq<Byte>, version: Byte, flags: Byte, end: IoError)
    ensures var m := NewMessage(uuid, opcode, payload, version, flags);
            DecodeFrame(Encode(m), end) == Frame(m, |Encode(m)|) <==> |payload| < TWO_TO_32
  {
    hide Encode, DecodeFrame;
    var m := NewMessage(uuid, opcode, payload, version, flags);
    if |payload| < TWO_TO_32 {
      assert Encode(m) + [] == Encode(m);
      DecodeEncode(m, [], end);
    }
  }

  lemma {:induction false} EncodeAllConcat(ms: seq<Message>, ns: seq<Message>)
    ensures EncodeAll(ms + ns) == EncodeAll(ms) + EncodeAll(ns)
    decreases |ns|
  {
    hide Encode;
    if ns == [] {
      assert ms + ns == ms;
    } else {
      var last := |ns| - 1;
      assert (ms + ns)[..|ms + ns| - 1] == ms + ns[..last];
      EncodeAllConcat(ms, ns[..last]);
    }
  }

  lemma EncodeAllSingle(m: Message)
    ensures EncodeAll([m]) == Encode(m)
  {
    assert [m][..0] == [];
  }

  lemma FrameThenRest(m: Message, rest: seq<Byte>, end: IoError)
    requires WellFormed(m)
    ensures DecodeStream(Encode(m) + rest, end) == ([m] + DecodeStream(rest, end).0, DecodeStream(rest, end).1)
  {
    DecodeEncode(m, rest, end);
    assert (Encode(m) + rest)[|Encode(m)|..] == rest;
  }

  /** What the whole frames `ms` and then the bytes `rest` decode to. */
  lemma {:induction false} StreamOfFrames(ms: seq<Message>, rest: seq<Byte>, end: IoError)
    requires AllWellFormed(ms)
    ensures DecodeStream(EncodeAll(ms) + rest, end) ==
            (ms + DecodeStream(rest, end).0, DecodeStream(rest, end).1)
    decreases |ms|
  {
    hide Encode, DecodeStream;
    if ms == [] {
      assert EncodeAll(ms) + rest == rest;
      assert ms + DecodeStream(rest, end).0 == DecodeStream(rest, end).0;
    } else {
      var init, m := ms[..|ms| - 1], ms[|ms| - 1];
      calc {
        DecodeStream(EncodeAll(ms) + rest, end);
        { assert EncodeAll(ms) + rest == EncodeAll(init) + (Encode(m) + rest); }
        DecodeStream(EncodeAll(init) + (Encode(m) + rest), end);
        { StreamOfFrames(init, Encode(m) + rest, end); }
        (init + DecodeStream(Encode(m) + rest, end).0, DecodeStream(Encode(m) + rest, end).1);
        { FrameThenRest(m, rest, end); }
        (init + ([m] + DecodeStream(rest, end).0), DecodeStream(rest, end).1);
        { assert init + ([m] + DecodeStream(rest, end).0) == ms + DecodeStream(rest, end).0; }
        (ms + DecodeStream(rest, end).0, DecodeStream(rest, end).1);
      }
    }
  }

  /** How many of the frames `ms` lie wholly within the first `n` bytes of their concatenation. */
  function CompleteFrames(ms: seq<Message>, n: nat): (k: nat)
    ensures k <= |ms|
  {
    if ms == [] then 0
    else if |EncodeAll(ms)| <= n then |ms|
    else CompleteFrames(ms[..|ms| - 1], n)
  }

  lemma EncodeAllPrefix(ms: seq<Message>, k: nat)
    requires k <= |ms|
    ensures EncodeAll(ms[..k]) <= EncodeAll(ms)
  {
    hide EncodeAll;
    assert ms == ms[..k] + ms[k..];
    EncodeAllConcat(ms[..k], ms[k..]);
  }

  lemma {:induction false} CompleteFramesFit(ms: seq<Message>, n: nat)
    requires n <= |EncodeAll(ms)|
    ensures var k := CompleteFrames(ms, n);
            && |EncodeAll(ms[..k])| <= n
            && (k < |ms| ==> n < |EncodeAll(ms[..k + 1])|)
            && (k == |ms| ==> n == |EncodeAll(ms)|)
    decreases |ms|
  {
    hide Encode;
    if ms != [] {
      hide EncodeAll;
      var init, k := ms[..|ms| - 1], CompleteFrames(ms, n);
      assert ms[..|ms|] == ms;
      if n < |EncodeAll(ms)| {
        assert ms[..k] == init[..k];
        if |EncodeAll(init)| <= n {
          assert init[..|init|] == init && k == |init|;
        } else {
          CompleteFramesFit(init, n);
          assert ms[..k + 1] == init[..k + 1];
        }
      }
    }
  }

  lemma CompleteFramesSplit(ms: seq<Message>, n: nat)
    requires n <= |EncodeAll(ms)|
    ensures var k := CompleteFrames(ms, n);
            && |EncodeAll(ms[..k])| <= n
            && EncodeAll(ms[..k]) <= EncodeAll(ms)
            && (k < |ms| ==> n < |EncodeAll(ms[..k + 1])| && EncodeAll(ms[..k + 1]) <= EncodeAll(ms))
            && (k == |ms| ==> n == |EncodeAll(ms)|)
  {
    hide EncodeAll, CompleteFrames;
    var k := CompleteFrames(ms, n);
    CompleteFramesFit(ms, n);
    EncodeAllPrefix(ms, k);
    if k < |ms| {
      EncodeAllPrefix(ms, k + 1);
    }
  }

  /** The first `n` bytes are the complete frames and then a strict prefix of the next one. */
  lemma CutPoint(ms: seq<Message>, n: nat) returns (torn: seq<Byte>)
    requires AllWellFormed(ms)
    requires n <= |EncodeAll(ms)|
    ensures var k := CompleteFrames(ms, n);
            && EncodeAll(ms)[..n] == EncodeAll(ms[..k]) + torn
            && DecodeFrame(torn, EOF).Stopped?
            && IsEOF(DecodeFrame(torn, EOF).err)
            && (k < |ms| ==> n < |EncodeAll(ms[..k + 1])|)
  {
    hide Encode;
    var k := CompleteFrames(ms, n);
    CompleteFramesSplit(ms, n);
    var whole := EncodeAll(ms[..k]);
    torn := EncodeAll(ms)[|whole|..n];
    if k < |ms| {
      assert ms[..k + 1][..k] == ms[..k];
      assert EncodeAll(ms[..k + 1]) == whole + Encode(ms[k]);
      assert torn == Encode(ms[k])[..n - |whole|];
      StrictPrefixDecodesToNothing(ms[k], n - |whole|, EOF);
    } else {
      assert ms[..k] == ms;
      assert torn == [];
    }
  }

  /** Framing: a stream of frames cut after `n` bytes yields exactly the frames that are complete, then an error
      that `isEOF` accepts; uncut, it yields every message. */
  lemma CutStream(ms: seq<Message>, n: nat)
    requires AllWellFormed(ms)
    requires n <= |EncodeAll(ms)|
    ensures var k := CompleteFrames(ms, n);
            && DecodeStream(EncodeAll(ms)[..n], EOF).0 == ms[..k]
            && IsEOF(DecodeStream(EncodeAll(ms)[..n], EOF).1)
            && |EncodeAll(ms[..k])| <= n
            && (k < |ms| ==> n < |EncodeAll(ms[..k + 1])|)
    ensures DecodeStream(EncodeAll(ms), EOF).0 == ms
  {
    var torn := CutPoint(ms, n);
    var k := CompleteFrames(ms, n);
    assert DecodeStream(torn, EOF).0 == [];
    StreamOfFrames(ms[..k], torn, EOF);
    assert EncodeAll(ms) + [] == EncodeAll(ms);
    StreamOfFrames(ms, [], EOF);
  }

  // ---- Reading on after transient errors ----

  /** The bytes up to an error of the stream, and that error. */
  datatype Segment = Segment(bytes: seq<Byte>, end: IoError)

  /** What one turn of the reading loop gets. */
  datatype Turn = Got(msg: Message) | Failed(err: IoError)

  function Gets(ms: seq<Message>): (turns: seq<Turn>) {
    seq(|ms|, i requires 0 <= i < |ms| => Got(ms[i]))
  }

  /** The turns of the reading loop: it goes on after a transient error, with the bytes that come then. The bytes read
      before the error but after the last full frame are lost. */
  function Turns(segments: seq<Segment>): (turns: seq<Turn>) {
    if segments == [] then [Failed(EOF)]
    else
      var (ms, err) := DecodeStream(segments[0].bytes, segments[0].end);
      Gets(ms) + [Failed(err)] + if IsTransient(err) then Turns(segments[1..]) else []
  }

  function MessagesOf(turns: seq<Turn>): (ms: seq<Message>) {
    if turns == [] then []
    else MessagesOf(turns[..|turns| - 1]) + if turns[|turns| - 1].Got? then [turns[|turns| - 1].msg] else []
  }

  /** The errors that are signalled: all but the end of the connection. */
  function Signalled(turns: seq<Turn>): (errs: seq<IoError>) {
    if turns == [] then []
    else
      var t := turns[|turns| - 1];
      Signalled(turns[..|turns| - 1]) + if t.Failed? && !IsEOF(t.err) then [t.err] else []
  }

  lemma TurnsSnoc(turns: seq<Turn>, t: Turn)
    ensures MessagesOf(turns + [t]) == MessagesOf(turns) + if t.Got? then [t.msg] else []
    ensures Signalled(turns + [t]) == Signalled(turns) + if t.Failed? && !IsEOF(t.err) then [t.err] else []
  {
    assert (turns + [t])[..|turns|] == turns;
  }

  /** The first turn on a stream that holds `bytes` up to its next error `end`. */
  lemma FirstTurn(bytes: seq<Byte>, end: IoError, later: seq<Segment>)
    ensures var d, turns := DecodeFrame(bytes, end), Turns([Segment(bytes, end)] + later);
            && (d.Frame? ==> turns == [Got(d.msg)] + Turns([Segment(bytes[d.size..], end)] + later))
            && (d.Stopped? ==> turns == [Failed(d.err)] + if IsTransient(d.err) then Turns(later) else [])
  {
    hide DecodeFrame;
    var d, segments := DecodeFrame(bytes, end), [Segment(bytes, end)] + later;
    assert segments[1..] == later;
    if d.Stopped? {
      assert Gets([]) + [Failed(d.err)] == [Failed(d.err)];
    } else {
      var rest := DecodeStream(bytes[d.size..], end);
      assert ([Segment(bytes[d.size..], end)] + later)[1..] == later;
      assert Gets([d.msg] + rest.0) == [Got(d.msg)] + Gets(rest.0);
    }
  }

  lemma {:induction false} MessagesConcat(a: seq<Turn>, b: seq<Turn>)
    ensures MessagesOf(a + b) == MessagesOf(a) + MessagesOf(b)
    decreases |b|
  {
    if b == [] {
      assert a + b == a;
    } else {
      assert (a + b)[..|a + b| - 1] == a + b[..|b| - 1];
      MessagesConcat(a, b[..|b| - 1]);
    }
  }

  lemma {:induction false} MessagesOfGets(ms: seq<Message>)
    ensures MessagesOf(Gets(ms)) == ms
    decreases |ms|
  {
    if ms != [] {
      var init := ms[..|ms| - 1];
      assert Gets(ms)[..|ms| - 1] == Gets(init);
      MessagesOfGets(init);
    }
  }

  /** The messages of a segment, then those of the later ones if its error is transient. */
  lemma MessagesOfTurns(segments: seq<Segment>)
    requires segments != []
    ensures var (ms, err) := DecodeStream(segments[0].bytes, segments[0].end);
            MessagesOf(Turns(segments)) == ms + if IsTransient(err) then MessagesOf(Turns(segments[1..])) else []
  {
    hide DecodeStream, MessagesOf;
    var (ms, err) := DecodeStream(segments[0].bytes, segments[0].end);
    var rest := if IsTransient(err) then Turns(segments[1..]) else [];
    MessagesConcat(Gets(ms) + [Failed(err)], rest);
    MessagesConcat(Gets(ms), [Failed(err)]);
    MessagesOfGets(ms);
    NoMessage(err);
  }

  /** A fault of the connection is signalled, and reading goes on after it exactly if it is transient; the end of the
      connection is not signalled. */
  lemma SignalledOfTurns(bytes: seq<Byte>, end: IoError, later: seq<Segment>)
    ensures var turns, ms := Turns([Segment(bytes, end)] + later), DecodeStream(bytes, end).0;
            && (end.Fault? && end.transient ==>
                  && Signalled(turns) == [end] + Signalled(Turns(later))
                  && MessagesOf(turns) == ms + MessagesOf(Turns(later)))
            && (end.Fault? && !end.transient ==> Signalled(turns) == [end] && MessagesOf(turns) == ms)
            && (end.EOF? ==> Signalled(turns) == [] && MessagesOf(turns) == ms)
  {
    hide DecodeStream, MessagesOf, Signalled, Turns;
    var segments := [Segment(bytes, end)] + later;
    var (ms, err) := DecodeStream(bytes, end);
    assert segments[1..] == later;
    MessagesOfTurns(segments);
    if end.EOF? {
      EofIsReported(bytes);
    } else {
      FaultIsReported(bytes, end);
    }
    TurnsAre(segments);
    var rest := if IsTransient(err) then Turns(later) else [];
    SignalledConcat(Gets(ms) + [Failed(err)], rest);
    TurnsSnoc(Gets(ms), Failed(err));
    SignalledOfGets(ms);
    NothingSignalled();
  }

  lemma TurnsAre(segments: seq<Segment>)
    requires segments != []
    ensures var (ms, err) := DecodeStream(segments[0].bytes, segments[0].end);
            Turns(segments) == Gets(ms) + [Failed(err)] + if IsTransient(err) then Turns(segments[1..]) else []
  {
  }

  lemma NothingSignalled()
    ensures Signalled([]) == []
  {
  }

  lemma {:induction false} SignalledConcat(a: seq<Turn>, b: seq<Turn>)
    ensures Signalled(a + b) == Signalled(a) + Signalled(b)
    decreases |b|
  {
    if b == [] {
      assert a + b == a;
    } else {
      assert (a + b)[..|a + b| - 1] == a + b[..|b| - 1];
      SignalledConcat(a, b[..|b| - 1]);
    }
  }

  lemma {:induction false} SignalledOfGets(ms: seq<Message>)
    ensures Signalled(Gets(ms)) == []
    decreases |ms|
  {
    if ms != [] {
      var init := ms[..|ms| - 1];
      assert Gets(ms)[..|ms| - 1] == Gets(init);
      SignalledOfGets(init);
    }
  }

  lemma NoMessage(err: IoError)
    ensures MessagesOf([Failed(err)]) == [] && MessagesOf([]) == []
  {
    assert [Failed(err)][..0] == [];
  }

  /** Reading a message takes its whole frame. */
  lemma {:induction false} DecodedFits(s: seq<Byte>, end: IoError)
    ensures |EncodeAll(DecodeStream(s, end).0)| <= |s|
    decreases |s|
  {
    hide Encode;
    var d := DecodeFrame(s, end);
    if d.Frame? {
      var rest := DecodeStream(s[d.size..], end).0;
      DecodedFits(s[d.size..], end);
      EncodeAllConcat([d.msg], rest);
      EncodeAllSingle(d.msg);
      assert |Encode(d.msg)| == d.size;
    }
  }

  /** A fault that is not an end of file is reported as it is. */
  lemma {:induction false} FaultIsReported(s: seq<Byte>, end: IoError)
    requires !end.EOF?
    ensures DecodeStream(s, end).1 == end
    decreases |s|
  {
    var d := DecodeFrame(s, end);
    if d.Frame? {
      FaultIsReported(s[d.size..], end);
    }
  }

  /** A transient error after `n` bytes of a stream of frames loses no message if and only if it comes between two
      frames; a frame that is cut is lost. */
  lemma TransientCut(ms: seq<Message>, n: nat, fault: IoError)
    requires AllWellFormed(ms) && n <= |EncodeAll(ms)| && IsTransient(fault)
    ensures var all, k := EncodeAll(ms), CompleteFrames(ms, n);
            MessagesOf(Turns([Segment(all[..n], fault), Segment(all[n..], EOF)])) == ms <==> n == |EncodeAll(ms[..k])|
  {
    hide Encode, DecodeStream, MessagesOf, Turns, CompleteFrames, DecodeFrame, EncodeAll;
    var all, k := EncodeAll(ms), CompleteFrames(ms, n);
    var head, tail := Segment(all[..n], fault), Segment(all[n..], EOF);
    FaultIsReported(all[..n], fault);
    MessagesOfTurns([head, tail]);
    assert [head, tail][1..] == [tail];
    OneSegment(tail);
    CutByFault(ms, n, fault);
    var later := DecodeStream(all[n..], EOF).0;
    DecodedFits(all[n..], EOF);
    CompleteFramesSplit(ms, n);
    assert ms == ms[..k] + ms[k..];
    EncodeAllConcat(ms[..k], ms[k..]);
    assert later == (ms[..k] + later)[k..];
    if n == |EncodeAll(ms[..k])| {
      assert all[n..] == EncodeAll(ms[k..]) + [];
      StreamOfFrames(ms[k..], [], EOF);
      NothingToDecode(EOF);
    }
  }

  /** Inside a frame a transient error does worse than lose it: when it comes right after the header, the payload is
      read as frames of its own, such as an ack that nobody sent. */
  lemma PayloadReadAsFrame(m: Message, inner: Message, fault: IoError)
    requires WellFormed(m) && WellFormed(inner) && m.payload == Encode(inner) && IsTransient(fault)
    ensures var all := Encode(m);
            MessagesOf(Turns([Segment(all[..HEADER_SIZE], fault), Segment(all[HEADER_SIZE..], EOF)])) == [inner]
  {
    hide DecodeStream, MessagesOf, Turns, DecodeFrame, EncodeAll;
    var all := Encode(m);
    var head, tail := Segment(all[..HEADER_SIZE], fault), Segment(all[HEADER_SIZE..], EOF);
    FaultIsReported(all[..HEADER_SIZE], fault);
    HeaderAlone(m, fault);
    MessagesOfTurns([head, tail]);
    assert [head, tail][1..] == [tail];
    OneSegment(tail);
    assert all[HEADER_SIZE..] == Encode(inner) + [];
    FrameThenRest(inner, [], EOF);
    NothingToDecode(EOF);
  }

  lemma HeaderAlone(m: Message, end: IoError)
    requires WellFormed(m) && m.payload != []
    ensures DecodeStream(Encode(m)[..HEADER_SIZE], end).0 == []
  {
    StrictPrefixDecodesToNothing(m, HEADER_SIZE, end);
  }

  lemma NothingToDecode(end: IoError)
    ensures DecodeStream([], end).0 == []
  {
  }

  lemma OneSegment(seg: Segment)
    requires seg.end.EOF?
    ensures MessagesOf(Turns([seg])) == DecodeStream(seg.bytes, EOF).0
  {
    hide DecodeStream, MessagesOf, Turns;
    MessagesOfTurns([seg]);
    EofIsReported(seg.bytes);
  }

  lemma {:induction false} EofIsReported(s: seq<Byte>)
    ensures IsEOF(DecodeStream(s, EOF).1)
    decreases |s|
  {
    var d := DecodeFrame(s, EOF);
    if d.Frame? {
      EofIsReported(s[d.size..]);
    }
  }

  /** The messages before a cut do not depend on the error there. */
  lemma CutByFault(ms: seq<Message>, n: nat, end: IoError)
    requires AllWellFormed(ms) && n <= |EncodeAll(ms)|
    ensures DecodeStream(EncodeAll(ms)[..n], end).0 == ms[..CompleteFrames(ms, n)]
  {
    hide Encode, EncodeAll;
    var torn := CutPoint(ms, n);
    var k := CompleteFrames(ms, n);
    assert DecodeStream(torn, end).0 == [];
    StreamOfFrames(ms[..k], torn, end);
  }
}
