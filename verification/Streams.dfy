/** Reading and writing frames on byte streams that deliver and fail wherever they like. */
module Streams {
  import opened Bytes
  import opened Frames

  function Flatten(chunks: seq<seq<Byte>>): (b: seq<Byte>) {
    if chunks == [] then [] else chunks[0] + Flatten(chunks[1..])
  }

  function SegmentsOf(bursts: seq<Burst>): (s: seq<Segment>) {
    seq(|bursts|, i requires 0 <= i < |bursts| => Segment(Flatten(bursts[i].chunks), bursts[i].end))
  }

  function Min(a: nat, b: nat): (m: nat) {
    if a < b then a else b
  }

  /** What arrives, in chunks (some may be empty), up to an error of the connection, and that error. */
  datatype Burst = Burst(chunks: seq<seq<Byte>>, end: IoError)

  /** A connection seen from its reading end: the chunks arrive and then `end` is reported; `later` is what comes after
      a transient error. */
  class Reader {
    var chunks: seq<seq<Byte>>
    var end: IoError
    var later: seq<Burst>

    constructor (chunks: seq<seq<Byte>>, end: IoError, later: seq<Burst>)
      ensures this.chunks == chunks && this.end == end && this.later == later
    {
      this.chunks, this.end, this.later := chunks, end, later;
    }

    /** The connection goes on after a transient error; in the end it is closed. */
    method Resume()
      modifies this
      ensures chunks == (if old(later) == [] then [] else old(later)[0].chunks)
      ensures end == (if old(later) == [] then EOF else old(later)[0].end)
      ensures later == if old(later) == [] then [] else old(later)[1..]
    {
      if later == [] {
        chunks, end := [], EOF;
      } else {
        chunks, end, later := later[0].chunks, later[0].end, later[1..];
      }
    }

    ghost function Segments(): (s: seq<Segment>)
      reads this
    {
      [Segment(Remaining(), end)] + SegmentsOf(later)
    }

    ghost function Remaining(): (b: seq<Byte>)
      reads this
    {
      Flatten(chunks)
    }

    /** Fills `buf` from index `from` on with at most one chunk. */
    method Read(buf: array<Byte>, from: nat) returns (n: nat, err: Option<IoError>)
      requires from < buf.Length
      modifies this`chunks, buf
      ensures from + n <= buf.Length
      ensures buf[..from] == old(buf[..from])
      ensures old(Remaining()) == buf[from..from + n] + Remaining()
      ensures err.Some? ==> n == 0 && err == Some(end) && Remaining() == []
      ensures err.None? ==> |chunks| < old(|chunks|) || from + n == buf.Length
      ensures |chunks| <= old(|chunks|)
    {
      if chunks == [] {
        return 0, Some(end);
      }
      var c := chunks[0];
      n := Min(|c|, buf.Length - from);
      forall i | 0 <= i < n {
        buf[from + i] := c[i];
      }
      assert buf[from..from + n] == c[..n];
      assert c == c[..n] + c[n..];
      if n == |c| {
        chunks := chunks[1..];
      } else {
        chunks := [c[n..]] + chunks[1..];
      }
      assert old(Remaining()) == c[..n] + Remaining();
      err := None;
    }
  }

  /** `io.ReadAtLeast` with as many bytes wanted as the buffer holds; a `LimitReader` of the same size
      changes nothing. */
  method ReadFull(r: Reader, buf: array<Byte>) returns (n: nat, err: Option<IoError>)
    modifies r`chunks, buf
    ensures var all := old(r.Remaining());
            && n == Min(|all|, buf.Length)
            && buf[..n] == all[..n]
            && r.Remaining() == all[n..]
            && err == if |all| < buf.Length then Some(ShortRead(|all|, r.end)) else None
  {
    n, err := 0, None;
    ghost var all := r.Remaining();
    while n < buf.Length && err.None?
      invariant n <= buf.Length
      invariant all == buf[..n] + r.Remaining()
      invariant err.Some? ==> err == Some(r.end) && r.Remaining() == []
      decreases err.None?, buf.Length - n, |r.chunks|
    {
      ghost var before := buf[..n];
      var k;
      k, err := r.Read(buf, n);
      assert buf[..n + k] == before + buf[n..n + k];
      n := n + k;
    }
    if n >= buf.Length {
      err := None;
    } else if n > 0 && err == Some(EOF) {
      err := Some(UnexpectedEOF);
    }
  }

  /** `messageHeaderFromBytes`. */
  method HeaderFromBytes(b: array<Byte>) returns (h: Header)
    requires b.Length == HEADER_SIZE
    ensures h == DecodeHeader(b[..])
  {
    var uuid := new Byte[16];
    for i := 0 to 16
      invariant uuid[..i] == b[4..4 + i]
    {
      uuid[i] := b[4 + i];
    }
    assert uuid[..] == b[..][4..20];
    assert b[20..24] == b[..][20..24];
    h := Header(b[0], b[1], b[3], uuid[..], GetUint32(b[20..24]));
  }

  const NO_MESSAGE := Message(Header(0, 0, 0, seq(16, i => 0), 0), [])

  /** `Message.ReadFrom` on a fresh message: the outcome is that of `DecodeFrame`, however the bytes were chunked. */
  method ReadFrom(r: Reader) returns (msg: Message, count: nat, err: Option<IoError>)
    modifies r`chunks
    ensures var all := old(r.Remaining());
            match DecodeFrame(all, r.end)
            case Frame(m, size) => err.None? && msg == m && count == size && r.Remaining() == all[size..]
            case Stopped(e) => err == Some(e) && count == |all| && r.Remaining() == []
  {
    ghost var all := r.Remaining();
    var b := new Byte[HEADER_SIZE](i => 0);
    msg := NO_MESSAGE;
    count, err := ReadFull(r, b);
    if err.Some? {
      return;
    }
    assert b[..] == all[..HEADER_SIZE];
    var h := HeaderFromBytes(b);
    msg := Message(h, []);
    if h.length != 0 {
      var payload := new Byte[h.length](i => 0);
      var n;
      n, err := ReadFull(r, payload);
      count := count + n;
      assert payload[..] == payload[..payload.Length];
      msg := Message(h, payload[..]);
      if err.None? {
        assert payload[..] == all[HEADER_SIZE..HEADER_SIZE + h.length];
      }
    }
  }

  datatype ConnError = Io(err: IoError) | LengthMismatch

  /** `connRead`: its length check never fires. */
  method ConnRead(r: Reader) returns (msg: Option<Message>, err: Option<ConnError>)
    modifies r`chunks
    ensures var all := old(r.Remaining());
            match DecodeFrame(all, r.end)
            case Frame(m, size) => msg == Some(m) && err.None? && r.Remaining() == all[size..]
            case Stopped(e) => msg.None? && err == Some(Io(e)) && r.Remaining() == []
  {
    var m, n, e := ReadFrom(r);
    if e.Some? {
      return None, Some(Io(e.value));
    }
    if n != m.header.length + HEADER_SIZE {
      return None, Some(LengthMismatch);
    }
    return Some(m), None;
  }

  /** The reading loop of `consumeConnection` on one connection; `done(k)` tells whether the context is found closed
      after turn `k`. It takes the turns that `Turns` gives, in order: messages join the read queue, errors other than
      the end of the connection are signalled, and transient ones do not stop it. It stops early exactly when the
      context is closed. */
  method ReadLoop(r: Reader, done: nat -> bool)
      returns (readQueue: seq<Message>, signalled: seq<IoError>, ghost turns: seq<Turn>)
    modifies r
    ensures turns != [] && turns <= Turns(old(r.Segments()))
    ensures readQueue == MessagesOf(turns) && signalled == Signalled(turns)
    ensures forall k: nat :: k < |turns| - 1 ==> !done(k)
    ensures |turns| < |Turns(old(r.Segments()))| ==> done(|turns| - 1)
  {
    hide Turns, MessagesOf, Signalled;
    readQueue, signalled, turns := [], [], [];
    NoTurns();
    ghost var all := Turns(r.Segments());
    var k := 0;
    while true
      invariant all == turns + Turns(r.Segments()) && k == |turns|
      invariant readQueue == MessagesOf(turns) && signalled == Signalled(turns)
      invariant forall i: nat :: i < k ==> !done(i)
      decreases |Turns(r.Segments())|
    {
      var msg, err := NextTurn(r);
      ghost var turn := if err.Some? then Failed(err.value) else Got(msg);
      TurnsSnoc(turns, turn);
      turns := turns + [turn];
      if err.Some? {
        if IsEOF(err.value) {
          return;
        }
        signalled := signalled + [err.value];
        if !IsTransient(err.value) {
          return;
        }
      } else {
        readQueue := readQueue + [msg];
      }
      if done(k) {
        return;
      }
      k := k + 1;
    }
  }

  /** One turn: a message, or an error. A transient error leaves the connection where it goes on afterwards. */
  method NextTurn(r: Reader) returns (msg: Message, err: Option<IoError>)
    modifies r
    ensures var turn := if err.Some? then Failed(err.value) else Got(msg);
            Turns(old(r.Segments())) ==
            [turn] + if err.None? || IsTransient(err.value) then Turns(r.Segments()) else []
  {
    hide Turns, DecodeFrame, SegmentsOf, Flatten, WellFormed;
    FirstTurn(r.Remaining(), r.end, SegmentsOf(r.later));
    var m, e := ConnRead(r);
    if e.Some? {
      msg, err := NO_MESSAGE, Some(e.value.err);
      if IsTransient(err.value) {
        LaterTurns(r.later);
        r.Resume();
      }
    } else {
      msg, err := m.value, None;
    }
  }

  lemma NoTurns()
    ensures MessagesOf([]) == [] && Signalled([]) == []
  {
  }

  /** Past the last burst the connection is at its end. */
  lemma LaterTurns(later: seq<Burst>)
    ensures later == [] ==> Turns(SegmentsOf(later)) == Turns([Segment(Flatten([]), EOF)] + SegmentsOf([]))
    ensures later != [] ==>
              SegmentsOf(later) == [Segment(Flatten(later[0].chunks), later[0].end)] + SegmentsOf(later[1..])
  {
    assert Gets([]) + [Failed(EOF)] == [Failed(EOF)];
    assert [Segment([], EOF)] + SegmentsOf([]) == [Segment([], EOF)];
  }

  /** A connection seen from its writing end: it reports `fault` as soon as `budget` more bytes are out, which may be
      in the middle of a frame or just after its last byte. */
  class Writer {
    var wire: seq<Byte>
    var budget: nat
    const fault: IoError

    constructor (budget: nat, fault: IoError)
      ensures wire == [] && this.budget == budget && this.fault == fault
    {
      wire, this.budget, this.fault := [], budget, fault;
    }

    method Write(data: seq<Byte>) returns (n: nat, err: Option<IoError>)
      modifies this
      ensures n == Min(|data|, old(budget)) && budget == old(budget) - n
      ensures wire == old(wire) + data[..n]
      ensures err == if |data| < old(budget) then None else Some(fault)
    {
      n := Min(|data|, budget);
      err := if |data| < budget then None else Some(fault);
      wire := wire + data[..n];
      budget := budget - n;
    }
  }

  /** Writing `k` more bytes of `all` after its first `n`. */
  lemma Extend(wire: seq<Byte>, all: seq<Byte>, n: nat, piece: seq<Byte>, k: nat)
    requires n + |piece| <= |all| && piece == all[n..n + |piece|] && k <= |piece|
    ensures (wire + all[..n]) + piece[..k] == wire + all[..n + k]
  {
    assert all[..n + k] == all[..n] + piece[..k];
  }

  lemma HeaderPieces(h: Header)
    ensures EncodeHeader(h)[..4] == [h.version, h.flags, 0, h.opcode]
    ensures EncodeHeader(h)[4..20] == h.uuid && EncodeHeader(h)[20..24] == PutUint32(h.length)
  {
  }

  /** `MessageHeader.WriteTo`: three writes, stopping at the first that fails. */
  method WriteHeader(w: Writer, h: Header) returns (n: nat, err: Option<IoError>)
    modifies w
    ensures n == Min(HEADER_SIZE, old(w.budget)) && w.budget == old(w.budget) - n
    ensures w.wire == old(w.wire) + EncodeHeader(h)[..n]
    ensures err == if HEADER_SIZE < old(w.budget) then None else Some(w.fault)
    ensures n == HEADER_SIZE ==>
              var b := w.wire[|old(w.wire)|..];
              b[..4] == [h.version, h.flags, 0, h.opcode] && b[4..20] == h.uuid && BigEndian(b[20..]) == h.length
  {
    hide EncodeHeader, PutUint32, BigEndian;
    HeaderPieces(h);
    HeaderLayout(h);
    ghost var all, wire := EncodeHeader(h), w.wire;
    var b := new Byte[4](i => 0);
    b[0], b[1], b[3] := h.version, h.flags, h.opcode;
    assert b[..] == all[0..4];
    n, err := w.Write(b[..]);
    assert wire + all[..0] == wire;
    Extend(wire, all, 0, all[0..4], n);
    if err.Some? {
      return;
    }
    var k;
    k, err := w.Write(h.uuid);
    Extend(wire, all, 4, h.uuid, k);
    n := n + k;
    if err.Some? {
      return;
    }
    var length := PutUint32(h.length);
    k, err := w.Write(length);
    Extend(wire, all, 20, length, k);
    n := n + k;
    assert n == HEADER_SIZE ==> w.wire[|wire|..] == all;
  }

  /** `Message.WriteTo`: whatever happens, the wire gains a prefix of the frame; it is the whole frame on success, and
      on failure it is cut where the stream failed. */
  method WriteTo(w: Writer, m: Message) returns (count: nat, err: Option<IoError>)
    modifies w
    ensures count == Min(|Encode(m)|, old(w.budget))
    ensures w.wire == old(w.wire) + Encode(m)[..count]
    ensures err == if |Encode(m)| < old(w.budget) then None else Some(w.fault)
  {
    hide EncodeHeader;
    ghost var wire := w.wire;
    count, err := WriteHeader(w, m.header);
    assert Encode(m)[..count] == EncodeHeader(m.header)[..count];
    if err.Some? {
      return;
    }
    if |m.payload| != 0 {
      var k;
      k, err := w.Write(m.payload);
      Extend(wire, Encode(m), HEADER_SIZE, m.payload, k);
      count := count + k;
    }
  }

  /** `connWrite`: it succeeds exactly when no write failed and the length field tells the truth; a frame that is out
      in full may still be reported as failed. */
  method ConnWrite(w: Writer, m: Message) returns (err: Option<ConnError>)
    modifies w
    ensures w.wire == old(w.wire) + Encode(m)[..Min(|Encode(m)|, old(w.budget))]
    ensures err.None? <==> |Encode(m)| < old(w.budget) && WellFormed(m)
  {
    var n, e := WriteTo(w, m);
    if e.Some? {
      return Some(Io(e.value));
    }
    if n != m.header.length + HEADER_SIZE {
      return Some(LengthMismatch);
    }
    return None;
  }
}
