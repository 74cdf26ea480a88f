/** Identifiers and results of asynchronous commands, and their encodings. */
module AsyncCommands {
  import opened Bytes

  /** `Error` is empty when the command succeeded. */
  datatype AsyncCommandResult = AsyncCommandResult(commandId: seq<Byte>, error: seq<Byte>) {
    predicate IsFailed() {
      error != []
    }
  }

  /** The conversion `uint64(id)`: two's complement. */
  function AsUint64(id: Int64): (v: Uint64) {
    if id < 0 then id + 0x1_0000_0000_0000_0000 else id
  }

  /** `Int64CommandId` fills an 8-byte buffer, most significant byte first. */
  method Int64CommandId(id: Int64) returns (b: array<Byte>)
    ensures b.Length == 8 && b[..] == PutUint64(AsUint64(id))
    ensures BigEndian(b[..]) == id % 0x1_0000_0000_0000_0000
  {
    hide BigEndian, PutUint32;
    PutUint64IsBigEndian(AsUint64(id));
    b := new Byte[8](i => 0);
    var v := AsUint64(id);
    var hi, lo := PutUint32(v / TWO_TO_32), PutUint32(v % TWO_TO_32);
    for i := 0 to 4
      invariant b[..i] == hi[..i]
      invariant b[4..4 + i] == lo[..i]
    {
      b[i] := hi[i];
      b[4 + i] := lo[i];
    }
    assert b[..] == b[..4] + b[4..8];
  }

  /** Two int64 command ids are the same bytes exactly when they are the same integer. */
  lemma Int64CommandIdsMatch(id: Int64, id': Int64)
    ensures PutUint64(AsUint64(id)) == PutUint64(AsUint64(id')) <==> id == id'
  {
    if PutUint64(AsUint64(id)) == PutUint64(AsUint64(id')) {
      PutUint64Injective(AsUint64(id), AsUint64(id'));
    }
  }

  function Length32(b: seq<Byte>): (n: Uint32) {
    |b| % TWO_TO_32
  }

  /** The bytes of a result; the lengths are truncated to 32 bits. */
  function Marshalled(k: AsyncCommandResult): (data: seq<Byte>) {
    PutUint32(Length32(k.commandId)) + k.commandId + if k.IsFailed() then PutUint32(Length32(k.error)) + k.error else []
  }

  /** How a result lies on the wire: the length of its id in four bytes, the id, and for a failure the length of the
      error text in four bytes and the text. */
  ghost predicate Layout(k: AsyncCommandResult, data: seq<Byte>) {
    var n := |k.commandId|;
    && |data| == 4 + n + (if k.error == [] then 0 else 4 + |k.error|)
    && BigEndian(data[0..4]) == n % TWO_TO_32 && data[4..4 + n] == k.commandId
    && (k.error != [] ==> BigEndian(data[4 + n..8 + n]) == |k.error| % TWO_TO_32 && data[8 + n..] == k.error)
  }

  lemma MarshalledLayout(k: AsyncCommandResult)
    ensures Layout(k, Marshalled(k))
  {
    hide PutUint32, BigEndian;
    var data, n := Marshalled(k), |k.commandId|;
    assert data[0..4] == PutUint32(Length32(k.commandId)) && data[4..4 + n] == k.commandId;
    PutUint32IsBigEndian(Length32(k.commandId));
    if k.IsFailed() {
      assert data[4 + n..8 + n] == PutUint32(Length32(k.error)) && data[8 + n..] == k.error;
      PutUint32IsBigEndian(Length32(k.error));
    }
  }

  /** `copy(b[from:...], data)`. */
  method CopyInto(b: array<Byte>, from: nat, data: seq<Byte>)
    requires from + |data| <= b.Length
    modifies b
    ensures b[from..from + |data|] == data
    ensures b[..from] == old(b[..from]) && b[from + |data|..] == old(b[from + |data|..])
  {
    forall i | 0 <= i < |data| {
      b[from + i] := data[i];
    }
  }

  /** `MarshalBinary` fills a buffer of exactly the right size. */
  method MarshalBinary(k: AsyncCommandResult) returns (b: array<Byte>)
    ensures b[..] == Marshalled(k)
    ensures Layout(k, b[..])
  {
    MarshalledLayout(k);
    hide PutUint32, Layout;
    var id := |k.commandId|;
    var size := 4 + id;
    if k.IsFailed() {
      size := size + 4 + |k.error|;
    }
    b := new Byte[size](i => 0);
    CopyInto(b, 0, PutUint32(Length32(k.commandId)));
    CopyInto(b, 4, k.commandId);
    assert b[..4 + id] == b[..4] + b[4..4 + id];
    ghost var head := b[..4 + id];
    if k.IsFailed() {
      CopyInto(b, 4 + id, PutUint32(Length32(k.error)));
      CopyInto(b, 4 + id + 4, k.error);
      assert b[..4 + id + 4][..4 + id] == b[..4 + id];
      assert b[..] == b[..4 + id] + b[4 + id..8 + id] + b[8 + id..8 + id + |k.error|];
    } else {
      assert b[..] == b[..4 + id];
    }
  }

  /** `UnmarshalBinary` into `k`: it sets the error only if bytes follow the id, and has no error path; `None` is where
      a slice is out of range and the program panics. */
  function UnmarshalBinary(k: AsyncCommandResult, data: seq<Byte>): (r: Option<AsyncCommandResult>) {
    if |data| < 4 then None
    else
      var n := GetUint32(data[0..4]);
      if |data| < 4 + n then None
      else if |data| == 4 + n then Some(k.(commandId := data[4..]))
      else if |data| < 8 + n then None
      else
        var e := GetUint32(data[4 + n..8 + n]);
        if |data| < 8 + n + e then None
        else Some(k.(commandId := data[4..4 + n], error := data[8 + n..8 + n + e]))
  }

  function ParseAsyncCommandResult(data: seq<Byte>): (r: Option<AsyncCommandResult>) {
    UnmarshalBinary(AsyncCommandResult([], []), data)
  }

  /** What any bytes decode to, and when the program panics: the parts are where their lengths say, and bytes after them
      are ignored. */
  lemma ParsedParts(data: seq<Byte>)
    ensures var r, n := ParseAsyncCommandResult(data), if |data| < 4 then 0 else BigEndian(data[0..4]);
            && (r.None? <==>
                  || |data| < 4 + n
                  || 4 + n < |data| < 8 + n
                  || (8 + n <= |data| && |data| < 8 + n + BigEndian(data[4 + n..8 + n])))
            && (r.Some? ==> 4 + n <= |data| && r.value.commandId == data[4..4 + n])
            && (r.Some? && |data| == 4 + n ==> !r.value.IsFailed())
            && (r.Some? && |data| > 4 + n ==>
                  var e := BigEndian(data[4 + n..8 + n]);
                  8 + n + e <= |data| && r.value.error == data[8 + n..8 + n + e])
  {
    hide GetUint32, BigEndian;
    if |data| >= 4 {
      GetUint32IsBigEndian(data[0..4]);
      var n: int := GetUint32(data[0..4]);
      if |data| >= 8 + n {
        GetUint32IsBigEndian(data[4 + n..8 + n]);
      }
    }
  }

  lemma ParseSucceeded(id: seq<Byte>)
    requires |id| < TWO_TO_32
    ensures ParseAsyncCommandResult(Marshalled(AsyncCommandResult(id, []))) == Some(AsyncCommandResult(id, []))
  {
    hide PutUint32, GetUint32;
    GetPutUint32(|id|);
    var data := Marshalled(AsyncCommandResult(id, []));
    assert data[0..4] == PutUint32(|id|);
    assert data[4..] == id;
  }

  lemma ParseFailed(id: seq<Byte>, error: seq<Byte>)
    requires |id| < TWO_TO_32 && |error| < TWO_TO_32 && error != []
    ensures ParseAsyncCommandResult(Marshalled(AsyncCommandResult(id, error))) == Some(AsyncCommandResult(id, error))
  {
    hide PutUint32, GetUint32;
    GetPutUint32(|id|);
    GetPutUint32(|error|);
    var n := |id|;
    var data := Marshalled(AsyncCommandResult(id, error));
    assert data == PutUint32(n) + id + (PutUint32(|error|) + error);
    assert data[0..4] == PutUint32(n);
    assert data[4..4 + n] == id;
    assert data[4 + n..8 + n] == PutUint32(|error|);
    assert data[8 + n..8 + n + |error|] == error;
  }

  /** A result survives the wire exactly when its id and its error are shorter than 2^32 bytes. */
  lemma ResultRoundTrip(k: AsyncCommandResult)
    ensures ParseAsyncCommandResult(Marshalled(k)) == Some(k) <==> |k.commandId| < TWO_TO_32 && |k.error| < TWO_TO_32
  {
    hide PutUint32, GetUint32;
    if |k.commandId| < TWO_TO_32 && |k.error| < TWO_TO_32 {
      if k.IsFailed() {
        ParseFailed(k.commandId, k.error);
      } else {
        ParseSucceeded(k.commandId);
      }
    }
  }
}
