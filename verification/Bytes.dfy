/** Bytes, the two integer widths the wire uses, and their big-endian encodings. */
module Bytes {

  type Byte = x: int | 0 <= x < 256

  type Uint32 = x: int | 0 <= x < 0x1_0000_0000

  type Uint64 = x: int | 0 <= x < 0x1_0000_0000_0000_0000

  type Int64 = x: int | -0x8000_0000_0000_0000 <= x < 0x8000_0000_0000_0000

  const TWO_TO_32: int := 0x1_0000_0000

  datatype Option<+T> = None | Some(value: T)

  function PutUint32(v: Uint32): (b: seq<Byte>)
    ensures |b| == 4
  {
    [v / 0x100_0000, v / 0x1_0000 % 256, v / 0x100 % 256, v % 256]
  }

  function GetUint32(b: seq<Byte>): (v: Uint32)
    requires |b| == 4
  {
    (b[0] as int) * 0x100_0000 + (b[1] as int) * 0x1_0000 + (b[2] as int) * 0x100 + (b[3] as int)
  }

  lemma GetPutUint32(v: Uint32)
    ensures GetUint32(PutUint32(v)) == v
  {
    var hi := v / 0x1_0000;
    var lo := v % 0x1_0000;
    assert v / 0x100_0000 == hi / 0x100;
    assert v / 0x100 % 256 == lo / 0x100;
    assert v % 256 == lo % 256;
  }

  function PutUint64(v: Uint64): (b: seq<Byte>)
    ensures |b| == 8
  {
    PutUint32(v / TWO_TO_32) + PutUint32(v % TWO_TO_32)
  }

  lemma PutUint64Injective(v: Uint64, w: Uint64)
    requires PutUint64(v) == PutUint64(w)
    ensures v == w
  {
    assert PutUint64(v)[..4] == PutUint32(v / TWO_TO_32) && PutUint64(v)[4..] == PutUint32(v % TWO_TO_32);
    assert PutUint64(w)[..4] == PutUint32(w / TWO_TO_32) && PutUint64(w)[4..] == PutUint32(w % TWO_TO_32);
    GetPutUint32(v / TWO_TO_32);
    GetPutUint32(v % TWO_TO_32);
    GetPutUint32(w / TWO_TO_32);
    GetPutUint32(w % TWO_TO_32);
  }

  // ---- The byte order ----

  /** The number that bytes stand for, the most significant one first. */
  function BigEndian(b: seq<Byte>): (v: nat) {
    if b == [] then 0 else BigEndian(b[..|b| - 1]) * 256 + b[|b| - 1] as int
  }

  lemma GetUint32IsBigEndian(b: seq<Byte>)
    requires |b| == 4
    ensures GetUint32(b) == BigEndian(b)
  {
    var b3, b2, b1 := b[..3], b[..2], b[..1];
    assert b3[..2] == b2 && b2[..1] == b1 && b1[..0] == [];
    assert BigEndian(b1) == b[0] as int;
    assert BigEndian(b2) == BigEndian(b1) * 256 + b[1] as int;
    assert BigEndian(b3) == BigEndian(b2) * 256 + b[2] as int;
  }

  lemma PutUint32IsBigEndian(v: Uint32)
    ensures BigEndian(PutUint32(v)) == v
  {
    hide PutUint32, GetUint32;
    GetUint32IsBigEndian(PutUint32(v));
    GetPutUint32(v);
  }

  lemma BigEndianOfTwo(b: seq<Byte>)
    requires |b| == 8
    ensures BigEndian(b) == BigEndian(b[..4]) * TWO_TO_32 + BigEndian(b[4..])
  {
    GetUint32IsBigEndian(b[4..]);
    var b7, b6, b5, b4 := b[..7], b[..6], b[..5], b[..4];
    assert b7[..6] == b6 && b6[..5] == b5 && b5[..4] == b4;
    assert BigEndian(b5) == BigEndian(b4) * 256 + b[4] as int;
    assert BigEndian(b6) == BigEndian(b5) * 256 + b[5] as int;
    assert BigEndian(b7) == BigEndian(b6) * 256 + b[6] as int;
  }

  lemma PutUint64IsBigEndian(v: Uint64)
    ensures BigEndian(PutUint64(v)) == v
  {
    hide PutUint32, BigEndian;
    var b := PutUint64(v);
    assert b[..4] == PutUint32(v / TWO_TO_32) && b[4..] == PutUint32(v % TWO_TO_32);
    PutUint32IsBigEndian(v / TWO_TO_32);
    PutUint32IsBigEndian(v % TWO_TO_32);
    BigEndianOfTwo(b);
  }
}
