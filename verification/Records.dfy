/** The packed 20-byte record: little-endian integers, and two float fields kept as raw words. */
module Records {
  import opened Collections

  const RecordSize := 20

  type Word = w: bytes | |w| == 4 witness [0, 0, 0, 0]

  datatype Record = Record(key: int, latitude: Word, longitude: Word, zip: nat, year: nat, status: nat, borough: nat)

  // The ranges of the packed field types: int32, uint32, uint16 and two uint8.
  predicate Fits(r: Record) {
    && -0x8000_0000 <= r.key < 0x8000_0000 && r.zip < 0x1_0000_0000
    && r.year < 0x1_0000 && r.status < 0x100 && r.borough < 0x100
  }

  function Range(width: nat): nat {
    if width == 0 then 1 else 256 * Range(width - 1)
  }

  function ToBytes(x: nat, width: nat): (b: bytes)
    ensures |b| == width
  {
    if width == 0 then [] else [x % 256] + ToBytes(x / 256, width - 1)
  }

  function FromBytes(b: bytes): nat {
    if b == [] then 0 else b[0] + 256 * FromBytes(b[1..])
  }

  lemma {:induction false} NumberRoundTrip(x: nat, width: nat)
    requires x < Range(width)
    ensures FromBytes(ToBytes(x, width)) == x
  {
    if width > 0 {
      NumberRoundTrip(x / 256, width - 1);
      assert ToBytes(x, width)[1..] == ToBytes(x / 256, width - 1);
    }
  }

  lemma {:induction false} BytesRoundTrip(b: bytes)
    ensures FromBytes(b) < Range(|b|) && ToBytes(FromBytes(b), |b|) == b
  {
    if b != [] {
      BytesRoundTrip(b[1..]);
      assert FromBytes(b) / 256 == FromBytes(b[1..]) && FromBytes(b) % 256 == b[0];
    }
  }

  function Unsigned(key: int): nat
    requires -0x8000_0000 <= key < 0x8000_0000
  {
    if key < 0 then key + 0x1_0000_0000 else key
  }

  function Signed(u: nat): int {
    if u < 0x8000_0000 then u else u - 0x1_0000_0000
  }

  function Encode(r: Record): (b: bytes)
    requires Fits(r)
    ensures |b| == RecordSize
  {
    ToBytes(Unsigned(r.key), 4) + r.latitude + r.longitude + ToBytes(r.zip, 4)
    + ToBytes(r.year, 2) + ToBytes(r.status, 1) + ToBytes(r.borough, 1)
  }

  function Decode(b: bytes): Record
    requires |b| == RecordSize
  {
    Record(Signed(FromBytes(b[0..4])), b[4..8], b[8..12], FromBytes(b[12..16]),
           FromBytes(b[16..18]), FromBytes(b[18..19]), FromBytes(b[19..20]))
  }

  lemma Ranges()
    ensures Range(1) == 0x100 && Range(2) == 0x1_0000 && Range(4) == 0x1_0000_0000
  {
    assert Range(3) == 0x100_0000;
  }

  /** Field by field, what was packed is what is unpacked. */
  lemma DecodeEncode(r: Record)
    requires Fits(r)
    ensures Decode(Encode(r)) == r
  {
    Ranges();
    var b := Encode(r);
    assert b[0..4] == ToBytes(Unsigned(r.key), 4);
    assert b[4..8] == r.latitude && b[8..12] == r.longitude;
    assert b[12..16] == ToBytes(r.zip, 4);
    assert b[16..18] == ToBytes(r.year, 2);
    assert b[18..19] == ToBytes(r.status, 1);
    assert b[19..20] == ToBytes(r.borough, 1);
    NumberRoundTrip(Unsigned(r.key), 4);
    NumberRoundTrip(r.zip, 4);
    NumberRoundTrip(r.year, 2);
    NumberRoundTrip(r.status, 1);
    NumberRoundTrip(r.borough, 1);
  }

  /** Every 20 bytes are the packing of exactly one record. */
  lemma EncodeDecode(b: bytes)
    requires |b| == RecordSize
    ensures Fits(Decode(b)) && Encode(Decode(b)) == b
  {
    Ranges();
    BytesRoundTrip(b[0..4]);
    BytesRoundTrip(b[12..16]);
    BytesRoundTrip(b[16..18]);
    BytesRoundTrip(b[18..19]);
    BytesRoundTrip(b[19..20]);
    assert b == b[0..4] + b[4..8] + b[8..12] + b[12..16] + b[16..18] + b[18..19] + b[19..20];
  }

  lemma ByteSum(x: nat)
    ensures x < 0x1_0000_0000 ==>
              var b := ToBytes(x, 4);
              b[0] as int + 0x100 * b[1] as int + 0x1_0000 * b[2] as int +
                0x100_0000 * b[3] as int == x
    ensures x < 0x1_0000 ==> var b := ToBytes(x, 2); b[0] as int + 0x100 * b[1] as int == x
    ensures x < 0x100 ==> ToBytes(x, 1)[0] == x
  {
    Halves(x, 4);
    Halves(x / 256, 3);
    Halves(x / 256 / 256, 2);
    Halves(x / 256 / 256 / 256, 1);
    Halves(x, 2);
    Halves(x / 256, 1);
    Halves(x, 1);
  }

  lemma Halves(x: nat, width: nat)
    requires width > 0
    ensures ToBytes(x, width)[0] == x % 256 && ToBytes(x, width)[1..] == ToBytes(x / 256, width - 1)
  {}

  /** Where each field lies, lowest byte first; a negative key is stored modulo 2^32. */
  lemma EncodeLayout(r: Record)
    requires Fits(r)
    ensures var b := Encode(r);
            && |b| == 20
            && b[0] as int + 0x100 * b[1] as int + 0x1_0000 * b[2] as int + 0x100_0000 * b[3] as int ==
               (if r.key < 0 then r.key + 0x1_0000_0000 else r.key)
            && b[4..8] == r.latitude && b[8..12] == r.longitude
            && b[12] as int + 0x100 * b[13] as int + 0x1_0000 * b[14] as int + 0x100_0000 * b[15] as int == r.zip
            && b[16] as int + 0x100 * b[17] as int == r.year && b[18] == r.status && b[19] == r.borough
  {
    var b := Encode(r);
    ByteSum(Unsigned(r.key));
    ByteSum(r.zip);
    ByteSum(r.year);
    ByteSum(r.status);
    ByteSum(r.borough);
    assert b[0..4] == ToBytes(Unsigned(r.key), 4) && b[12..16] == ToBytes(r.zip, 4);
    assert b[16..18] == ToBytes(r.year, 2) && b[18..19] == ToBytes(r.status, 1) && b[19..20] == ToBytes(r.borough, 1);
  }

  // ----------------------------------------------------- runs of records

  ghost predicate AllFit(rs: seq<Record>) {
    forall i :: 0 <= i < |rs| ==> Fits(rs[i])
  }

  function EncodeAll(rs: seq<Record>): (b: bytes)
    requires AllFit(rs)
    ensures |b| == RecordSize * |rs|
  {
    if rs == [] then [] else EncodeAll(rs[..|rs| - 1]) + Encode(rs[|rs| - 1])
  }

  // Record `i` of a payload.
  function RecordAt(b: bytes, i: nat): Record
    requires (i + 1) * RecordSize <= |b|
  {
    Decode(b[i * RecordSize..(i + 1) * RecordSize])
  }

  /** The client's view of a payload: its whole records; a shorter tail is ignored. */
  function DecodeAll(b: bytes): (rs: seq<Record>)
    ensures |rs| == |b| / RecordSize
  {
    seq(|b| / RecordSize, i requires 0 <= i < |b| / RecordSize => RecordAt(b, i))
  }

  lemma RecordOfAppend(a: bytes, b: bytes, k: nat, i: nat)
    requires |a| == k * RecordSize && (i + 1) * RecordSize <= |a| + |b|
    ensures RecordAt(a + b, i) == if i < k then RecordAt(a, i) else RecordAt(b, i - k)
  {
    var lo, hi := i * RecordSize, (i + 1) * RecordSize;
    if i < k {
      assert (a + b)[lo..hi] == a[lo..hi];
    } else {
      assert (a + b)[lo..hi] == b[lo - |a|..hi - |a|];
    }
  }

  lemma DecodeAppend(a: bytes, b: bytes)
    requires |a| % RecordSize == 0
    ensures DecodeAll(a + b) == DecodeAll(a) + DecodeAll(b)
  {
    var k := |a| / RecordSize;
    forall i | 0 <= i < |DecodeAll(a + b)| ensures DecodeAll(a + b)[i] == (DecodeAll(a) + DecodeAll(b))[i] {
      RecordOfAppend(a, b, k, i);
    }
  }

  lemma {:induction false} DecodeEncodeAll(rs: seq<Record>)
    requires AllFit(rs)
    ensures DecodeAll(EncodeAll(rs)) == rs
  {
    if rs != [] {
      var n := |rs| - 1;
      DecodeEncodeAll(rs[..n]);
      DecodeAppend(EncodeAll(rs[..n]), Encode(rs[n]));
      var b := Encode(rs[n]);
      assert b[0 * RecordSize..1 * RecordSize] == b;
      DecodeEncode(rs[n]);
      assert DecodeAll(b) == [rs[n]];
    }
  }
}
