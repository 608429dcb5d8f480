/**
 The framing of write-ahead-log records: an 8-byte little-endian length field that also
 carries the padding, the record, and the padding itself.
 */
module Wal {
  import opened Basics
  import opened PageWriter

  // ---------------------------------------------------------------------------
  // The length field
  // ---------------------------------------------------------------------------

  /** The record length in the low 56 bits; if there is padding, the top byte holds 0x80 and its length. */
  function EncodeFrameSize(n: bv64, pad: bv64): bv64 {
    if pad != 0 then n | ((0x80 | pad) << 56) else n
  }

  function RecordBits(field: bv64): bv64 {
    field & !(0xff << 56)
  }

  predicate Negative(field: bv64) {
    field >= 0x8000_0000_0000_0000
  }

  /** The padding as the decoder computes it from the field. */
  function PadBits(field: bv64): bv64 {
    if Negative(field) then (field >> 56) & 0x7 else 0
  }

  /** What the decoder returns: the record length, twice. */
  function DecodeFrameSize(field: bv64): (bv64, bv64) {
    (RecordBits(field), RecordBits(field))
  }

  const LIMIT: bv64 := 0x0100_0000_0000_0000

  /** The field determines both lengths, and its sign says whether there is padding. */
  lemma FrameSizeRoundTrip(n: bv64, pad: bv64)
    requires n < LIMIT && pad < 8
    ensures RecordBits(EncodeFrameSize(n, pad)) == n
    ensures PadBits(EncodeFrameSize(n, pad)) == pad
    ensures Negative(EncodeFrameSize(n, pad)) <==> pad != 0
  {
  }

  // ---------------------------------------------------------------------------
  // Frames
  // ---------------------------------------------------------------------------

  /** A marshalled record, with its length as the machine word the encoder works on. */
  datatype Record = Record(length: bv64, data: seq<Byte>)

  ghost predicate Proper(r: Record) {
    |r.data| == r.length as nat && r.length < LIMIT
  }

  function PadLength(n: nat): (p: nat)
    ensures p < 8 && (n + p) % 8 == 0
  {
    (8 - n % 8) % 8
  }

  function Word(p: nat): (w: bv64)
    requires p < 8
    ensures w < 8 && (w == 0 <==> p == 0)
  {
    match p
    case 0 => 0 case 1 => 1 case 2 => 2 case 3 => 3
    case 4 => 4 case 5 => 5 case 6 => 6 case _ => 7
  }

  function Octet(field: bv64, k: nat): Byte
    requires k < 8
  {
    match k
    case 0 => (field & 0xff) as Byte
    case 1 => ((field >> 8) & 0xff) as Byte
    case 2 => ((field >> 16) & 0xff) as Byte
    case 3 => ((field >> 24) & 0xff) as Byte
    case 4 => ((field >> 32) & 0xff) as Byte
    case 5 => ((field >> 40) & 0xff) as Byte
    case 6 => ((field >> 48) & 0xff) as Byte
    case _ => ((field >> 56) & 0xff) as Byte
  }

  function LittleEndian(field: bv64): (bytes: seq<Byte>)
    ensures |bytes| == 8 && forall k :: 0 <= k < 8 ==> bytes[k] == Octet(field, k)
  {
    seq(8, k requires 0 <= k < 8 => Octet(field, k))
  }

  /** How a reader puts eight bytes together: the first is the lowest. */
  function ReadWord(bytes: seq<Byte>): bv64
    requires |bytes| == 8
  {
    (bytes[0] as bv64) | ((bytes[1] as bv64) << 8) | ((bytes[2] as bv64) << 16) | ((bytes[3] as bv64) << 24)
    | ((bytes[4] as bv64) << 32) | ((bytes[5] as bv64) << 40) | ((bytes[6] as bv64) << 48) | ((bytes[7] as bv64) << 56)
  }

  /** Reading a field that was written in little-endian order gives it back. */
  lemma WordRoundTrip(field: bv64)
    ensures ReadWord(LittleEndian(field)) == field
  {
    var b := LittleEndian(field);
    assert b[0] == Octet(field, 0) && b[1] == Octet(field, 1) && b[2] == Octet(field, 2) && b[3] == Octet(field, 3);
    assert b[4] == Octet(field, 4) && b[5] == Octet(field, 5) && b[6] == Octet(field, 6) && b[7] == Octet(field, 7);
  }

  lemma LittleEndianInjective(a: bv64, b: bv64)
    requires LittleEndian(a) == LittleEndian(b)
    ensures a == b
  {
    WordRoundTrip(a);
    WordRoundTrip(b);
  }

  function Zeros(n: nat): (z: seq<Byte>)
    ensures |z| == n
  {
    seq(n, _ => 0)
  }

  function Field(r: Record): bv64 {
    EncodeFrameSize(r.length, Word(PadLength(|r.data|)))
  }

  lemma FieldDecodes(r: Record)
    requires Proper(r)
    ensures RecordBits(Field(r)) == r.length && PadBits(Field(r)) == Word(PadLength(|r.data|))
  {
    FrameSizeRoundTrip(r.length, Word(PadLength(|r.data|)));
  }

  lemma WordValue(p: nat)
    requires p < 8
    ensures Word(p) as nat == p
  {
  }

  lemma SameValue(a: bv64, b: bv64)
    requires a as nat == b as nat
    ensures a == b
  {
    assert (a as nat) as bv64 == a && (b as nat) as bv64 == b;
  }

  /** Of a record's own length field the decoder returns the length right, and the padding right only for
      records of 0 and of 4 bytes. */
  lemma ReturnedPadRightIff(r: Record)
    requires Proper(r)
    ensures DecodeFrameSize(Field(r)).0 == r.length
    ensures DecodeFrameSize(Field(r)).1 == Word(PadLength(|r.data|)) <==> |r.data| == 0 || |r.data| == 4
  {
    FieldDecodes(r);
    var w := Word(PadLength(|r.data|));
    WordValue(PadLength(|r.data|));
    if r.length as nat == w as nat {
      SameValue(r.length, w);
    }
  }

  /** The record and its padding. */
  function Body(r: Record): (bytes: seq<Byte>)
    ensures |bytes| == |r.data| + PadLength(|r.data|) && bytes[..|r.data|] == r.data
  {
    r.data + Zeros(PadLength(|r.data|))
  }

  function Frame(r: Record): (bytes: seq<Byte>)
    ensures |bytes| == 8 + |r.data| + PadLength(|r.data|) && |bytes| % 8 == 0
  {
    LittleEndian(Field(r)) + Body(r)
  }

  ghost function Chunks(rs: seq<Record>): (cs: seq<seq<Byte>>)
    ensures |cs| == |rs|
  {
    seq(|rs|, k requires 0 <= k < |rs| => Frame(rs[k]))
  }

  ghost function Frames(rs: seq<Record>): seq<Byte> {
    Flatten(Chunks(rs))
  }

  // sequences, with nothing said about what they hold

  lemma Cancel(a: seq<Byte>, b: seq<Byte>, c: seq<Byte>, d: seq<Byte>)
    requires |a| == |c| && a + b == c + d
    ensures a == c && b == d
  {
    assert (a + b)[..|a|] == a && (c + d)[..|a|] == c;
    assert (a + b)[|a|..] == b && (c + d)[|a|..] == d;
  }

  lemma CancelHead(a: seq<Byte>, b: seq<Byte>, c: seq<Byte>, d: seq<Byte>, e: seq<Byte>, f: seq<Byte>)
    requires |a| == |d| && a + b + c == d + e + f
    ensures a == d && b + c == e + f
  {
    Associates(a, b, c);
    Associates(d, e, f);
    Cancel(a, b + c, d, e + f);
  }

  lemma AlignedSum(x: nat, y: nat)
    requires x % 8 == 0 && y % 8 == 0
    ensures (x + y) % 8 == 0
  {
  }

  lemma {:induction false} FlattenAligned(cs: seq<seq<Byte>>)
    requires forall k :: 0 <= k < |cs| ==> |cs[k]| % 8 == 0
    ensures |Flatten(cs)| % 8 == 0
  {
    if cs != [] {
      var n := |cs| - 1;
      FlattenAligned(cs[..n]);
      AlignedSum(|Flatten(cs[..n])|, |cs[n]|);
    }
  }

  /** Where the k-th length field begins in a log that starts at `offset`. */
  ghost function FieldOffset(offset: nat, rs: seq<Record>, k: nat): nat
    requires k <= |rs|
  {
    offset + |Frames(rs[..k])|
  }

  lemma WithinSector(x: nat)
    requires x % 8 == 0
    ensures x / 512 == (x + 7) / 512
  {
  }

  /** From an aligned start, no length field is torn across a sector, whatever was written before it. */
  lemma FieldsNeverTorn(offset: nat, rs: seq<Record>, k: nat)
    requires offset % 8 == 0 && k < |rs|
    ensures FieldOffset(offset, rs, k) % 8 == 0
    ensures FieldOffset(offset, rs, k) / 512 == (FieldOffset(offset, rs, k) + 7) / 512
  {
    FlattenAligned(Chunks(rs[..k]));
    AlignedSum(offset, |Frames(rs[..k])|);
    WithinSector(FieldOffset(offset, rs, k));
  }

  lemma FieldDecides(a: Record, b: Record)
    requires Proper(a) && Proper(b) && LittleEndian(Field(a)) == LittleEndian(Field(b))
    ensures a.length == b.length && |a.data| == |b.data|
  {
    LittleEndianInjective(Field(a), Field(b));
    FieldDecodes(a);
    FieldDecodes(b);
  }

  /** The first eight bytes decide how long the first record is. */
  lemma FrameHead(a: Record, x: seq<Byte>, b: Record, y: seq<Byte>)
    requires Proper(a) && Proper(b) && Frame(a) + x == Frame(b) + y
    ensures a == b && x == y
  {
    CancelHead(LittleEndian(Field(a)), Body(a), x, LittleEndian(Field(b)), Body(b), y);
    FieldDecides(a, b);
    Cancel(Body(a), x, Body(b), y);
    assert a.data == Body(a)[..|a.data|] == b.data;
  }

  lemma ChunksRest(rs: seq<Record>)
    requires rs != []
    ensures Frames(rs) == Frame(rs[0]) + Frames(rs[1..])
  {
    FlattenCons(Chunks(rs));
    assert Chunks(rs)[1..] == Chunks(rs[1..]);
  }

  /** Different lists of records never give the same bytes. */
  lemma {:induction false} FramesInjective(a: seq<Record>, b: seq<Record>)
    requires (forall r :: r in a ==> Proper(r)) && (forall r :: r in b ==> Proper(r))
    requires Frames(a) == Frames(b)
    ensures a == b
  {
    if a != [] { ChunksRest(a); }
    if b != [] { ChunksRest(b); }
    if a != [] && b != [] {
      FrameHead(a[0], Frames(a[1..]), b[0], Frames(b[1..]));
      FramesInjective(a[1..], b[1..]);
    }
  }

  lemma FramesSnoc(rs: seq<Record>, r: Record)
    ensures Frames(rs + [r]) == Frames(rs) + Frame(r)
  {
    assert Chunks(rs + [r]) == Chunks(rs) + [Frame(r)];
    FlattenSnoc(Chunks(rs), Frame(r));
  }

  /** The encoder, writing through the page writer. */
  class Encoder {
    const bw: PageWriter

    constructor (bw: PageWriter)
      ensures this.bw == bw
    {
      this.bw := bw;
    }

    method Put(bytes: seq<Byte>, ghost k: nat)
      requires bw.Valid() && bw.pageBytes <= bw.watermark && k <= |bw.sink| && bw.AlignedFrom(k)
      modifies bw, bw.buf
      ensures bw.Valid() && bw.Stream() == old(bw.Stream()) + bytes
      ensures old(bw.sink) <= bw.sink && bw.AlignedFrom(k)
    {
      RecursionEndsIff(bw.pageBytes, bw.watermark);
      var n := bw.Write(bytes, k);
    }

    /** What has been written is the frames of the records so far, and then this one's. */
    method Encode(r: Record, ghost rs: seq<Record>, ghost k: nat)
      requires Proper(r) && bw.Valid() && bw.Stream() == Frames(rs)
      requires bw.pageBytes <= bw.watermark && k <= |bw.sink| && bw.AlignedFrom(k)
      modifies bw, bw.buf
      ensures bw.Valid() && bw.Stream() == Frames(rs + [r])
      ensures old(bw.sink) <= bw.sink && bw.AlignedFrom(k)
    {
      FramesSnoc(rs, r);
      var pad := PadLength(|r.data|);
      var field := LittleEndian(EncodeFrameSize(r.length, Word(pad)));
      Put(field, k);
      var data := r.data;
      if pad != 0 {
        data := data + Zeros(pad);
      }
      assert data == Body(r);
      Put(data, k);
      Associates(Frames(rs), field, data);
    }
  }
}
