/**
 * The 48-byte xrif header: its field record, the byte layout written by xrif_write_header and
 * the parse done by xrif_read_header, with the round trips between them.
 *
 *   offset  width  field
 *   0       4      magic "xrif"
 *   4       4      version (u32)
 *   8       4      header size (u32)
 *   12..24  4 each width, height, depth, frames (u32)
 *   28..36  2 each type code, difference, reorder, compress method, lz4 acceleration (u16)
 *   38      2      reserved, 0
 *   40      8      reserved, 0
 * All integers are little-endian.
 */
module XrifHeader {
  import opened Bytes
  import opened XrifTypes
  import opened XrifState

  datatype Header = Header(
    version: u32, headerSize: u32,
    width: u32, height: u32, depth: u32, frames: u32,
    typeCode: u16, differenceMethod: u16, reorderMethod: u16, compressMethod: u16,
    lz4Acceleration: u16)

  /** The ASCII bytes 'x', 'r', 'i', 'f'. */
  const MAGIC: seq<byte> := ['x' as int, 'r' as int, 'i' as int, 'f' as int]

  /** The conversion of an int field to the u16 the header stores (C's unsigned wrap-around). */
  function ToU16(x: int): (r: u16)
    ensures 0 <= x < 0x1_0000 ==> r as int == x
  {
    (x % 0x1_0000) as u16
  }

  predicate FitsU16(x: int)
  {
    0 <= x < 0x1_0000
  }

  /** The record xrif_write_header makes of a handle. */
  function RecordOf(v: HandleValue): (h: Header)
    ensures h.version == VERSION && h.headerSize == HEADER_SIZE
    ensures h.width == v.width && h.height == v.height && h.depth == v.depth && h.frames == v.frames
  {
    Header(VERSION, HEADER_SIZE, v.width, v.height, v.depth, v.frames,
           ToU16(v.typeCode), ToU16(v.differenceMethod), ToU16(v.reorderMethod),
           ToU16(v.compressMethod), ToU16(v.lz4Acceleration))
  }

  /** Bytes 0..11: the magic, the version and the header size. */
  function Preamble(h: Header): (r: seq<byte>)
    ensures |r| == 12 && r[..4] == MAGIC
    ensures r[4..8] == LE(h.version as nat, 4) && r[8..12] == LE(h.headerSize as nat, 4)
  {
    MAGIC + LE(h.version as nat, 4) + LE(h.headerSize as nat, 4)
  }

  /** Bytes 12..27: width, height, depth and frames. */
  function Shape(h: Header): (r: seq<byte>)
    ensures |r| == 16
    ensures r[0..4] == LE(h.width as nat, 4) && r[4..8] == LE(h.height as nat, 4)
    ensures r[8..12] == LE(h.depth as nat, 4) && r[12..16] == LE(h.frames as nat, 4)
  {
    LE(h.width as nat, 4) + LE(h.height as nat, 4) + LE(h.depth as nat, 4) + LE(h.frames as nat, 4)
  }

  /** Bytes 28..37: type code, the three method ids and lz4 acceleration. */
  function Codes(h: Header): (r: seq<byte>)
    ensures |r| == 10
    ensures r[0..2] == LE(h.typeCode as nat, 2) && r[2..4] == LE(h.differenceMethod as nat, 2)
    ensures r[4..6] == LE(h.reorderMethod as nat, 2) && r[6..8] == LE(h.compressMethod as nat, 2)
    ensures r[8..10] == LE(h.lz4Acceleration as nat, 2)
  {
    LE(h.typeCode as nat, 2) + LE(h.differenceMethod as nat, 2) + LE(h.reorderMethod as nat, 2)
      + LE(h.compressMethod as nat, 2) + LE(h.lz4Acceleration as nat, 2)
  }

  /** Bytes 38..47: a reserved u16 and a reserved u64, both 0. */
  function Reserved(): (r: seq<byte>)
    ensures |r| == 10 && forall i :: 0 <= i < 10 ==> r[i] == 0
  {
    FromLEOfLE(0, 2);
    FromLEOfLE(0, 8);
    FromLEZero(LE(0, 2));
    FromLEZero(LE(0, 8));
    LE(0, 2) + LE(0, 8)
  }

  /** The 48 bytes of a header record. */
  function Encode(h: Header): (r: seq<byte>)
    ensures |r| == HEADER_SIZE as int
    ensures r[..4] == MAGIC
    ensures forall i :: 38 <= i < 48 ==> r[i] == 0
  {
    var r := Preamble(h) + Shape(h) + Codes(h) + Reserved();
    assert r[..4] == Preamble(h)[..4];
    r
  }

  /** The u32 stored at offset off. */
  function U32At(s: seq<byte>, off: nat): u32
    requires off + 4 <= |s|
  {
    Pow256Widths();
    FromLE(s[off..off + 4]) as u32
  }

  /** The u16 stored at offset off. */
  function U16At(s: seq<byte>, off: nat): u16
    requires off + 2 <= |s|
  {
    Pow256Widths();
    FromLE(s[off..off + 2]) as u16
  }

  /**
   * The record read from the first 48 bytes. Only the magic is checked: the version is not
   * compared with VERSION and the reserved bytes are not read.
   */
  function Decode(s: seq<byte>): (r: Result<Header>)
    requires |s| >= HEADER_SIZE as int
    ensures r.Success? <==> s[..4] == MAGIC
    ensures r.Failure? ==> r.error == BadHeader
  {
    if s[..4] != MAGIC then Failure(BadHeader)
    else Success(Header(U32At(s, 4), U32At(s, 8), U32At(s, 12), U32At(s, 16), U32At(s, 20), U32At(s, 24),
                        U16At(s, 28), U16At(s, 30), U16At(s, 32), U16At(s, 34), U16At(s, 36)))
  }

  /** What xrif_read_header does to a handle with a parsed record; data_size is derived again. */
  function ApplyHeader(v: HandleValue, h: Header): (r: HandleValue)
    ensures SizeMatchesType(r)
    ensures SameSession(v, r)
    ensures forall role :: BindingOf(r, role) == BindingOf(v, role)
  {
    v.(width := h.width, height := h.height, depth := h.depth, frames := h.frames,
       typeCode := h.typeCode as int, dataSize := TypeSize(h.typeCode as int),
       differenceMethod := h.differenceMethod as int, reorderMethod := h.reorderMethod as int,
       compressMethod := h.compressMethod as int, lz4Acceleration := h.lz4Acceleration as int)
  }

  lemma U32RoundTrip(x: u32)
    ensures FromLE(LE(x as nat, 4)) as int == x as int
  {
    Pow256Widths();
    FromLEOfLE(x as nat, 4);
  }

  lemma U16RoundTrip(x: u16)
    ensures FromLE(LE(x as nat, 2)) as int == x as int
  {
    Pow256Widths();
    FromLEOfLE(x as nat, 2);
  }

  /** A u32 field stored little-endian reads back as itself. */
  lemma U32AtLE(s: seq<byte>, off: nat, x: u32)
    requires off + 4 <= |s| && s[off..off + 4] == LE(x as nat, 4)
    ensures U32At(s, off) == x
  {
    U32RoundTrip(x);
  }

  /** A u16 field stored little-endian reads back as itself. */
  lemma U16AtLE(s: seq<byte>, off: nat, x: u16)
    requires off + 2 <= |s| && s[off..off + 2] == LE(x as nat, 2)
    ensures U16At(s, off) == x
  {
    U16RoundTrip(x);
  }

  /** Where each group sits in an encoded header. */
  lemma EncodeGroups(h: Header)
    ensures Encode(h)[..12] == Preamble(h) && Encode(h)[12..28] == Shape(h)
    ensures Encode(h)[28..38] == Codes(h) && Encode(h)[38..48] == Reserved()
  {
    Concat4(Preamble(h), Shape(h), Codes(h), Reserved());
  }

  lemma PreambleOfEncoded(h: Header)
    ensures Encode(h)[..4] == MAGIC
    ensures U32At(Encode(h), 4) == h.version && U32At(Encode(h), 8) == h.headerSize
  {
    var e := Encode(h);
    EncodeGroups(h);
    SliceOfSlice(e, 0, 12, 4, 8);
    SliceOfSlice(e, 0, 12, 8, 12);
    U32AtLE(e, 4, h.version);
    U32AtLE(e, 8, h.headerSize);
  }

  lemma ShapeOfEncoded(h: Header)
    ensures U32At(Encode(h), 12) == h.width && U32At(Encode(h), 16) == h.height
    ensures U32At(Encode(h), 20) == h.depth && U32At(Encode(h), 24) == h.frames
  {
    var e := Encode(h);
    EncodeGroups(h);
    SliceOfSlice(e, 12, 28, 0, 4);
    SliceOfSlice(e, 12, 28, 4, 8);
    SliceOfSlice(e, 12, 28, 8, 12);
    SliceOfSlice(e, 12, 28, 12, 16);
    U32AtLE(e, 12, h.width);
    U32AtLE(e, 16, h.height);
    U32AtLE(e, 20, h.depth);
    U32AtLE(e, 24, h.frames);
  }

  lemma CodesOfEncoded(h: Header)
    ensures U16At(Encode(h), 28) == h.typeCode && U16At(Encode(h), 30) == h.differenceMethod
    ensures U16At(Encode(h), 32) == h.reorderMethod && U16At(Encode(h), 34) == h.compressMethod
    ensures U16At(Encode(h), 36) == h.lz4Acceleration
  {
    var e := Encode(h);
    EncodeGroups(h);
    SliceOfSlice(e, 28, 38, 0, 2);
    SliceOfSlice(e, 28, 38, 2, 4);
    SliceOfSlice(e, 28, 38, 4, 6);
    SliceOfSlice(e, 28, 38, 6, 8);
    SliceOfSlice(e, 28, 38, 8, 10);
    U16AtLE(e, 28, h.typeCode);
    U16AtLE(e, 30, h.differenceMethod);
    U16AtLE(e, 32, h.reorderMethod);
    U16AtLE(e, 34, h.compressMethod);
    U16AtLE(e, 36, h.lz4Acceleration);
  }

  /** Parsing an encoded record gives the record back. */
  lemma DecodeEncode(h: Header)
    ensures Decode(Encode(h)) == Success(h)
  {
    PreambleOfEncoded(h);
    ShapeOfEncoded(h);
    CodesOfEncoded(h);
  }

  /** The layout: each field of the record is the little-endian integer at its offset; both reserved fields read 0. */
  lemma EncodeFieldOffsets(h: Header)
    ensures var e := Encode(h);
      && e[..4] == MAGIC
      && FromLE(e[4..8]) == h.version as nat && FromLE(e[8..12]) == h.headerSize as nat
      && FromLE(e[12..16]) == h.width as nat && FromLE(e[16..20]) == h.height as nat
      && FromLE(e[20..24]) == h.depth as nat && FromLE(e[24..28]) == h.frames as nat
      && FromLE(e[28..30]) == h.typeCode as nat && FromLE(e[30..32]) == h.differenceMethod as nat
      && FromLE(e[32..34]) == h.reorderMethod as nat && FromLE(e[34..36]) == h.compressMethod as nat
      && FromLE(e[36..38]) == h.lz4Acceleration as nat
      && FromLE(e[38..40]) == 0 && FromLE(e[40..48]) == 0
  {
    var e := Encode(h);
    DecodeEncode(h);
    FromLEZero(e[38..40]);
    FromLEZero(e[40..48]);
  }

  /** Bytes 38..47 are all zero, as every written header has them. */
  predicate ReservedZero(s: seq<byte>)
    requires |s| >= HEADER_SIZE as int
  {
    forall i :: 38 <= i < 48 ==> s[i] == 0
  }

  /**
   * The converse round trip: a record that parses, with zero reserved bytes, is exactly what
   * encoding the parsed record writes. No two distinct headers parse to the same record.
   */
  lemma EncodeDecode(s: seq<byte>)
    requires |s| >= HEADER_SIZE as int && ReservedZero(s)
    requires Decode(s).Success?
    ensures Encode(Decode(s).value) == s[..HEADER_SIZE]
  {
    EncodeOfDecoded(s, Decode(s).value);
  }

  lemma EncodeOfDecoded(s: seq<byte>, h: Header)
    requires |s| >= HEADER_SIZE as int && ReservedZero(s) && Decode(s) == Success(h)
    ensures Encode(h) == s[..HEADER_SIZE]
  {
    PreambleOfDecoded(s, h);
    ShapeOfDecoded(s, h);
    CodesOfDecoded(s, h);
    ReservedOfZero(s);
    SplitHeader(s);
  }

  /** The four groups of a header, in order. */
  lemma SplitHeader(s: seq<byte>)
    requires |s| >= HEADER_SIZE as int
    ensures s[..48] == s[..12] + s[12..28] + s[28..38] + s[38..48]
  {
    SliceSplit(s, 0, 38, 48);
    SliceSplit(s, 0, 28, 38);
    SliceSplit(s, 0, 12, 28);
  }

  lemma PreambleOfDecoded(s: seq<byte>, h: Header)
    requires |s| >= HEADER_SIZE as int && Decode(s) == Success(h)
    ensures Preamble(h) == s[..12]
  {
    LEOfFromLE(s[4..8]);
    LEOfFromLE(s[8..12]);
    SliceSplit(s, 0, 8, 12);
    SliceSplit(s, 0, 4, 8);
  }

  lemma ShapeOfDecoded(s: seq<byte>, h: Header)
    requires |s| >= HEADER_SIZE as int && Decode(s) == Success(h)
    ensures Shape(h) == s[12..28]
  {
    LEOfFromLE(s[12..16]);
    LEOfFromLE(s[16..20]);
    LEOfFromLE(s[20..24]);
    LEOfFromLE(s[24..28]);
    SliceSplit(s, 12, 24, 28);
    SliceSplit(s, 12, 20, 24);
    SliceSplit(s, 12, 16, 20);
  }

  lemma CodesOfDecoded(s: seq<byte>, h: Header)
    requires |s| >= HEADER_SIZE as int && Decode(s) == Success(h)
    ensures Codes(h) == s[28..38]
  {
    LEOfFromLE(s[28..30]);
    LEOfFromLE(s[30..32]);
    LEOfFromLE(s[32..34]);
    LEOfFromLE(s[34..36]);
    LEOfFromLE(s[36..38]);
    SliceSplit(s, 28, 36, 38);
    SliceSplit(s, 28, 34, 36);
    SliceSplit(s, 28, 32, 34);
    SliceSplit(s, 28, 30, 32);
  }

  lemma ReservedOfZero(s: seq<byte>)
    requires |s| >= HEADER_SIZE as int && ReservedZero(s)
    ensures Reserved() == s[38..48]
  {
  }

  /**
   * Writing a configured handle's header and reading it into any handle copies the shape, the
   * sample type, data_size, the three method ids and lz4_acceleration, reports a header size of
   * HEADER_SIZE, and leaves compressed_size, the OpenMP fields, compress_on_raw and every buffer
   * binding of the reading handle as they were.
   */
  lemma {:induction false} HeaderRoundTrip(v: HandleValue, w: HandleValue)
    requires SizeMatchesType(v)
    requires FitsU16(v.typeCode) && FitsU16(v.differenceMethod) && FitsU16(v.reorderMethod)
    requires FitsU16(v.compressMethod) && FitsU16(v.lz4Acceleration)
    ensures Decode(Encode(RecordOf(v))).Success?
    ensures Decode(Encode(RecordOf(v))).value.headerSize == HEADER_SIZE
    ensures var r := ApplyHeader(w, Decode(Encode(RecordOf(v))).value);
      && SameShape(r, v) && SamePipeline(r, v) && SameSession(r, w)
      && forall role :: BindingOf(r, role) == BindingOf(w, role)
  {
    DecodeEncode(RecordOf(v));
  }

  /** A header whose type code or a tuning field does not fit in 16 bits comes back wrapped. */
  lemma HeaderWrapsWideFields(v: HandleValue)
    ensures var h := Decode(Encode(RecordOf(v))).value;
      && h.typeCode as int == v.typeCode % 0x1_0000
      && h.lz4Acceleration as int == v.lz4Acceleration % 0x1_0000
  {
    DecodeEncode(RecordOf(v));
  }
}
