/**
 * The xrif handle as the C library has it: a struct whose fields the API functions change in
 * place through a pointer that may be NULL. Each function is specified by the pure rule of
 * XrifState or XrifHeader it carries out.
 */
module XrifHandle {
  import opened Bytes
  import opened XrifTypes
  import opened XrifState
  import opened XrifHeader

  /** xrif_t: every field of the handle. */
  class Handle {
    var width: u32
    var height: u32
    var depth: u32
    var frames: u32
    var typeCode: int
    var dataSize: nat
    var compressedSize: nat
    var differenceMethod: int
    var reorderMethod: int
    var compressMethod: int
    var lz4Acceleration: int
    var ompParallel: bool
    var ompNumThreads: int
    var compressOnRaw: bool
    var rawBuffer: Ptr
    var rawBufferSize: nat
    var ownRaw: bool
    var reorderedBuffer: Ptr
    var reorderedBufferSize: nat
    var ownReordered: bool
    var compressedBuffer: Ptr
    var compressedBufferSize: nat
    var ownCompressed: bool

    /** A handle as declared on the stack: its fields hold whatever was there. */
    constructor Declare()
    {
    }

    /** The whole handle as a value. */
    function Value(): HandleValue
      reads this
    {
      HandleValue(width, height, depth, frames, typeCode, dataSize, compressedSize,
                  differenceMethod, reorderMethod, compressMethod,
                  lz4Acceleration, ompParallel, ompNumThreads, compressOnRaw,
                  Binding(rawBuffer, rawBufferSize, ownRaw),
                  Binding(reorderedBuffer, reorderedBufferSize, ownReordered),
                  Binding(compressedBuffer, compressedBufferSize, ownCompressed))
    }

    /** Shape, type and the sizes derived from them to zero. */
    method ClearShape()
      modifies this`width, this`height, this`depth, this`frames, this`typeCode, this`dataSize, this`compressedSize
      ensures width == height == depth == frames == 0
      ensures typeCode == 0 && dataSize == 0 && compressedSize == 0
    {
      width, height, depth, frames := 0, 0, 0, 0;
      typeCode, dataSize, compressedSize := 0, 0, 0;
    }

    /** Pipeline selection and tuning to their defaults. */
    method DefaultPipeline()
      modifies this`differenceMethod, this`reorderMethod, this`compressMethod, this`lz4Acceleration
      modifies this`ompParallel, this`ompNumThreads, this`compressOnRaw
      ensures differenceMethod == DIFFERENCE_DEFAULT as int
      ensures reorderMethod == REORDER_DEFAULT as int
      ensures compressMethod == COMPRESS_DEFAULT as int
      ensures lz4Acceleration == 1 && !ompParallel && ompNumThreads == 1 && compressOnRaw
    {
      differenceMethod := DIFFERENCE_DEFAULT as int;
      reorderMethod := REORDER_DEFAULT as int;
      compressMethod := COMPRESS_DEFAULT as int;
      lz4Acceleration := 1;
      ompParallel := false;
      ompNumThreads := 1;
      compressOnRaw := true;
    }

    /** Shape and type, with data_size derived from the type. */
    method Reshape(width: u32, height: u32, depth: u32, frames: u32, typeCode: int)
      modifies this`width, this`height, this`depth, this`frames, this`typeCode, this`dataSize
      ensures this.width == width && this.height == height && this.depth == depth && this.frames == frames
      ensures this.typeCode == typeCode && dataSize == TypeSize(typeCode)
    {
      this.width, this.height, this.depth, this.frames := width, height, depth, frames;
      this.typeCode := typeCode;
      dataSize := TypeSize(typeCode);
    }

    /** The three method ids and lz4_acceleration. */
    method SelectPipeline(differenceMethod: int, reorderMethod: int, compressMethod: int, lz4Acceleration: int)
      modifies this`differenceMethod, this`reorderMethod, this`compressMethod, this`lz4Acceleration
      ensures this.differenceMethod == differenceMethod && this.reorderMethod == reorderMethod
      ensures this.compressMethod == compressMethod && this.lz4Acceleration == lz4Acceleration
    {
      this.differenceMethod, this.reorderMethod := differenceMethod, reorderMethod;
      this.compressMethod, this.lz4Acceleration := compressMethod, lz4Acceleration;
    }

    /** Every field but the three bindings to its default. */
    method ResetConfiguration()
      modifies this`width, this`height, this`depth, this`frames, this`typeCode, this`dataSize, this`compressedSize
      modifies this`differenceMethod, this`reorderMethod, this`compressMethod, this`lz4Acceleration
      modifies this`ompParallel, this`ompNumThreads, this`compressOnRaw
      ensures Value() == Initial().(raw := old(Value()).raw, reordered := old(Value()).reordered,
                                    compressed := old(Value()).compressed)
    {
      ClearShape();
      DefaultPipeline();
    }

    /** The three bindings to NULL, size 0, not owned. */
    method ResetBindings()
      modifies this`rawBuffer, this`rawBufferSize, this`ownRaw
      modifies this`reorderedBuffer, this`reorderedBufferSize, this`ownReordered
      modifies this`compressedBuffer, this`compressedBufferSize, this`ownCompressed
      ensures Value() == old(Value()).(raw := Unbound, reordered := Unbound, compressed := Unbound)
    {
      RecordRaw(Unbound);
      RecordReordered(Unbound);
      RecordCompressed(Unbound);
    }

    /** xrif_initialize_handle on this handle: every field to its default. */
    method Reset()
      modifies this
      ensures Value() == Initial()
    {
      ResetConfiguration();
      ResetBindings();
    }

    /** xrif_setup on this handle: the new value is Configure of the old one. */
    method Reconfigure(width: u32, height: u32, depth: u32, frames: u32, typeCode: int)
      modifies this`width, this`height, this`depth, this`frames, this`typeCode, this`dataSize
      ensures Value() == Configure(old(Value()), width, height, depth, frames, typeCode)
    {
      Reshape(width, height, depth, frames, typeCode);
    }

    /** The pipeline selection and tuning replaced, every other field kept. */
    method Retune(differenceMethod: int, reorderMethod: int, compressMethod: int, lz4Acceleration: int)
      modifies this`differenceMethod, this`reorderMethod, this`compressMethod, this`lz4Acceleration
      ensures Value() == old(Value()).(differenceMethod := differenceMethod, reorderMethod := reorderMethod,
                                       compressMethod := compressMethod, lz4Acceleration := lz4Acceleration)
    {
      SelectPipeline(differenceMethod, reorderMethod, compressMethod, lz4Acceleration);
    }

    /** Shape, type and pipeline fields taken from a header record. */
    method Apply(hd: Header)
      modifies this`width, this`height, this`depth, this`frames, this`typeCode, this`dataSize
      modifies this`differenceMethod, this`reorderMethod, this`compressMethod, this`lz4Acceleration
      ensures Value() == ApplyHeader(old(Value()), hd)
    {
      Reconfigure(hd.width, hd.height, hd.depth, hd.frames, hd.typeCode as int);
      Retune(hd.differenceMethod as int, hd.reorderMethod as int, hd.compressMethod as int, hd.lz4Acceleration as int);
    }

    method RecordRaw(b: Binding)
      modifies this`rawBuffer, this`rawBufferSize, this`ownRaw
      ensures Value() == old(Value()).(raw := b)
    {
      rawBuffer, rawBufferSize, ownRaw := b.buffer, b.size, b.owned;
    }

    method RecordReordered(b: Binding)
      modifies this`reorderedBuffer, this`reorderedBufferSize, this`ownReordered
      ensures Value() == old(Value()).(reordered := b)
    {
      reorderedBuffer, reorderedBufferSize, ownReordered := b.buffer, b.size, b.owned;
    }

    method RecordCompressed(b: Binding)
      modifies this`compressedBuffer, this`compressedBufferSize, this`ownCompressed
      ensures Value() == old(Value()).(compressed := b)
    {
      compressedBuffer, compressedBufferSize, ownCompressed := b.buffer, b.size, b.owned;
    }
  }

  /** The uint32_t that xrif_read_header reports the header size through. */
  class SizeCell {
    var value: u32

    constructor Declare()
    {
    }
  }

  /** xrif_initialize_handle: every field to its default. */
  method Initialize(h: Handle?) returns (rv: Error)
    modifies h
    ensures h == null <==> rv == NullPtr
    ensures h != null ==> rv == NoError && h.Value() == Initial()
  {
    if h == null {
      return NullPtr;
    }
    h.Reset();
    return NoError;
  }

  /** xrif_setup: shape and type, with data_size derived from the type. */
  method Setup(h: Handle?, width: u32, height: u32, depth: u32, frames: u32, typeCode: int) returns (rv: Error)
    modifies h
    ensures h == null <==> rv == NullPtr
    ensures h != null ==> rv == NoError && h.Value() == Configure(old(h.Value()), width, height, depth, frames, typeCode)
  {
    if h == null {
      return NullPtr;
    }
    h.Reconfigure(width, height, depth, frames, typeCode);
    return NoError;
  }

  /** xrif_set_raw: bind caller memory to the raw role. */
  method SetRaw(h: Handle?, buffer: Ptr, size: nat) returns (rv: Error)
    modifies h
    ensures h == null ==> rv == NullPtr
    ensures h != null ==> (rv, h.Value()) == Bind(old(h.Value()), Raw, buffer, size)
  {
    if h == null {
      return NullPtr;
    }
    if (buffer != Null && size == 0) || (buffer == Null && size != 0) {
      return InvalidSize;
    }
    h.RecordRaw(Binding(buffer, size, false));
    rv := if size < MinSize(h.Value(), Raw) then InsufficientSize else NoError;
  }

  /** xrif_set_reordered: bind caller memory to the reordered role. */
  method SetReordered(h: Handle?, buffer: Ptr, size: nat) returns (rv: Error)
    modifies h
    ensures h == null ==> rv == NullPtr
    ensures h != null ==> (rv, h.Value()) == Bind(old(h.Value()), Reordered, buffer, size)
  {
    if h == null {
      return NullPtr;
    }
    if (buffer != Null && size == 0) || (buffer == Null && size != 0) {
      return InvalidSize;
    }
    h.RecordReordered(Binding(buffer, size, false));
    rv := if size < MinSize(h.Value(), Reordered) then InsufficientSize else NoError;
  }

  /** xrif_set_compressed: bind caller memory to the compressed role. */
  method SetCompressed(h: Handle?, buffer: Ptr, size: nat) returns (rv: Error)
    modifies h
    ensures h == null ==> rv == NullPtr
    ensures h != null ==> (rv, h.Value()) == Bind(old(h.Value()), Compressed, buffer, size)
  {
    if h == null {
      return NullPtr;
    }
    if (buffer != Null && size == 0) || (buffer == Null && size != 0) {
      return InvalidSize;
    }
    h.RecordCompressed(Binding(buffer, size, false));
    rv := if size < MinSize(h.Value(), Compressed) then InsufficientSize else NoError;
  }

  /** Store x as an n-byte little-endian unsigned integer at a[off..off+n]. */
  method PutLE(a: array<byte>, off: nat, n: nat, x: nat)
    requires off + n <= a.Length
    modifies a
    ensures a[off..off + n] == LE(x, n)
    ensures forall j :: 0 <= j < a.Length && !(off <= j < off + n) ==> a[j] == old(a[j])
  {
    var v, i := x, 0;
    while i < n
      invariant 0 <= i <= n
      invariant LE(x, n) == a[off..off + i] + LE(v, n - i)
      invariant forall j :: 0 <= j < a.Length && !(off <= j < off + i) ==> a[j] == old(a[j])
    {
      a[off + i] := v % 256;
      v, i := v / 256, i + 1;
    }
  }

  /** Load the n-byte little-endian unsigned integer at a[off..off+n]. */
  method GetLE(a: array<byte>, off: nat, n: nat) returns (x: nat)
    requires off + n <= a.Length
    ensures x == FromLE(a[off..off + n])
  {
    x := 0;
    var i := n;
    while i > 0
      invariant 0 <= i <= n
      invariant x == FromLE(a[off + i..off + n])
    {
      i := i - 1;
      assert a[off + i..off + n][1..] == a[off + i + 1..off + n];
      x := a[off + i] + 256 * x;
    }
  }

  /** Store bytes 0..11: the magic, the version and the header size. */
  method StorePreamble(header: array<byte>, hd: Header)
    requires header.Length >= HEADER_SIZE as int
    modifies header
    ensures header[..12] == Preamble(hd)
    ensures forall j :: 12 <= j < header.Length ==> header[j] == old(header[j])
  {
    header[0], header[1], header[2], header[3] := 'x' as int, 'r' as int, 'i' as int, 'f' as int;
    PutLE(header, 4, 4, hd.version as nat);
    ghost var version := header[4..8];
    PutLE(header, 8, 4, hd.headerSize as nat);
    assert header[..4] == MAGIC;
    assert header[4..8] == version;
    SliceSplit(header[..], 0, 8, 12);
    SliceSplit(header[..], 0, 4, 8);
    SliceSplit(Preamble(hd), 0, 8, 12);
    SliceSplit(Preamble(hd), 0, 4, 8);
  }

  /** Store bytes 12..27: width, height, depth and frames. */
  method StoreShape(header: array<byte>, hd: Header)
    requires header.Length >= HEADER_SIZE as int
    modifies header
    ensures header[12..28] == Shape(hd)
    ensures forall j :: 0 <= j < header.Length && !(12 <= j < 28) ==> header[j] == old(header[j])
  {
    PutLE(header, 12, 4, hd.width as nat);
    ghost var width := header[12..16];
    PutLE(header, 16, 4, hd.height as nat);
    ghost var height := header[16..20];
    PutLE(header, 20, 4, hd.depth as nat);
    ghost var depth := header[20..24];
    PutLE(header, 24, 4, hd.frames as nat);
    assert header[12..16] == width && header[16..20] == height && header[20..24] == depth;
    SliceSplit(header[..], 12, 24, 28);
    SliceSplit(header[..], 12, 20, 24);
    SliceSplit(header[..], 12, 16, 20);
    SliceSplit(Shape(hd), 0, 12, 16);
    SliceSplit(Shape(hd), 0, 8, 12);
    SliceSplit(Shape(hd), 0, 4, 8);
  }

  /** Store bytes 28..37: type code, the three method ids and lz4 acceleration. */
  method StoreCodes(header: array<byte>, hd: Header)
    requires header.Length >= HEADER_SIZE as int
    modifies header
    ensures header[28..38] == Codes(hd)
    ensures forall j :: 0 <= j < header.Length && !(28 <= j < 38) ==> header[j] == old(header[j])
  {
    PutLE(header, 28, 2, hd.typeCode as nat);
    ghost var typeCode := header[28..30];
    PutLE(header, 30, 2, hd.differenceMethod as nat);
    ghost var difference := header[30..32];
    PutLE(header, 32, 2, hd.reorderMethod as nat);
    ghost var reorder := header[32..34];
    PutLE(header, 34, 2, hd.compressMethod as nat);
    ghost var compress := header[34..36];
    PutLE(header, 36, 2, hd.lz4Acceleration as nat);
    assert header[28..30] == typeCode && header[30..32] == difference;
    assert header[32..34] == reorder && header[34..36] == compress;
    SliceSplit(header[..], 28, 36, 38);
    SliceSplit(header[..], 28, 34, 36);
    SliceSplit(header[..], 28, 32, 34);
    SliceSplit(header[..], 28, 30, 32);
    SliceSplit(Codes(hd), 0, 8, 10);
    SliceSplit(Codes(hd), 0, 6, 8);
    SliceSplit(Codes(hd), 0, 4, 6);
    SliceSplit(Codes(hd), 0, 2, 4);
  }

  /** Store bytes 38..47: the reserved u16 and u64, as zeros. */
  method StoreReserved(header: array<byte>)
    requires header.Length >= HEADER_SIZE as int
    modifies header
    ensures header[38..48] == Reserved()
    ensures forall j :: 0 <= j < header.Length && !(38 <= j < 48) ==> header[j] == old(header[j])
  {
    PutLE(header, 38, 2, 0);
    ghost var low := header[38..40];
    PutLE(header, 40, 8, 0);
    assert header[38..40] == low;
    SliceSplit(header[..], 38, 40, 48);
  }

  /** Store the whole record in header[..HEADER_SIZE], group by group. */
  method StoreHeader(header: array<byte>, hd: Header)
    requires header.Length >= HEADER_SIZE as int
    modifies header
    ensures header[..HEADER_SIZE] == Encode(hd)
    ensures forall j :: HEADER_SIZE as int <= j < header.Length ==> header[j] == old(header[j])
  {
    StorePreamble(header, hd);
    ghost var preamble := header[..12];
    StoreShape(header, hd);
    ghost var shape := header[12..28];
    StoreCodes(header, hd);
    ghost var codes := header[28..38];
    StoreReserved(header);
    assert header[..12] == preamble && header[12..28] == shape && header[28..38] == codes;
    SliceSplit(header[..], 0, 38, 48);
    SliceSplit(header[..], 0, 28, 38);
    SliceSplit(header[..], 0, 12, 28);
    EncodeGroups(hd);
    Concat4(Preamble(hd), Shape(hd), Codes(hd), Reserved());
  }

  /** xrif_write_header: fill the caller's header array from the handle. */
  method WriteHeader(header: array?<byte>, h: Handle?) returns (rv: Error)
    requires header != null ==> header.Length >= HEADER_SIZE as int
    modifies header
    ensures header == null || h == null <==> rv == NullPtr
    ensures header != null && h == null ==> header[..] == old(header[..])
    ensures header != null && h != null ==>
      && rv == NoError
      && header[..HEADER_SIZE] == Encode(RecordOf(h.Value()))
      && header[HEADER_SIZE..] == old(header[HEADER_SIZE..])
  {
    if header == null || h == null {
      return NullPtr;
    }
    StoreHeader(header, RecordOf(h.Value()));
    return NoError;
  }

  /** The u32 at offset off of a header array. */
  method LoadU32(header: array<byte>, off: nat) returns (x: u32)
    requires off + 4 <= HEADER_SIZE as int <= header.Length
    ensures x == U32At(header[..HEADER_SIZE], off)
  {
    Pow256Widths();
    var n := GetLE(header, off, 4);
    assert header[..HEADER_SIZE][off..off + 4] == header[off..off + 4];
    x := n as u32;
  }

  /** The u16 at offset off of a header array. */
  method LoadU16(header: array<byte>, off: nat) returns (x: u16)
    requires off + 2 <= HEADER_SIZE as int <= header.Length
    ensures x == U16At(header[..HEADER_SIZE], off)
  {
    Pow256Widths();
    var n := GetLE(header, off, 2);
    assert header[..HEADER_SIZE][off..off + 2] == header[off..off + 2];
    x := n as u16;
  }

  /** Parse the first HEADER_SIZE bytes of a header array: the magic, then each field at its offset. */
  method LoadHeader(header: array<byte>) returns (r: Result<Header>)
    requires header.Length >= HEADER_SIZE as int
    ensures r == Decode(header[..HEADER_SIZE])
  {
    ghost var s := header[..HEADER_SIZE];
    if header[0] != 'x' as int || header[1] != 'r' as int || header[2] != 'i' as int || header[3] != 'f' as int {
      assert s[..4] != MAGIC by {
        assert s[..4][0] == header[0] && s[..4][1] == header[1] && s[..4][2] == header[2] && s[..4][3] == header[3];
      }
      return Failure(BadHeader);
    }
    assert s[..4] == MAGIC;
    var version := LoadU32(header, 4);
    var size := LoadU32(header, 8);
    var width := LoadU32(header, 12);
    var height := LoadU32(header, 16);
    var depth := LoadU32(header, 20);
    var frames := LoadU32(header, 24);
    var typeCode := LoadU16(header, 28);
    var difference := LoadU16(header, 30);
    var reorder := LoadU16(header, 32);
    var compress := LoadU16(header, 34);
    var acceleration := LoadU16(header, 36);
    r := Success(Header(version, size, width, height, depth, frames, typeCode, difference, reorder, compress, acceleration));
  }

  /** xrif_read_header: restore the handle's shape, type and pipeline fields from a header array. */
  method ReadHeader(h: Handle?, headerSize: SizeCell?, header: array?<byte>) returns (rv: Error)
    requires header != null ==> header.Length >= HEADER_SIZE as int
    modifies h, headerSize
    ensures h == null || headerSize == null || header == null <==> rv == NullPtr
    ensures rv == NullPtr ==>
      && (h != null ==> h.Value() == old(h.Value()))
      && (headerSize != null ==> headerSize.value == old(headerSize.value))
    ensures h != null && headerSize != null && header != null ==>
      match Decode(header[..HEADER_SIZE])
      case Failure(e) =>
        rv == e && h.Value() == old(h.Value()) && headerSize.value == old(headerSize.value)
      case Success(hd) =>
        rv == NoError && h.Value() == ApplyHeader(old(h.Value()), hd) && headerSize.value == hd.headerSize
  {
    if h == null || headerSize == null || header == null {
      return NullPtr;
    }
    var r := LoadHeader(header);
    if r.Failure? {
      return r.error;
    }
    var hd := r.value;
    headerSize.value := hd.headerSize;
    h.Apply(hd);
    return NoError;
  }
}
