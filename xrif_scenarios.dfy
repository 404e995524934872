/**
 * The call sequences of the xrif initialization and header suites, replayed on the model.
 * Each method returns the codes the library returns and what the suite then inspects; its
 * postcondition is what the suite expects, derived from the operation contracts alone.
 */
module XrifScenarios {
  import opened Bytes
  import opened Lz4Bound
  import opened XrifTypes
  import opened XrifState
  import opened XrifHeader
  import opened XrifHandle

  /** 120 x 120 x 3 x 120 samples of 2 bytes: 10,368,000 bytes. */
  const CUBE_BYTES: nat := 120 * 120 * 3 * 120 * 2

  /** initialize_handle_noerror: every field at its default. */
  method InitializeHandleNoError() returns (rv: Error, v: HandleValue)
    ensures rv == NoError
    ensures v.width == v.height == v.depth == v.frames == 0
    ensures v.typeCode == 0 && v.dataSize == 0 && v.compressedSize == 0
    ensures v.differenceMethod == DIFFERENCE_DEFAULT as int && v.reorderMethod == REORDER_DEFAULT as int
    ensures v.compressMethod == COMPRESS_DEFAULT as int
    ensures v.lz4Acceleration == 1 && !v.ompParallel && v.ompNumThreads == 1 && v.compressOnRaw
    ensures v.raw == v.reordered == v.compressed == Binding(Null, 0, false)
  {
    var hand := new Handle.Declare();
    rv := Initialize(hand);
    v := hand.Value();
    assert BindingOf(v, Raw) == BindingOf(v, Reordered) == BindingOf(v, Compressed) == Unbound;
  }

  /** initialize_handle_nullptr and setup_nullptr: a NULL handle. */
  method InitializeHandleNullPtr() returns (rv: Error)
    ensures rv == NullPtr
  {
    rv := Initialize(null);
  }

  /** setup_noerror: the shape and type change, nothing else does. */
  method SetupNoError() returns (init: Error, rv: Error, v: HandleValue)
    ensures init == NoError && rv == NoError
    ensures v.width == 1024 && v.height == 64 && v.depth == 32 && v.frames == 1000
    ensures v.typeCode == TYPECODE_INT16 as int && v.dataSize == 2
    ensures SameSession(v, Initial()) && SamePipeline(v, Initial())
    ensures v.raw == v.reordered == v.compressed == Binding(Null, 0, false)
  {
    var hand := new Handle.Declare();
    init := Initialize(hand);
    rv := Setup(hand, 1024, 64, 32, 1000, TYPECODE_INT16 as int);
    v := hand.Value();
    assert BindingOf(v, Raw) == BindingOf(v, Reordered) == BindingOf(v, Compressed) == Unbound;
  }

  /**
   * A handle initialized and set up for the 120 x 120 x 3 x 120 cube of 16-bit samples, with
   * the codes of the two calls.
   */
  method CubeHandle() returns (hand: Handle, init: Error, setup: Error)
    ensures init == NoError && setup == NoError
    ensures fresh(hand)
    ensures hand.Value() == Configure(Initial(), 120, 120, 3, 120, TYPECODE_INT16 as int)
    ensures RawLength(hand.Value()) == CUBE_BYTES
  {
    hand := new Handle.Declare();
    init := Initialize(hand);
    setup := Setup(hand, 120, 120, 3, 120, TYPECODE_INT16 as int);
  }

  /**
   * set_raw_noerrors: the exact cube length binds the raw role with compress_on_raw off,
   * the LZ4 bound of it with compress_on_raw on; both times the buffer is borrowed.
   */
  method SetRawNoErrors(buff: Ptr) returns (init: Error, setup: Error, rv1: Error, b1: Binding, rv2: Error, b2: Binding)
    requires buff != Null
    ensures init == NoError && setup == NoError
    ensures rv1 == NoError && b1 == Binding(buff, CUBE_BYTES, false)
    ensures rv2 == NoError && b2 == Binding(buff, CompressBound(CUBE_BYTES), false)
  {
    var hand;
    hand, init, setup := CubeHandle();
    hand.compressOnRaw := false;
    rv1 := SetRaw(hand, buff, CUBE_BYTES);
    b1 := hand.Value().raw;
    hand.compressOnRaw := true;
    rv2 := SetRaw(hand, buff, CompressBound(CUBE_BYTES));
    b2 := hand.Value().raw;
  }

  /** set_raw_errors, up to the size mismatches: a NULL handle, then a buffer without a size and a size without a buffer. */
  method SetRawErrors() returns (rv0: Error, init: Error, setup: Error, rv1: Error, rv2: Error)
    ensures rv0 == NullPtr && init == NoError && setup == NoError
    ensures rv1 == InvalidSize && rv2 == InvalidSize
  {
    rv0 := SetRaw(null, Null, 0);
    var hand;
    hand, init, setup := CubeHandle();
    rv1 := SetRaw(hand, Addr(10), 0);
    rv2 := SetRaw(hand, Null, 10);
  }

  /** set_reordered_noerrors: the exact cube length binds the reordered role, borrowed. */
  method SetReorderedNoErrors(buff: Ptr) returns (init: Error, setup: Error, rv: Error, b: Binding)
    requires buff != Null
    ensures init == NoError && setup == NoError
    ensures rv == NoError && b == Binding(buff, CUBE_BYTES, false)
  {
    var hand;
    hand, init, setup := CubeHandle();
    rv := SetReordered(hand, buff, CUBE_BYTES);
    b := hand.Value().reordered;
  }

  /** set_reordered_errors: a NULL handle, then a buffer without a size and a size without a buffer. */
  method SetReorderedErrors() returns (rv0: Error, init: Error, setup: Error, rv1: Error, rv2: Error)
    ensures rv0 == NullPtr && init == NoError && setup == NoError
    ensures rv1 == InvalidSize && rv2 == InvalidSize
  {
    rv0 := SetReordered(null, Null, 0);
    var hand;
    hand, init, setup := CubeHandle();
    rv1 := SetReordered(hand, Addr(10), 0);
    rv2 := SetReordered(hand, Null, 10);
  }

  /** set_compressed_noerrors: the LZ4 bound of the cube length binds the compressed role, borrowed. */
  method SetCompressedNoErrors(buff: Ptr) returns (init: Error, setup: Error, rv: Error, b: Binding)
    requires buff != Null
    ensures init == NoError && setup == NoError
    ensures rv == NoError && b == Binding(buff, CompressBound(CUBE_BYTES), false)
  {
    var hand;
    hand, init, setup := CubeHandle();
    rv := SetCompressed(hand, buff, CompressBound(CUBE_BYTES));
    b := hand.Value().compressed;
  }

  /** set_compressed_errors: the mismatches, then 1024 bytes where the LZ4 bound is needed. */
  method SetCompressedErrors() returns (rv0: Error, init: Error, setup: Error, rv1: Error, rv2: Error, rv3: Error)
    ensures rv0 == NullPtr && init == NoError && setup == NoError
    ensures rv1 == InvalidSize && rv2 == InvalidSize && rv3 == InsufficientSize
  {
    rv0 := SetCompressed(null, Null, 0);
    var hand;
    hand, init, setup := CubeHandle();
    rv1 := SetCompressed(hand, Addr(10), 0);
    rv2 := SetCompressed(hand, Null, 10);
    rv3 := SetCompressed(hand, Addr(10), 1024);
  }

  /** The calls of header_write: a handle set up for 120 x 120 x 1 x 1000 16-bit samples, written out. */
  method WriteCube() returns (init: Error, setup: Error, rv: Error, bytes: seq<byte>, ghost hd: Header)
    ensures init == NoError && setup == NoError && rv == NoError
    ensures hd == RecordOf(Configure(Initial(), 120, 120, 1, 1000, TYPECODE_INT16 as int))
    ensures bytes == Encode(hd)
  {
    var hand := new Handle.Declare();
    init := Initialize(hand);
    setup := Setup(hand, 120, 120, 1, 1000, TYPECODE_INT16 as int);
    var header := new byte[HEADER_SIZE];
    rv := WriteHeader(header, hand);
    bytes := header[..HEADER_SIZE];
    hd := RecordOf(hand.Value());
  }

  /** header_write: the magic, the version and size, and every field at its offset. */
  method HeaderWrite() returns (init: Error, setup: Error, rv: Error, bytes: seq<byte>)
    ensures init == NoError && setup == NoError
    ensures rv == NoError && |bytes| == HEADER_SIZE as int
    ensures bytes[..4] == MAGIC
    ensures FromLE(bytes[4..8]) == VERSION as nat && FromLE(bytes[8..12]) == HEADER_SIZE as nat
    ensures FromLE(bytes[12..16]) == 120 && FromLE(bytes[16..20]) == 120
    ensures FromLE(bytes[20..24]) == 1 && FromLE(bytes[24..28]) == 1000
    ensures FromLE(bytes[28..30]) == TYPECODE_INT16 as nat
    ensures FromLE(bytes[30..32]) == DIFFERENCE_DEFAULT as nat
    ensures FromLE(bytes[32..34]) == REORDER_DEFAULT as nat
    ensures FromLE(bytes[34..36]) == COMPRESS_DEFAULT as nat
    ensures FromLE(bytes[36..38]) == 1
    ensures FromLE(bytes[38..40]) == 0 && FromLE(bytes[40..48]) == 0
  {
    ghost var hd;
    init, setup, rv, bytes, hd := WriteCube();
    EncodeFieldOffsets(hd);
  }

  /**
   * The writing half of header_read: a handle set up for 120 x 240 x 2 x 1000 16-bit samples,
   * with lz4_acceleration raised to 10, written to a fresh header array.
   */
  method WriteReadCube() returns (init: Error, setup: Error, write: Error, header: array<byte>, ghost v: HandleValue)
    ensures init == NoError && setup == NoError && write == NoError
    ensures fresh(header) && header.Length == HEADER_SIZE as int
    ensures v == Configure(Initial(), 120, 240, 2, 1000, TYPECODE_INT16 as int).(lz4Acceleration := 10)
    ensures header[..HEADER_SIZE] == Encode(RecordOf(v))
  {
    var hand := new Handle.Declare();
    init := Initialize(hand);
    setup := Setup(hand, 120, 240, 2, 1000, TYPECODE_INT16 as int);
    hand.lz4Acceleration := 10;
    header := new byte[HEADER_SIZE];
    write := WriteHeader(header, hand);
    v := hand.Value();
  }

  /**
   * header_read: a header written from a set-up handle with lz4_acceleration 10, read into a
   * freshly initialized handle, restores shape, type and acceleration and leaves the rest at
   * the defaults.
   */
  method HeaderRead() returns (init: Error, setup: Error, write: Error, init2: Error, rv: Error, headerSize: u32, v: HandleValue)
    ensures init == NoError && setup == NoError && write == NoError && init2 == NoError
    ensures rv == NoError && headerSize == HEADER_SIZE
    ensures v.width == 120 && v.height == 240 && v.depth == 2 && v.frames == 1000
    ensures v.typeCode == TYPECODE_INT16 as int && v.dataSize == 2 && v.lz4Acceleration == 10
    ensures v.compressedSize == 0
    ensures v.differenceMethod == DIFFERENCE_DEFAULT as int && v.reorderMethod == REORDER_DEFAULT as int
    ensures v.compressMethod == COMPRESS_DEFAULT as int
    ensures !v.ompParallel && v.ompNumThreads == 1 && v.compressOnRaw
    ensures v.raw == v.reordered == v.compressed == Binding(Null, 0, false)
  {
    var header;
    ghost var written;
    init, setup, write, header, written := WriteReadCube();
    var hand2 := new Handle.Declare();
    init2 := Initialize(hand2);
    var size := new SizeCell.Declare();
    HeaderRoundTrip(written, hand2.Value());
    rv := ReadHeader(hand2, size, header);
    headerSize := size.value;
    v := hand2.Value();
    assert BindingOf(v, Raw) == BindingOf(v, Reordered) == BindingOf(v, Compressed) == Unbound;
  }
}
