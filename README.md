# xrif control plane in Dafny

xrif is a lossless codec for image cubes (width × height × depth × frames samples of one pixel
type). Its pipeline runs difference, reorder and LZ4 stages over three buffers. This project
models the part that ties the pipeline together:

- the handle `xrif_t` with all of its fields;
- `xrif_initialize_handle`, which resets every field to its default;
- `xrif_setup`, which sets the shape and the type and derives `data_size`;
- the three buffer setters `xrif_set_raw`, `xrif_set_reordered` and `xrif_set_compressed`, each
  with its size rule;
- the 48-byte header written by `xrif_write_header` and parsed by `xrif_read_header`.

The behaviour is fixed by the library's test suite, `tests/xrif_test_init.c`. The library's own
sources (`src/xrif.h`, `src/xrif.c`) are not part of this model.

Files:

- `bytes.dfy` (module `Bytes`): bytes, little-endian fixed-width integers, and their round trips.
- `lz4_bound.dfy` (module `Lz4Bound`): `LZ4_compressBound`.
- `xrif_types.dfy` (module `XrifTypes`): result codes, pointers, `u16`/`u32`, and the library constants.
- `xrif_state.dfy` (module `XrifState`): the handle as a value, plus the pure rules for
  initialization, setup and buffer binding, with lemmas about them.
- `xrif_header.dfy` (module `XrifHeader`): the header record, its byte layout, the parser, and the round trips.
- `xrif_handle.dfy` (module `XrifHandle`): the handle as a class with mutable fields, and the C
  API as methods. A method takes a `Handle?` where the C function takes a pointer that may be NULL.
  Each method is proved against the pure rule it carries out.
- `xrif_scenarios.dfy` (module `XrifScenarios`): each test of the suite, replayed on the methods.
  Each postcondition is what the test expects.

Modelling choices:

- Dimensions are `u32`, the width the header stores them in. Type code, method ids and
  `lz4_acceleration` are plain integers. When written to the header they are converted to u16
  explicitly, with C's unsigned wrap-around.
- Pointers are the abstract values `Null | Addr(n)`. A buffer's contents never matter here.
- The numeric values of `XRIF_VERSION`, of the three `*_DEFAULT` method ids, of
  `XRIF_TYPECODE_INT16`, and the byte widths of the other type codes are all defined in
  `src/xrif.h`. Here they are constants left unspecified, so every proof holds whatever their
  values are. The one value the tests pin down is that INT16 samples are 2 bytes.
  `XRIF_HEADER_SIZE` is 48: the last field is a u64 at offset 40.
- `LZ4_compressBound` is LZ4's published `n + n/255 + 16`.
- The result codes form a closed datatype; their numeric values are not modelled.

Points where the model states a behaviour that the tests do not pin down:

- When a setter rejects a size as too small, the buffer and size are still recorded, and
  ownership is set to borrowed. `Bind` states this as the library's documented behaviour. The
  one test that touches this case (`tests/xrif_test_init.c:178-199`) passes a NULL buffer with
  a nonzero size, so the presence check rejects that call with INVALID_SIZE first. That test is
  also never registered: line 453 adds `set_raw_noerrors` a second time in its place.
- `xrif_read_header` rejects a header whose first four bytes are not "xrif" with `BadHeader`.
  It does not compare the version. It restores the three method ids along with the shape,
  type and acceleration. The test at lines 372-434 cannot tell these ids apart, because the
  handle it writes from and the handle it reads into both hold the defaults.
- The suite never asserts the recorded sizes. The checks at lines 130, 141, 225 and 285 use
  `=` where `==` was meant. The model records the size as those lines evidently intend.
- Passing NULL with size 0 to a setter is not a way to release a role. The size rule reads
  literally: the pair passes the presence check and is then compared with the role's minimum.
  So the call returns INSUFFICIENT_SIZE whenever that minimum is positive, which is always
  for the compressed role, and for the raw role when compress_on_raw is set. The NULL binding
  is recorded all the same. `UnbindByNull` states this. No test makes such a call.
- The test named `setup_nullptr` (lines 97-105) calls `xrif_initialize_handle(NULL)`. The
  NULL-handle rule of `Setup` therefore comes from the API's convention, not from that test.

## Model

| member | source | states |
|---|---|---|
| `XrifState.Initial` | tests/xrif_test_init.c:13-39 | dimensions, type code, data_size and compressed_size are 0; the method ids are their defaults; lz4_acceleration 1, omp_parallel off, omp_numthreads 1, compress_on_raw on; every role unbound (NULL, size 0, not owned) |
| `XrifHandle.Initialize` | tests/xrif_test_init.c:7-52 | NULL handle gives NULLPTR; otherwise NOERROR and the handle's value is exactly `Initial()` |
| `XrifState.Configure` | tests/xrif_test_init.c:65-93 | the shape and type are the arguments, data_size matches the type, and the session fields, pipeline fields and all three bindings are those of the prior state |
| `XrifHandle.Setup` | tests/xrif_test_init.c:55-95 | NULL handle gives NULLPTR; otherwise NOERROR and the new value is `Configure` of the old one: nothing outside shape, type and data_size changes |
| `XrifTypes.TypeSize` | tests/xrif_test_init.c:72 | INT16 samples are 2 bytes; every other type code maps to a width left unspecified |
| `XrifState.ConfigureKeepsBindings` | tests/xrif_test_init.c:83-91 | setup keeps every binding without re-validating it: a binding smaller than the new minimum stays recorded but is no longer adequate, and an adequate binding stays adequate when the new cube has no more bytes |
| `XrifState.MinSize` | tests/xrif_test_init.c:122-143 | every role's minimum is at least the cube length w·h·d·f·data_size; reordered needs exactly that length; compressed needs its LZ4 bound; raw needs the LZ4 bound when compress_on_raw is set, and the length otherwise |
| `XrifState.BindStatus` | tests/xrif_test_init.c:165-176 | INVALID_SIZE exactly when "buffer given" and "nonzero size" disagree; otherwise INSUFFICIENT_SIZE exactly when the size is below the minimum, NOERROR exactly when it reaches it |
| `XrifState.Bind` | tests/xrif_test_init.c:123-143 | the code is `BindStatus` against the role's minimum; INVALID_SIZE leaves the state unchanged; any other code records the pointer and size with ownership borrowed; NOERROR exactly when the recorded binding is adequate |
| `XrifState.BindKeepsTheRest` | tests/xrif_test_init.c:221-227 | a bind changes no shape, session or pipeline field, and neither the binding nor the adequacy of any other role |
| `XrifState.BindIdempotent` | tests/xrif_test_init.c:134-143 | binding the same buffer and size again returns the same code and leaves the same state |
| `XrifState.RawRoleFollowsCompressOnRaw` | tests/xrif_test_init.c:122-143 | for a non-empty cube, the exact cube length binds the raw role iff compress_on_raw is off, and is INSUFFICIENT_SIZE when it is on; the LZ4 bound of the length always binds |
| `XrifState.ExactLengthByRole` | tests/xrif_test_init.c:215-227 | the exact cube length binds the reordered role and every smaller nonzero size is INSUFFICIENT_SIZE; the compressed role rejects the exact length and accepts its LZ4 bound |
| `XrifState.UnbindByNull` | tests/xrif_test_init.c:165-176 | NULL with size 0 records the role as unbound, and returns NOERROR exactly when the role's minimum is 0; for the compressed role it is always INSUFFICIENT_SIZE |
| `XrifState.MinSizeMonotone` | tests/xrif_test_init.c:279-281 | a cube with more bytes never needs a smaller buffer in any role |
| `Lz4Bound.CompressBound` | tests/xrif_test_init.c:279 | the LZ4 worst case exceeds its input by at least 16 bytes |
| `Lz4Bound.CompressBoundMonotone` | tests/xrif_test_init.c:279 | a larger input never has a smaller LZ4 bound |
| `XrifHandle.SetRaw` | tests/xrif_test_init.c:108-176 | NULL handle gives NULLPTR; otherwise the code and new value are `Bind` of the old value for the raw role |
| `XrifHandle.SetReordered` | tests/xrif_test_init.c:205-261 | NULL handle gives NULLPTR; otherwise the code and new value are `Bind` of the old value for the reordered role |
| `XrifHandle.SetCompressed` | tests/xrif_test_init.c:264-326 | NULL handle gives NULLPTR; otherwise the code and new value are `Bind` of the old value for the compressed role |
| `Bytes.LE` | tests/xrif_test_init.c:356-368 | an n-byte store is n bytes long |
| `Bytes.FromLE` | tests/xrif_test_init.c:356-368 | an n-byte little-endian load is below 256^n |
| `Bytes.FromLEOfLE` | tests/xrif_test_init.c:356-368 | loading a stored value that fits the width returns it |
| `Bytes.LEOfFromLE` | tests/xrif_test_init.c:356-368 | storing a loaded value returns the same bytes |
| `Bytes.FromLEZero` | tests/xrif_test_init.c:367-368 | a field reads 0 exactly when all its bytes are 0 |
| `Bytes.Pow256Widths` | tests/xrif_test_init.c:356-368 | the u16, u32 and u64 ranges are 256^2, 256^4 and 256^8 |
| `XrifHeader.ToU16` | tests/xrif_test_init.c:362-366 | an int field in 0..65535 is stored unchanged |
| `XrifHeader.RecordOf` | tests/xrif_test_init.c:356-366 | the written record carries VERSION, HEADER_SIZE and the handle's four dimensions |
| `XrifHeader.Encode` | tests/xrif_test_init.c:345-368 | a header is HEADER_SIZE bytes, starts with "xrif" and has zeros in bytes 38-47 |
| `XrifHeader.EncodeFieldOffsets` | tests/xrif_test_init.c:351-368 | each field is the little-endian integer at its offset: u32 at 4, 8, 12, 16, 20 and 24; u16 at 28, 30, 32, 34 and 36; the u16 at 38 and the u64 at 40 read 0 |
| `XrifHeader.Decode` | tests/xrif_test_init.c:403-414 | parsing succeeds exactly when the magic is "xrif", and fails with BadHeader otherwise |
| `XrifHeader.ApplyHeader` | tests/xrif_test_init.c:403-432 | reading a record re-derives data_size from the type and leaves compressed_size, the OpenMP fields, compress_on_raw and every binding untouched |
| `XrifHeader.DecodeEncode` | tests/xrif_test_init.c:387-414 | parsing an encoded record gives back the same record |
| `XrifHeader.EncodeDecode` | tests/xrif_test_init.c:403-414 | if a header parses and its reserved bytes are zero, encoding the parsed record reproduces its 48 bytes |
| `XrifHeader.HeaderRoundTrip` | tests/xrif_test_init.c:387-432 | write a configured handle and read it into any handle: shape, type, data_size, method ids and lz4_acceleration are copied, header size is HEADER_SIZE, and session fields and bindings of the reading handle are kept |
| `XrifHeader.HeaderWrapsWideFields` | tests/xrif_test_init.c:362-366 | a type code or acceleration outside u16 comes back reduced modulo 65536 |
| `XrifHandle.PutLE` | tests/xrif_test_init.c:356-368 | the stored bytes are `LE(x, n)` and no byte outside the field changes |
| `XrifHandle.GetLE` | tests/xrif_test_init.c:356-368 | the loaded value is `FromLE` of the field's bytes |
| `XrifHandle.WriteHeader` | tests/xrif_test_init.c:345-368 | a NULL header or handle gives NULLPTR; otherwise NOERROR, the first 48 bytes are `Encode(RecordOf(handle))`, and the rest of the array is unchanged |
| `XrifHandle.LoadHeader` | tests/xrif_test_init.c:403-414 | the array's first 48 bytes parse to `Decode` of them |
| `XrifHandle.ReadHeader` | tests/xrif_test_init.c:402-432 | any NULL argument gives NULLPTR and changes nothing; a bad magic gives BadHeader and changes nothing; otherwise NOERROR, the handle becomes `ApplyHeader` of the record, and the reported header size is the record's |
| `XrifScenarios.InitializeHandleNoError` | tests/xrif_test_init.c:7-40 | every field the test inspects has its default, and the code is NOERROR |
| `XrifScenarios.InitializeHandleNullPtr` | tests/xrif_test_init.c:43-52 | initializing NULL gives NULLPTR |
| `XrifScenarios.SetupNoError` | tests/xrif_test_init.c:55-94 | initialize gives NOERROR; setup (1024,64,32,1000,INT16) gives NOERROR, those dimensions, data_size 2, and defaults everywhere else |
| `XrifScenarios.SetRawNoErrors` | tests/xrif_test_init.c:108-145 | initialize and setup give NOERROR; the exact length binds with compress_on_raw off, and the LZ4 bound binds with it on; each time the handle records that pointer and size as borrowed |
| `XrifScenarios.SetRawErrors` | tests/xrif_test_init.c:148-176 | NULLPTR for a NULL handle; INVALID_SIZE for a buffer with size 0 and for NULL with size 10; initialize and setup on the valid handle give NOERROR |
| `XrifScenarios.SetReorderedNoErrors` | tests/xrif_test_init.c:205-229 | initialize and setup give NOERROR; the exact cube length binds the reordered role, borrowed |
| `XrifScenarios.SetReorderedErrors` | tests/xrif_test_init.c:232-261 | NULLPTR, then INVALID_SIZE twice; initialize and setup on the valid handle give NOERROR |
| `XrifScenarios.SetCompressedNoErrors` | tests/xrif_test_init.c:264-289 | initialize and setup give NOERROR; the LZ4 bound of the cube length binds the compressed role, borrowed |
| `XrifScenarios.SetCompressedErrors` | tests/xrif_test_init.c:292-326 | NULLPTR, INVALID_SIZE twice, then INSUFFICIENT_SIZE for 1024 bytes; initialize and setup on the valid handle give NOERROR |
| `XrifScenarios.HeaderWrite` | tests/xrif_test_init.c:331-369 | initialize, setup and the write give NOERROR; the written bytes hold "xrif", VERSION, HEADER_SIZE, 120/120/1/1000, INT16, the default method ids, acceleration 1, and zero reserved fields at the tested offsets |
| `XrifScenarios.HeaderRead` | tests/xrif_test_init.c:372-434 | both initializes, the setup and the write give NOERROR; reading into a fresh handle gives NOERROR and header size 48; 120/240/2/1000, INT16, data_size 2 and acceleration 10; every other field at its default |

## Left out

- Allocation by the handle: setting an ownership flag to true, and freeing an owned buffer on
  rebinding or destruction. No test exercises this; the ownership flags are plain booleans,
  and the setters always set them to false (borrowed).
- Buffer contents and the transform stages (difference, reorder, LZ4 compression). Only their
  size requirements enter the model.
- `LZ4_MAX_INPUT_SIZE`. LZ4's bound returns 0 above about 2 GB; `CompressBound` does not model
  that cut-off.
- The C integer widths of the size product. `RawLength` is an unbounded product, so a product
  that would overflow `size_t`, or a 32-bit intermediate, is not captured.
- Checking the header version. `read_header` accepts any version, so no version error is
  modelled.
- The numeric values of the result codes and of the constants defined in `src/xrif.h`.
- `XrifHandle.WriteHeader` and `XrifHandle.ReadHeader`: the C code takes a `char*` with no
  length. The model requires the array to hold at least `HEADER_SIZE` bytes, as the C caller's
  `char header[XRIF_HEADER_SIZE]` does.
- OpenMP: `omp_parallel` and `omp_numthreads` are stored and reset, nothing more.
- The check.h suites and `main` (lines 438-502).
