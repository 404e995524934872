/**
 * The value of an xrif handle (every field of xrif_t) and the pure rules behind its
 * operations: the defaults of initialization, the reconfiguration done by setup, and the
 * size validation done when a buffer is bound to the raw, reordered or compressed role.
 */
module XrifState {
  import opened XrifTypes
  import opened Lz4Bound

  datatype Role = Raw | Reordered | Compressed

  /** One buffer role: the pointer, its capacity in bytes, and whether the handle owns it. */
  datatype Binding = Binding(buffer: Ptr, size: nat, owned: bool)

  const Unbound := Binding(Null, 0, false)

  datatype HandleValue = HandleValue(
    width: u32, height: u32, depth: u32, frames: u32,
    typeCode: int, dataSize: nat, compressedSize: nat,
    differenceMethod: int, reorderMethod: int, compressMethod: int,
    lz4Acceleration: int, ompParallel: bool, ompNumThreads: int, compressOnRaw: bool,
    raw: Binding, reordered: Binding, compressed: Binding)

  /** The state xrif_initialize_handle leaves behind. */
  function Initial(): (v: HandleValue)
    ensures v.width == v.height == v.depth == v.frames == 0
    ensures v.typeCode == 0 && v.dataSize == 0 && v.compressedSize == 0
    ensures v.differenceMethod == DIFFERENCE_DEFAULT as int
    ensures v.reorderMethod == REORDER_DEFAULT as int
    ensures v.compressMethod == COMPRESS_DEFAULT as int
    ensures v.lz4Acceleration == 1 && !v.ompParallel && v.ompNumThreads == 1 && v.compressOnRaw
    ensures forall role :: BindingOf(v, role) == Unbound
  {
    HandleValue(0, 0, 0, 0, 0, 0, 0,
                DIFFERENCE_DEFAULT as int, REORDER_DEFAULT as int, COMPRESS_DEFAULT as int,
                1, false, 1, true, Unbound, Unbound, Unbound)
  }

  /** data_size agrees with type_code. */
  predicate SizeMatchesType(v: HandleValue)
  {
    v.dataSize == TypeSize(v.typeCode)
  }

  /** The state after xrif_setup: shape and type replaced, data_size derived, nothing else touched. */
  function Configure(v: HandleValue, width: u32, height: u32, depth: u32, frames: u32, typeCode: int): (r: HandleValue)
    ensures SizeMatchesType(r)
    ensures r.width == width && r.height == height && r.depth == depth && r.frames == frames
    ensures r.typeCode == typeCode
    ensures SameSession(v, r) && SamePipeline(v, r)
    ensures forall role :: BindingOf(r, role) == BindingOf(v, role)
  {
    v.(width := width, height := height, depth := depth, frames := frames,
       typeCode := typeCode, dataSize := TypeSize(typeCode))
  }

  /** Equal runtime fields: compressed_size, the OpenMP fields and compress_on_raw. */
  predicate SameSession(v: HandleValue, w: HandleValue)
  {
    && v.compressedSize == w.compressedSize
    && v.ompParallel == w.ompParallel && v.ompNumThreads == w.ompNumThreads
    && v.compressOnRaw == w.compressOnRaw
  }

  /** Equal pipeline selection and tuning: the three method ids and lz4_acceleration. */
  predicate SamePipeline(v: HandleValue, w: HandleValue)
  {
    && v.differenceMethod == w.differenceMethod && v.reorderMethod == w.reorderMethod
    && v.compressMethod == w.compressMethod && v.lz4Acceleration == w.lz4Acceleration
  }

  /** Equal shape and sample type. */
  predicate SameShape(v: HandleValue, w: HandleValue)
  {
    && v.width == w.width && v.height == w.height && v.depth == w.depth && v.frames == w.frames
    && v.typeCode == w.typeCode && v.dataSize == w.dataSize
  }

  function BindingOf(v: HandleValue, role: Role): Binding
  {
    match role
    case Raw => v.raw
    case Reordered => v.reordered
    case Compressed => v.compressed
  }

  function WithBinding(v: HandleValue, role: Role, b: Binding): (r: HandleValue)
    ensures BindingOf(r, role) == b
    ensures forall other :: other != role ==> BindingOf(r, other) == BindingOf(v, other)
    ensures SameShape(v, r) && SameSession(v, r) && SamePipeline(v, r)
  {
    match role
    case Raw => v.(raw := b)
    case Reordered => v.(reordered := b)
    case Compressed => v.(compressed := b)
  }

  /** Bytes of the uncompressed cube: width * height * depth * frames * data_size. */
  function RawLength(v: HandleValue): nat
  {
    v.width as nat * v.height as nat * v.depth as nat * v.frames as nat * v.dataSize
  }

  /** The least capacity a buffer bound to the role must have under the current configuration. */
  function MinSize(v: HandleValue, role: Role): (n: nat)
    ensures n >= RawLength(v)
    ensures role == Reordered ==> n == RawLength(v)
    ensures role == Compressed || (role == Raw && v.compressOnRaw) ==> n == CompressBound(RawLength(v))
    ensures role == Raw && !v.compressOnRaw ==> n == RawLength(v)
  {
    match role
    case Raw => if v.compressOnRaw then CompressBound(RawLength(v)) else RawLength(v)
    case Reordered => RawLength(v)
    case Compressed => CompressBound(RawLength(v))
  }

  /**
   * The code a buffer setter returns for a valid handle: a buffer and a nonzero size must come
   * together, and then the size must reach the role's minimum.
   */
  function BindStatus(buffer: Ptr, size: nat, required: nat): (e: Error)
    ensures e == InvalidSize <==> (buffer == Null) != (size == 0)
    ensures e == InsufficientSize <==> (buffer == Null) == (size == 0) && size < required
    ensures e == NoError <==> (buffer == Null) == (size == 0) && size >= required
  {
    if buffer != Null && size == 0 then InvalidSize
    else if buffer == Null && size != 0 then InvalidSize
    else if size < required then InsufficientSize
    else NoError
  }

  /** A binding whose capacity reaches the role's minimum under the current configuration. */
  predicate Adequate(v: HandleValue, role: Role)
  {
    BindingOf(v, role).size >= MinSize(v, role)
  }

  /**
   * xrif_set_raw, xrif_set_reordered and xrif_set_compressed on a valid handle: the code returned
   * and the new state. A presence mismatch changes nothing; otherwise the buffer and size are
   * recorded as borrowed, also when the size then proves too small.
   */
  function Bind(v: HandleValue, role: Role, buffer: Ptr, size: nat): (r: (Error, HandleValue))
    ensures r.0 == BindStatus(buffer, size, MinSize(v, role))
    ensures r.0 == InvalidSize ==> r.1 == v
    ensures r.0 != InvalidSize ==> r.1 == WithBinding(v, role, Binding(buffer, size, false))
    ensures r.0 == NoError <==> Adequate(r.1, role) && (buffer == Null) == (size == 0)
  {
    var e := BindStatus(buffer, size, MinSize(v, role));
    if e == InvalidSize then (e, v)
    else (e, WithBinding(v, role, Binding(buffer, size, false)))
  }

  /** Binding one role leaves the configuration, the size rules and the other two roles alone. */
  lemma BindKeepsTheRest(v: HandleValue, role: Role, buffer: Ptr, size: nat, other: Role)
    requires other != role
    ensures var w := Bind(v, role, buffer, size).1;
      && SameShape(v, w) && SameSession(v, w) && SamePipeline(v, w)
      && BindingOf(w, other) == BindingOf(v, other)
      && Adequate(w, other) == Adequate(v, other)
  {
  }

  /** Repeating a bind returns the same code and leaves the same state. */
  lemma BindIdempotent(v: HandleValue, role: Role, buffer: Ptr, size: nat)
    ensures var (e, w) := Bind(v, role, buffer, size);
      Bind(w, role, buffer, size) == (e, w)
  {
  }

  /**
   * setup does not re-validate: every binding survives reconfiguration unchanged. One whose
   * size falls below the new minimum stays recorded but is no longer adequate; an adequate one
   * stays adequate when the new cube has no more bytes than the old.
   */
  lemma ConfigureKeepsBindings(v: HandleValue, width: u32, height: u32, depth: u32, frames: u32, typeCode: int, role: Role)
    ensures var w := Configure(v, width, height, depth, frames, typeCode);
      BindingOf(w, role) == BindingOf(v, role)
    ensures var w := Configure(v, width, height, depth, frames, typeCode);
      BindingOf(v, role).size < MinSize(w, role) ==> !Adequate(w, role)
    ensures var w := Configure(v, width, height, depth, frames, typeCode);
      Adequate(v, role) && RawLength(w) <= RawLength(v) ==> Adequate(w, role)
  {
  }

  /** A bigger cube never needs smaller buffers, in any role. */
  lemma MinSizeMonotone(v: HandleValue, w: HandleValue, role: Role)
    requires RawLength(v) <= RawLength(w) && v.compressOnRaw == w.compressOnRaw
    ensures MinSize(v, role) <= MinSize(w, role)
  {
    CompressBoundMonotone(RawLength(v), RawLength(w));
  }

  /**
   * With compress_on_raw set, the raw buffer doubles as the compressor's output, so a raw buffer
   * of exactly the cube's length is rejected; without it, that length is accepted.
   */
  lemma RawRoleFollowsCompressOnRaw(v: HandleValue, buffer: Ptr)
    requires buffer != Null && RawLength(v) > 0
    ensures Bind(v, Raw, buffer, RawLength(v)).0 == (if v.compressOnRaw then InsufficientSize else NoError)
    ensures Bind(v, Raw, buffer, CompressBound(RawLength(v))).0 == NoError
  {
  }

  /** The exact cube length is enough for the reordered role and never for the compressed one. */
  lemma ExactLengthByRole(v: HandleValue, buffer: Ptr)
    requires buffer != Null && RawLength(v) > 0
    ensures Bind(v, Reordered, buffer, RawLength(v)).0 == NoError
    ensures forall size :: 0 < size < RawLength(v) ==> Bind(v, Reordered, buffer, size).0 == InsufficientSize
    ensures Bind(v, Compressed, buffer, RawLength(v)).0 == InsufficientSize
    ensures Bind(v, Compressed, buffer, CompressBound(RawLength(v))).0 == NoError
  {
  }

  /**
   * Passing NULL with size 0 is not a release: it records the role as unbound, and succeeds only
   * when the role needs no bytes at all, which the compressed role never does.
   */
  lemma UnbindByNull(v: HandleValue, role: Role)
    ensures Bind(v, role, Null, 0).1 == WithBinding(v, role, Unbound)
    ensures Bind(v, role, Null, 0).0 == NoError <==> MinSize(v, role) == 0
    ensures Bind(v, Compressed, Null, 0).0 == InsufficientSize
  {
  }
}
