/** Result codes, pointers, integer widths and the library-wide constants of xrif. */
module XrifTypes {

  newtype u16 = x: int | 0 <= x < 0x1_0000
  newtype u32 = x: int | 0 <= x < 0x1_0000_0000

  /** The closed set of codes every operation returns. */
  datatype Error = NoError | NullPtr | InvalidSize | InsufficientSize | BadHeader

  datatype Result<T> = Success(value: T) | Failure(error: Error)

  /** A buffer pointer: NULL, or the address of caller memory. */
  datatype Ptr = Null | Addr(addr: nat)

  /** Length in bytes of the header record (magic, version, size, four u32, five u16, u16 and u64 reserved). */
  const HEADER_SIZE: u32 := 48

  // The values below are defined in src/xrif.h, which is not part of this model. They are
  // left unspecified: every property proved here holds whatever their values are.

  /** XRIF_VERSION, written at offset 4 of every header. */
  const VERSION: u32
  /** XRIF_DIFFERENCE_DEFAULT, XRIF_REORDER_DEFAULT and XRIF_COMPRESS_DEFAULT. */
  const DIFFERENCE_DEFAULT: u16
  const REORDER_DEFAULT: u16
  const COMPRESS_DEFAULT: u16
  /** XRIF_TYPECODE_INT16, the type code of 16-bit signed samples. */
  const TYPECODE_INT16: u16
  /** The byte widths of the type codes other than XRIF_TYPECODE_INT16. */
  const OtherTypeSizes: int -> nat

  /** The byte width of one sample of the given type (xrif's type-size lookup). */
  function TypeSize(typeCode: int): (size: nat)
    ensures typeCode == TYPECODE_INT16 as int ==> size == 2
  {
    if typeCode == TYPECODE_INT16 as int then 2 else OtherTypeSizes(typeCode)
  }
}
