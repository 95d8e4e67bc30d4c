/** Shared vocabulary: results, bytes and machine integers. */
module Types {

  datatype Option<+T> = None | Some(value: T)

  datatype Result<+T, +E> = Ok(value: T) | Err(error: E)

  newtype byte = b: int | 0 <= b < 256

  type Bytes = seq<byte>

  /** A SHA-256 output. */
  type Digest = d: Bytes | |d| == 32 witness seq(32, _ => 0)

  const U64_MAX: nat := 0xFFFF_FFFF_FFFF_FFFF
  const I64_MIN: int := -0x8000_0000_0000_0000
  const I64_MAX: int := 0x7FFF_FFFF_FFFF_FFFF

  type u64 = n: nat | n <= U64_MAX
  type i64 = n: int | I64_MIN <= n <= I64_MAX

  lemma MachineWidths()
    ensures U64_MAX == 18446744073709551615
    ensures I64_MAX == 9223372036854775807 && I64_MIN == -9223372036854775808
  {
  }
}
