/** Types shared by every component: octets, byte strings and optional results. */
module Base {

  type Octet = x: int | 0 <= x < 256

  type Bytes = seq<Octet>

  datatype Option<+T> = None | Some(value: T)

  // Widths of the unsigned fields in the C structures.
  const UINT16_MAX := 0xFFFF
  const UINT32_SPAN := 0x1_0000_0000

  // Hard limits of src/types.h.
  const MAX_KEY_SIZE := 1024
  const MAX_FIELD_SIZE := 1024
}
