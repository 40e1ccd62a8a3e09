/** The fixed-width unsigned integers of vpr/vprTypes.h, which the C libraries have under names of their own. */
module VprTypes {
  const UINT16 := 0x1_0000
  const UINT32 := 0x1_0000_0000
  const UINT64 := 0x1_0000_0000_0000_0000

  type Uint8 = x: int | 0 <= x < 0x100
  type Uint16 = x: int | 0 <= x < UINT16
  type Uint32 = x: int | 0 <= x < UINT32
  type Uint64 = x: int | 0 <= x < UINT64

  type Bytes = seq<Uint8>
}
