/** The 32-bit integers of the C sources. */
module MachineInts {
  type Int32 = x: int | -0x8000_0000 <= x < 0x8000_0000
  type UInt32 = x: int | 0 <= x < 0x1_0000_0000
}
