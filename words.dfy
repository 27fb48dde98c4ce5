/** Fixed-width unsigned integers of the two programs. */
module Words {
  /** An 8-bit byte. */
  type byte = x: int | 0 <= x < 0x100

  /** A 32-bit unsigned integer: C#'s `uint` and the ESP32's `unsigned long`. */
  type u32 = x: int | 0 <= x < 0x1_0000_0000

  const Two31: int := 0x8000_0000
  const Two32: int := 0x1_0000_0000
}
