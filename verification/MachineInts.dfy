/** Fixed-width integers and their little-endian bytes. */
module MachineInts {

  newtype u8 = x: int | 0 <= x < 0x100
  newtype u32 = x: int | 0 <= x < 0x1_0000_0000
  newtype u64 = x: int | 0 <= x < 0x1_0000_0000_0000_0000

  const WORD_SIZE := 4

  function FromLe(b: seq<u8>): u32
    requires |b| == WORD_SIZE
  {
    b[0] as u32 + 0x100 * b[1] as u32 + 0x1_0000 * b[2] as u32 + 0x100_0000 * b[3] as u32
  }

  function ToLe(w: u32): (b: seq<u8>)
    ensures |b| == WORD_SIZE
    ensures FromLe(b) == w
  {
    var high, low := (w as int) / 0x1_0000, (w as int) % 0x1_0000;
    [(low % 0x100) as u8, (low / 0x100) as u8, (high % 0x100) as u8, (high / 0x100) as u8]
  }
}
