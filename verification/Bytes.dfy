/** Bytes, and the big-endian fields of an MPEG-2 section. */
module Bytes {
  type byte = x: int | 0 <= x < 0x100
  type word = x: int | 0 <= x < 0x1_0000
  type Bits3 = x: int | 0 <= x < 8
  type Bits4 = x: int | 0 <= x < 16
  type Pid = x: int | 0 <= x < 0x2000

  /** TS_READ_16: two bytes, most significant first. */
  function Read16(s: seq<byte>, at: nat): word
    requires at + 2 <= |s|
  {
    (s[at] as int) * 0x100 + s[at + 1]
  }

  /** `& 0x1fff` on a 16-bit value. */
  function Low13(w: word): Pid { w % 0x2000 }

  /** `& 0x0fff` on a 16-bit value. */
  function Low12(w: word): nat { w % 0x1000 }

  function Put16(w: word): (b: seq<byte>)
    ensures |b| == 2 && Read16(b, 0) == w
  {
    [w / 0x100, w % 0x100]
  }

  /** Two bytes holding a 3-bit reserved field and a 13-bit PID. */
  function PutPid(reserved: Bits3, pid: Pid): (b: seq<byte>)
    ensures |b| == 2 && Low13(Read16(b, 0)) == pid
  {
    Put16(reserved * 0x2000 + pid)
  }

  /** Two bytes holding four flag or reserved bits and a 12-bit length. */
  function PutLength(flags: Bits4, length: nat): (b: seq<byte>)
    requires length < 0x1000
    ensures |b| == 2 && Low12(Read16(b, 0)) == length
  {
    Put16(flags * 0x1000 + length)
  }

}
