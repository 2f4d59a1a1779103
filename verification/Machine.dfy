/** Machine-level value types shared by the firmware models. */
module Machine {

  datatype Option<+T> = None | Some(value: T)

  /** One octet, as in `uint8_t`. */
  type Byte = x: int | 0 <= x < 0x100

  /** One 16-bit sample, as in `uint16_t`. */
  type HalfWord = x: int | 0 <= x < 0x1_0000

  /** An index into one of the ping-pong buffers. */
  type Bit = x: int | 0 <= x < 2

  /** The value an 8-bit variable holds after it is assigned `x`. */
  function Wrap8(x: int): Byte {
    x % 0x100
  }

  /** The value a 16-bit variable holds after it is assigned `x`. */
  function Wrap16(x: int): HalfWord {
    x % 0x1_0000
  }

  /** `b ^ 1` on a buffer index. */
  function Flip(b: Bit): Bit {
    1 - b
  }

  function Min(a: int, b: int): int {
    if a < b then a else b
  }

  /** The memory `m` with `s` stored from offset `at` on. */
  function Splice<T>(m: seq<T>, at: nat, s: seq<T>): (r: seq<T>)
    requires at + |s| <= |m|
    ensures |r| == |m|
  {
    m[..at] + s + m[at + |s|..]
  }

  /** Storing two adjacent pieces is storing their concatenation. */
  lemma SpliceAdjacent<T>(m: seq<T>, at: nat, s: seq<T>, t: seq<T>)
    requires at + |s| + |t| <= |m|
    ensures Splice(Splice(m, at, s), at + |s|, t) == Splice(m, at, s + t)
  {
  }
}
