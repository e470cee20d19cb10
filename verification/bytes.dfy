/** Fixed-width unsigned integers and the byte-level conversions the protocol uses. */
module Bytes {

  type byte = x: int | 0 <= x < 0x100
  type u16 = x: int | 0 <= x < 0x1_0000
  type u32 = x: int | 0 <= x < 0x1_0000_0000

  /** Rust's `n as u8` on an unsigned value: keeps the low eight bits. */
  function U8Cast(n: nat): (b: byte)
    ensures n < 0x100 ==> b == n
    ensures b <= n && (n - b) % 0x100 == 0
  {
    n % 0x100
  }

  /** The value of four bytes read most significant first. */
  function BeToU32(s: seq<byte>): (n: u32)
    requires |s| == 4
  {
    var hi: int := s[0];
    ((hi * 0x100 + s[1]) * 0x100 + s[2]) * 0x100 + s[3]
  }

  /** Rust's `u32::to_be_bytes`: four bytes, most significant first. */
  function U32ToBe(n: u32): (s: seq<byte>)
    ensures |s| == 4
    ensures BeToU32(s) == n
  {
    var q1 := n / 0x100;
    var q2 := q1 / 0x100;
    var q3 := q2 / 0x100;
    [q3, q2 % 0x100, q1 % 0x100, n % 0x100]
  }

  /** Every four-byte group is the big-endian encoding of exactly one `u32`. */
  lemma BeToU32Inverse(s: seq<byte>)
    requires |s| == 4
    ensures U32ToBe(BeToU32(s)) == s
  {
    // The quotients of `U32ToBe`: n = q1 * 256 + s[3], q1 = q2 * 256 + s[2], q2 = q3 * 256 + s[1].
    var q3: int := s[0];
    var q2 := q3 * 0x100 + s[1];
    var q1 := q2 * 0x100 + s[2];
    ByteSplit(q1, s[3]);
    ByteSplit(q2, s[2]);
    ByteSplit(q3, s[1]);
  }

  /** Splitting off the low byte of a number is Euclidean division by 256. */
  lemma ByteSplit(n: int, lo: byte)
    ensures (n * 0x100 + lo) / 0x100 == n && (n * 0x100 + lo) % 0x100 == lo
  {
  }
}
