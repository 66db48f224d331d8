/**
 * The message digest of RFC 1321, sections 3.1 to 3.5.  A word is a number below
 * 2^32, a byte a number below 256.
 */
module Md5Spec {
  import opened Bits
  import opened Bytes

  datatype Chain = Chain(a: nat, b: nat, c: nat, d: nat)

  /** Section 3.3. */
  const INITIAL: Chain := Chain(0x67452301, 0xefcdab89, 0x98badcfe, 0x10325476)

  function Add(x: nat, y: nat): nat { Low(x + y, 32) }

  /** Section 3.4: the four auxiliary functions. */
  function F(x: nat, y: nat, z: nat): nat { Or(And(x, y), And(Not(x, 32), z)) }
  function G(x: nat, y: nat, z: nat): nat { Or(And(x, z), And(y, Not(z, 32))) }
  function H(x: nat, y: nat, z: nat): nat { Xor(Xor(x, y), z) }
  function I(x: nat, y: nat, z: nat): nat { Xor(y, Or(x, Not(z, 32))) }

  function RotateLeft(x: nat, s: nat): nat
    requires s <= 32
  {
    Or(Low(Shl(x, s), 32), Shr(x, 32 - s))
  }

  /** Section 3.4: the table of sines, in four rows of sixteen. */
  const T1: seq<nat> := [
    0xd76aa478, 0xe8c7b756, 0x242070db, 0xc1bdceee, 0xf57c0faf, 0x4787c62a, 0xa8304613, 0xfd469501,
    0x698098d8, 0x8b44f7af, 0xffff5bb1, 0x895cd7be, 0x6b901122, 0xfd987193, 0xa679438e, 0x49b40821]
  const T2: seq<nat> := [
    0xf61e2562, 0xc040b340, 0x265e5a51, 0xe9b6c7aa, 0xd62f105d, 0x02441453, 0xd8a1e681, 0xe7d3fbc8,
    0x21e1cde6, 0xc33707d6, 0xf4d50d87, 0x455a14ed, 0xa9e3e905, 0xfcefa3f8, 0x676f02d9, 0x8d2a4c8a]
  const T3: seq<nat> := [
    0xfffa3942, 0x8771f681, 0x6d9d6122, 0xfde5380c, 0xa4beea44, 0x4bdecfa9, 0xf6bb4b60, 0xbebfbc70,
    0x289b7ec6, 0xeaa127fa, 0xd4ef3085, 0x04881d05, 0xd9d4d039, 0xe6db99e5, 0x1fa27cf8, 0xc4ac5665]
  const T4: seq<nat> := [
    0xf4292244, 0x432aff97, 0xab9423a7, 0xfc93a039, 0x655b59c3, 0x8f0ccc92, 0xffeff47d, 0x85845dd1,
    0x6fa87e4f, 0xfe2ce6e0, 0xa3014314, 0x4e0811a1, 0xf7537e82, 0xbd3af235, 0x2ad7d2bb, 0xeb86d391]

  /** Word index, shift and table entry of operation i of 64. */
  datatype Schedule = Schedule(k: nat, s: nat, t: nat)

  function ScheduleAt(i: nat): (o: Schedule)
    requires i < 64
    ensures o.k < 16 && o.s <= 32
  {
    if i < 16 then Schedule(i, [7, 12, 17, 22][i % 4], T1[i])
    else if i < 32 then Schedule((5 * i + 1) % 16, [5, 9, 14, 20][i % 4], T2[i - 16])
    else if i < 48 then Schedule((3 * i + 5) % 16, [4, 11, 16, 23][i % 4], T3[i - 32])
    else Schedule((7 * i) % 16, [6, 10, 15, 21][i % 4], T4[i - 48])
  }

  function Mix(i: nat, b: nat, c: nat, d: nat): nat {
    if i < 16 then F(b, c, d) else if i < 32 then G(b, c, d) else if i < 48 then H(b, c, d) else I(b, c, d)
  }

  /** b + ((a + mix + x + t) <<< s). */
  function Combine(mix: nat, a: nat, b: nat, x: nat, t: nat, s: nat): nat
    requires s <= 32
  {
    Add(RotateLeft(Add(a, Add(Add(mix, x), t)), s), b)
  }

  /** One operation, after which the registers change roles. */
  function Operate(r: Chain, x: seq<nat>, i: nat): Chain
    requires |x| == 16 && i < 64
  {
    var o := ScheduleAt(i);
    Chain(r.d, Combine(Mix(i, r.b, r.c, r.d), r.a, r.b, x[o.k], o.t, o.s), r.b, r.c)
  }

  /** The registers after the first n operations. */
  function Registers(r: Chain, x: seq<nat>, n: nat): Chain
    requires |x| == 16 && n <= 64
  {
    if n == 0 then r else Operate(Registers(r, x, n - 1), x, n - 1)
  }

  function Words(block: seq<byte>): (x: seq<nat>)
    requires |block| == 64
    ensures |x| == 16
  {
    seq(16, i requires 0 <= i < 16 => Word(block[4 * i], block[4 * i + 1], block[4 * i + 2], block[4 * i + 3]))
  }

  /** Section 3.4: one block of 16 words. */
  function Compress(r: Chain, block: seq<byte>): Chain
    requires |block| == 64
  {
    var n := Registers(r, Words(block), 64);
    Chain(Add(n.a, r.a), Add(n.b, r.b), Add(n.c, r.c), Add(n.d, r.d))
  }

  /** All complete blocks in order. */
  function Fold(r: Chain, data: seq<byte>): Chain
    decreases |data|
  {
    if |data| < 64 then r else Fold(Compress(r, data[..64]), data[64..])
  }

  /** How many zero bytes bring n bytes, the one bit and the length to a whole number of blocks. */
  function Zeros(n: nat): (z: nat)
    ensures z < 64 && (n + 1 + z + 8) % 64 == 0
  {
    if n % 64 <= 55 then 55 - n % 64 else 119 - n % 64
  }

  /** Sections 3.1 and 3.2: a one bit, zeros up to 448 modulo 512, the bit length as two words, low word first. */
  function Padding(n: nat): (p: seq<byte>)
    ensures |p| == 1 + Zeros(n) + 8 && (n + |p|) % 64 == 0
  {
    [0x80] + seq(Zeros(n), _ => 0) + WordBytes(8 * n % M32) + WordBytes(8 * n / M32 % M32)
  }

  /** Section 3.5. */
  function ChainBytes(r: Chain): (b: seq<byte>)
    ensures |b| == 16
  {
    WordBytes(r.a) + WordBytes(r.b) + WordBytes(r.c) + WordBytes(r.d)
  }

  function Digest(message: seq<byte>): (b: seq<byte>)
    ensures |b| == 16
  {
    ChainBytes(Fold(INITIAL, message + Padding(|message|)))
  }
}
