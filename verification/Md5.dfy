/**
 * The functions, the step and the four rounds of the code, against RFC 1321.  Words
 * are unsigned integers of any width of at least 32 bits; sums wrap at that width.
 */
module Md5 {
  import opened Bits
  import opened Bytes
  import S = Md5Spec

  // ---- the basic functions, as rewritten in the code ----

  lemma {:induction false} SelectByX(x: nat, y: nat, z: nat, w: nat)
    requires Fits(x, w) && Fits(y, w) && Fits(z, w)
    ensures Xor(z, And(x, Xor(y, z))) == Or(And(x, y), And(Not(x, w), z))
    decreases w
  {
    if w > 0 {
      assert Not(x, w) / 2 == Not(x / 2, w - 1) && Not(x, w) % 2 == 1 - x % 2;
      SelectByX(x / 2, y / 2, z / 2, w - 1);
      hide And, Or, Xor, Not, Fits;
      XorParts(y, z); AndParts(x, Xor(y, z)); XorParts(z, And(x, Xor(y, z)));
      AndParts(x, y); AndParts(Not(x, w), z); OrParts(And(x, y), And(Not(x, w), z));
    }
  }

  lemma {:induction false} AndCommutes(x: nat, y: nat)
    ensures And(x, y) == And(y, x)
  {
    if x != 0 || y != 0 { AndCommutes(x / 2, y / 2); }
  }

  lemma SelectByZ(x: nat, y: nat, z: nat, w: nat)
    requires Fits(x, w) && Fits(y, w) && Fits(z, w)
    ensures Xor(y, And(z, Xor(x, y))) == Or(And(x, z), And(y, Not(z, w)))
  {
    hide Fits, Xor, Or, And, Not;
    SelectByX(z, x, y, w);
    AndCommutes(x, z);
    AndCommutes(y, Not(z, w));
  }

  lemma {:induction false} XorAssociates(x: nat, y: nat, z: nat)
    ensures Xor(x, Xor(y, z)) == Xor(Xor(x, y), z)
  {
    if x != 0 || y != 0 || z != 0 { XorAssociates(x / 2, y / 2, z / 2); }
  }

  /** In each case the low 32 bits are those of the function of RFC 1321, whatever the width. */
  function F(x: nat, y: nat, z: nat): (r: nat)
    ensures Low(r, 32) == S.F(Low(x, 32), Low(y, 32), Low(z, 32))
  {
    LowXor(z, And(x, Xor(y, z)), 32); LowAnd(x, Xor(y, z), 32); LowXor(y, z, 32);
    FitsLow(x, 32); FitsLow(y, 32); FitsLow(z, 32);
    SelectByX(Low(x, 32), Low(y, 32), Low(z, 32), 32);
    Xor(z, And(x, Xor(y, z)))
  }

  function G(x: nat, y: nat, z: nat): (r: nat)
    ensures Low(r, 32) == S.G(Low(x, 32), Low(y, 32), Low(z, 32))
  {
    LowXor(y, And(z, Xor(x, y)), 32); LowAnd(z, Xor(x, y), 32); LowXor(x, y, 32);
    FitsLow(x, 32); FitsLow(y, 32); FitsLow(z, 32);
    SelectByZ(Low(x, 32), Low(y, 32), Low(z, 32), 32);
    Xor(y, And(z, Xor(x, y)))
  }

  function H(x: nat, y: nat, z: nat): (r: nat)
    ensures Low(r, 32) == S.H(Low(x, 32), Low(y, 32), Low(z, 32))
  {
    LowXor(Xor(x, y), z, 32); LowXor(x, y, 32);
    Xor(Xor(x, y), z)
  }

  function H2(x: nat, y: nat, z: nat): (r: nat)
    ensures Low(r, 32) == S.H(Low(x, 32), Low(y, 32), Low(z, 32))
  {
    LowXor(x, Xor(y, z), 32); LowXor(y, z, 32);
    XorAssociates(Low(x, 32), Low(y, 32), Low(z, 32));
    Xor(x, Xor(y, z))
  }

  function I(x: nat, y: nat, z: nat, width: nat): (r: nat)
    requires width >= 32
    ensures Low(r, 32) == S.I(Low(x, 32), Low(y, 32), Low(z, 32))
  {
    LowXor(y, Or(x, Not(z, width)), 32); LowOr(x, Not(z, width), 32); LowNot(z, 32, width);
    Xor(y, Or(x, Not(z, width)))
  }

  // ---- one step ----

  function Sum(x: nat, y: nat, width: nat): (r: nat)
    requires width >= 32
    ensures Low(r, 32) == S.Add(Low(x, 32), Low(y, 32))
  {
    LowLow(x + y, 32, width); LowSum(x, y, 32);
    Low(x + y, width)
  }

  function Rotate(a: nat, s: nat, width: nat): (r: nat)
    requires width >= 32 && s <= 32
    ensures Low(r, 32) == S.RotateLeft(Low(a, 32), s)
  {
    var high := Low(Shl(a, s), width);
    var low := Shr(And(a, 0xffff_ffff), 32 - s);
    Low32(a); AndOnes(a, 32);
    LowOr(high, low, 32);
    LowLow(Shl(a, s), 32, width); LowShl(a, s, 32);
    FitsLow(a, 32); FitsShr(Low(a, 32), 32 - s, 32);
    Or(high, low)
  }

  /** A rotation: the low 32 - s bits go up by s places and the high s bits come in below them. */
  lemma RotationTurns(x: nat, s: nat)
    requires Fits(x, 32) && s <= 32
    ensures S.RotateLeft(x, s) == Shl(Low(x, 32 - s), s) + Shr(x, 32 - s)
    ensures x == Shl(Shr(x, 32 - s), 32 - s) + Low(x, 32 - s)
  {
    hide Shl, Shr, Low, Or;
    LowOfShl(x, s, 32);
    ShrFits(x, 32 - s, 32);
    OrIsSum(Low(x, 32 - s), Shr(x, 32 - s), s);
    Split(x, 32 - s);
  }

  function Low4(a: nat, b: nat, c: nat, d: nat): S.Chain {
    S.Chain(Low(a, 32), Low(b, 32), Low(c, 32), Low(d, 32))
  }

  /** Words as loaded from a block: only their low 32 bits are the block's. */
  predicate Loaded(x: seq<nat>, xs: seq<nat>) { |x| == |xs| == 16 && forall i | 0 <= i < 16 :: Low(x[i], 32) == xs[i] }

  /** The step macro; the ghost arguments say which operation of RFC 1321 it performs. */
  method Step(width: nat, f: nat, a: nat, b: nat, x: nat, t: nat, s: nat,
              ghost c: nat, ghost d: nat, ghost r: S.Chain, ghost xs: seq<nat>, ghost i: nat)
      returns (next: nat)
    requires width >= 32 && |xs| == 16 && i < 64 && Low4(a, b, c, d) == S.Registers(r, xs, i)
    requires S.ScheduleAt(i).s == s && S.ScheduleAt(i).t == t && t < M32
    requires xs[S.ScheduleAt(i).k] == Low(x, 32)
    requires Low(f, 32) == S.Mix(i, Low(b, 32), Low(c, 32), Low(d, 32))
    ensures Low4(d, next, b, c) == S.Registers(r, xs, i + 1)
  {
    hide S.ScheduleAt, S.Mix, S.Add, S.RotateLeft, Low;
    Low32(t);
    SmallFits(t, 32);
    next := Sum(a, Sum(Sum(f, x, width), t, width), width);
    next := Rotate(next, s, width);
    next := Sum(next, b, width);
  }

  // ---- the constants in the code are those of the schedule ----

  lemma Row1()
    ensures S.ScheduleAt(0) == S.Schedule(0, 7, 0xd76aa478)
    ensures S.ScheduleAt(1) == S.Schedule(1, 12, 0xe8c7b756)
    ensures S.ScheduleAt(2) == S.Schedule(2, 17, 0x242070db)
    ensures S.ScheduleAt(3) == S.Schedule(3, 22, 0xc1bdceee)
    ensures S.ScheduleAt(4) == S.Schedule(4, 7, 0xf57c0faf)
    ensures S.ScheduleAt(5) == S.Schedule(5, 12, 0x4787c62a)
    ensures S.ScheduleAt(6) == S.Schedule(6, 17, 0xa8304613)
    ensures S.ScheduleAt(7) == S.Schedule(7, 22, 0xfd469501)
    ensures S.ScheduleAt(8) == S.Schedule(8, 7, 0x698098d8)
    ensures S.ScheduleAt(9) == S.Schedule(9, 12, 0x8b44f7af)
    ensures S.ScheduleAt(10) == S.Schedule(10, 17, 0xffff5bb1)
    ensures S.ScheduleAt(11) == S.Schedule(11, 22, 0x895cd7be)
    ensures S.ScheduleAt(12) == S.Schedule(12, 7, 0x6b901122)
    ensures S.ScheduleAt(13) == S.Schedule(13, 12, 0xfd987193)
    ensures S.ScheduleAt(14) == S.Schedule(14, 17, 0xa679438e)
    ensures S.ScheduleAt(15) == S.Schedule(15, 22, 0x49b40821)
  {
    hide S.T2, S.T3, S.T4;
  }

  lemma Row2()
    ensures S.ScheduleAt(16) == S.Schedule(1, 5, 0xf61e2562)
    ensures S.ScheduleAt(17) == S.Schedule(6, 9, 0xc040b340)
    ensures S.ScheduleAt(18) == S.Schedule(11, 14, 0x265e5a51)
    ensures S.ScheduleAt(19) == S.Schedule(0, 20, 0xe9b6c7aa)
    ensures S.ScheduleAt(20) == S.Schedule(5, 5, 0xd62f105d)
    ensures S.ScheduleAt(21) == S.Schedule(10, 9, 0x02441453)
    ensures S.ScheduleAt(22) == S.Schedule(15, 14, 0xd8a1e681)
    ensures S.ScheduleAt(23) == S.Schedule(4, 20, 0xe7d3fbc8)
    ensures S.ScheduleAt(24) == S.Schedule(9, 5, 0x21e1cde6)
    ensures S.ScheduleAt(25) == S.Schedule(14, 9, 0xc33707d6)
    ensures S.ScheduleAt(26) == S.Schedule(3, 14, 0xf4d50d87)
    ensures S.ScheduleAt(27) == S.Schedule(8, 20, 0x455a14ed)
    ensures S.ScheduleAt(28) == S.Schedule(13, 5, 0xa9e3e905)
    ensures S.ScheduleAt(29) == S.Schedule(2, 9, 0xfcefa3f8)
    ensures S.ScheduleAt(30) == S.Schedule(7, 14, 0x676f02d9)
    ensures S.ScheduleAt(31) == S.Schedule(12, 20, 0x8d2a4c8a)
  {
    hide S.T1, S.T3, S.T4;
  }

  lemma Row3()
    ensures S.ScheduleAt(32) == S.Schedule(5, 4, 0xfffa3942)
    ensures S.ScheduleAt(33) == S.Schedule(8, 11, 0x8771f681)
    ensures S.ScheduleAt(34) == S.Schedule(11, 16, 0x6d9d6122)
    ensures S.ScheduleAt(35) == S.Schedule(14, 23, 0xfde5380c)
    ensures S.ScheduleAt(36) == S.Schedule(1, 4, 0xa4beea44)
    ensures S.ScheduleAt(37) == S.Schedule(4, 11, 0x4bdecfa9)
    ensures S.ScheduleAt(38) == S.Schedule(7, 16, 0xf6bb4b60)
    ensures S.ScheduleAt(39) == S.Schedule(10, 23, 0xbebfbc70)
    ensures S.ScheduleAt(40) == S.Schedule(13, 4, 0x289b7ec6)
    ensures S.ScheduleAt(41) == S.Schedule(0, 11, 0xeaa127fa)
    ensures S.ScheduleAt(42) == S.Schedule(3, 16, 0xd4ef3085)
    ensures S.ScheduleAt(43) == S.Schedule(6, 23, 0x04881d05)
    ensures S.ScheduleAt(44) == S.Schedule(9, 4, 0xd9d4d039)
    ensures S.ScheduleAt(45) == S.Schedule(12, 11, 0xe6db99e5)
    ensures S.ScheduleAt(46) == S.Schedule(15, 16, 0x1fa27cf8)
    ensures S.ScheduleAt(47) == S.Schedule(2, 23, 0xc4ac5665)
  {
    hide S.T1, S.T2, S.T4;
  }

  lemma Row4()
    ensures S.ScheduleAt(48) == S.Schedule(0, 6, 0xf4292244)
    ensures S.ScheduleAt(49) == S.Schedule(7, 10, 0x432aff97)
    ensures S.ScheduleAt(50) == S.Schedule(14, 15, 0xab9423a7)
    ensures S.ScheduleAt(51) == S.Schedule(5, 21, 0xfc93a039)
    ensures S.ScheduleAt(52) == S.Schedule(12, 6, 0x655b59c3)
    ensures S.ScheduleAt(53) == S.Schedule(3, 10, 0x8f0ccc92)
    ensures S.ScheduleAt(54) == S.Schedule(10, 15, 0xffeff47d)
    ensures S.ScheduleAt(55) == S.Schedule(1, 21, 0x85845dd1)
    ensures S.ScheduleAt(56) == S.Schedule(8, 6, 0x6fa87e4f)
    ensures S.ScheduleAt(57) == S.Schedule(15, 10, 0xfe2ce6e0)
    ensures S.ScheduleAt(58) == S.Schedule(6, 15, 0xa3014314)
    ensures S.ScheduleAt(59) == S.Schedule(13, 21, 0x4e0811a1)
    ensures S.ScheduleAt(60) == S.Schedule(4, 6, 0xf7537e82)
    ensures S.ScheduleAt(61) == S.Schedule(11, 10, 0xbd3af235)
    ensures S.ScheduleAt(62) == S.Schedule(2, 15, 0x2ad7d2bb)
    ensures S.ScheduleAt(63) == S.Schedule(9, 21, 0xeb86d391)
  {
    hide S.T1, S.T2, S.T3;
  }

  method Round1(width: nat, a0: nat, b0: nat, c0: nat, d0: nat, x: seq<nat>,
                ghost r: S.Chain, ghost xs: seq<nat>)
      returns (a: nat, b: nat, c: nat, d: nat)
    requires width >= 32 && Loaded(x, xs) && Low4(a0, b0, c0, d0) == S.Registers(r, xs, 0)
    ensures Low4(a, b, c, d) == S.Registers(r, xs, 16)
  {
    hide F, S.F, S.G, S.H, S.I, Low, Low4, S.Registers;
    Row1();
    hide S.ScheduleAt;
    a, b, c, d := a0, b0, c0, d0;
    a := Step(width, F(b, c, d), a, b, x[0], 0xd76aa478, 7, c, d, r, xs, 0);
    d := Step(width, F(a, b, c), d, a, x[1], 0xe8c7b756, 12, b, c, r, xs, 1);
    c := Step(width, F(d, a, b), c, d, x[2], 0x242070db, 17, a, b, r, xs, 2);
    b := Step(width, F(c, d, a), b, c, x[3], 0xc1bdceee, 22, d, a, r, xs, 3);
    a := Step(width, F(b, c, d), a, b, x[4], 0xf57c0faf, 7, c, d, r, xs, 4);
    d := Step(width, F(a, b, c), d, a, x[5], 0x4787c62a, 12, b, c, r, xs, 5);
    c := Step(width, F(d, a, b), c, d, x[6], 0xa8304613, 17, a, b, r, xs, 6);
    b := Step(width, F(c, d, a), b, c, x[7], 0xfd469501, 22, d, a, r, xs, 7);
    a := Step(width, F(b, c, d), a, b, x[8], 0x698098d8, 7, c, d, r, xs, 8);
    d := Step(width, F(a, b, c), d, a, x[9], 0x8b44f7af, 12, b, c, r, xs, 9);
    c := Step(width, F(d, a, b), c, d, x[10], 0xffff5bb1, 17, a, b, r, xs, 10);
    b := Step(width, F(c, d, a), b, c, x[11], 0x895cd7be, 22, d, a, r, xs, 11);
    a := Step(width, F(b, c, d), a, b, x[12], 0x6b901122, 7, c, d, r, xs, 12);
    d := Step(width, F(a, b, c), d, a, x[13], 0xfd987193, 12, b, c, r, xs, 13);
    c := Step(width, F(d, a, b), c, d, x[14], 0xa679438e, 17, a, b, r, xs, 14);
    b := Step(width, F(c, d, a), b, c, x[15], 0x49b40821, 22, d, a, r, xs, 15);
  }

  method Round2(width: nat, a0: nat, b0: nat, c0: nat, d0: nat, x: seq<nat>,
                ghost r: S.Chain, ghost xs: seq<nat>)
      returns (a: nat, b: nat, c: nat, d: nat)
    requires width >= 32 && Loaded(x, xs) && Low4(a0, b0, c0, d0) == S.Registers(r, xs, 16)
    ensures Low4(a, b, c, d) == S.Registers(r, xs, 32)
  {
    hide G, S.F, S.G, S.H, S.I, Low, Low4, S.Registers;
    Row2();
    hide S.ScheduleAt;
    a, b, c, d := a0, b0, c0, d0;
    a := Step(width, G(b, c, d), a, b, x[1], 0xf61e2562, 5, c, d, r, xs, 16);
    d := Step(width, G(a, b, c), d, a, x[6], 0xc040b340, 9, b, c, r, xs, 17);
    c := Step(width, G(d, a, b), c, d, x[11], 0x265e5a51, 14, a, b, r, xs, 18);
    b := Step(width, G(c, d, a), b, c, x[0], 0xe9b6c7aa, 20, d, a, r, xs, 19);
    a := Step(width, G(b, c, d), a, b, x[5], 0xd62f105d, 5, c, d, r, xs, 20);
    d := Step(width, G(a, b, c), d, a, x[10], 0x02441453, 9, b, c, r, xs, 21);
    c := Step(width, G(d, a, b), c, d, x[15], 0xd8a1e681, 14, a, b, r, xs, 22);
    b := Step(width, G(c, d, a), b, c, x[4], 0xe7d3fbc8, 20, d, a, r, xs, 23);
    a := Step(width, G(b, c, d), a, b, x[9], 0x21e1cde6, 5, c, d, r, xs, 24);
    d := Step(width, G(a, b, c), d, a, x[14], 0xc33707d6, 9, b, c, r, xs, 25);
    c := Step(width, G(d, a, b), c, d, x[3], 0xf4d50d87, 14, a, b, r, xs, 26);
    b := Step(width, G(c, d, a), b, c, x[8], 0x455a14ed, 20, d, a, r, xs, 27);
    a := Step(width, G(b, c, d), a, b, x[13], 0xa9e3e905, 5, c, d, r, xs, 28);
    d := Step(width, G(a, b, c), d, a, x[2], 0xfcefa3f8, 9, b, c, r, xs, 29);
    c := Step(width, G(d, a, b), c, d, x[7], 0x676f02d9, 14, a, b, r, xs, 30);
    b := Step(width, G(c, d, a), b, c, x[12], 0x8d2a4c8a, 20, d, a, r, xs, 31);
  }

  method Round3(width: nat, a0: nat, b0: nat, c0: nat, d0: nat, x: seq<nat>,
                ghost r: S.Chain, ghost xs: seq<nat>)
      returns (a: nat, b: nat, c: nat, d: nat)
    requires width >= 32 && Loaded(x, xs) && Low4(a0, b0, c0, d0) == S.Registers(r, xs, 32)
    ensures Low4(a, b, c, d) == S.Registers(r, xs, 48)
  {
    hide H, H2, S.F, S.G, S.H, S.I, Low, Low4, S.Registers;
    Row3();
    hide S.ScheduleAt;
    a, b, c, d := a0, b0, c0, d0;
    a := Step(width, H(b, c, d), a, b, x[5], 0xfffa3942, 4, c, d, r, xs, 32);
    d := Step(width, H2(a, b, c), d, a, x[8], 0x8771f681, 11, b, c, r, xs, 33);
    c := Step(width, H(d, a, b), c, d, x[11], 0x6d9d6122, 16, a, b, r, xs, 34);
    b := Step(width, H2(c, d, a), b, c, x[14], 0xfde5380c, 23, d, a, r, xs, 35);
    a := Step(width, H(b, c, d), a, b, x[1], 0xa4beea44, 4, c, d, r, xs, 36);
    d := Step(width, H2(a, b, c), d, a, x[4], 0x4bdecfa9, 11, b, c, r, xs, 37);
    c := Step(width, H(d, a, b), c, d, x[7], 0xf6bb4b60, 16, a, b, r, xs, 38);
    b := Step(width, H2(c, d, a), b, c, x[10], 0xbebfbc70, 23, d, a, r, xs, 39);
    a := Step(width, H(b, c, d), a, b, x[13], 0x289b7ec6, 4, c, d, r, xs, 40);
    d := Step(width, H2(a, b, c), d, a, x[0], 0xeaa127fa, 11, b, c, r, xs, 41);
    c := Step(width, H(d, a, b), c, d, x[3], 0xd4ef3085, 16, a, b, r, xs, 42);
    b := Step(width, H2(c, d, a), b, c, x[6], 0x04881d05, 23, d, a, r, xs, 43);
    a := Step(width, H(b, c, d), a, b, x[9], 0xd9d4d039, 4, c, d, r, xs, 44);
    d := Step(width, H2(a, b, c), d, a, x[12], 0xe6db99e5, 11, b, c, r, xs, 45);
    c := Step(width, H(d, a, b), c, d, x[15], 0x1fa27cf8, 16, a, b, r, xs, 46);
    b := Step(width, H2(c, d, a), b, c, x[2], 0xc4ac5665, 23, d, a, r, xs, 47);
  }

  method Round4(width: nat, a0: nat, b0: nat, c0: nat, d0: nat, x: seq<nat>,
                ghost r: S.Chain, ghost xs: seq<nat>)
      returns (a: nat, b: nat, c: nat, d: nat)
    requires width >= 32 && Loaded(x, xs) && Low4(a0, b0, c0, d0) == S.Registers(r, xs, 48)
    ensures Low4(a, b, c, d) == S.Registers(r, xs, 64)
  {
    hide I, S.F, S.G, S.H, S.I, Low, Low4, S.Registers;
    Row4();
    hide S.ScheduleAt;
    a, b, c, d := a0, b0, c0, d0;
    a := Step(width, I(b, c, d, width), a, b, x[0], 0xf4292244, 6, c, d, r, xs, 48);
    d := Step(width, I(a, b, c, width), d, a, x[7], 0x432aff97, 10, b, c, r, xs, 49);
    c := Step(width, I(d, a, b, width), c, d, x[14], 0xab9423a7, 15, a, b, r, xs, 50);
    b := Step(width, I(c, d, a, width), b, c, x[5], 0xfc93a039, 21, d, a, r, xs, 51);
    a := Step(width, I(b, c, d, width), a, b, x[12], 0x655b59c3, 6, c, d, r, xs, 52);
    d := Step(width, I(a, b, c, width), d, a, x[3], 0x8f0ccc92, 10, b, c, r, xs, 53);
    c := Step(width, I(d, a, b, width), c, d, x[10], 0xffeff47d, 15, a, b, r, xs, 54);
    b := Step(width, I(c, d, a, width), b, c, x[1], 0x85845dd1, 21, d, a, r, xs, 55);
    a := Step(width, I(b, c, d, width), a, b, x[8], 0x6fa87e4f, 6, c, d, r, xs, 56);
    d := Step(width, I(a, b, c, width), d, a, x[15], 0xfe2ce6e0, 10, b, c, r, xs, 57);
    c := Step(width, I(d, a, b, width), c, d, x[6], 0xa3014314, 15, a, b, r, xs, 58);
    b := Step(width, I(c, d, a, width), b, c, x[13], 0x4e0811a1, 21, d, a, r, xs, 59);
    a := Step(width, I(b, c, d, width), a, b, x[4], 0xf7537e82, 6, c, d, r, xs, 60);
    d := Step(width, I(a, b, c, width), d, a, x[11], 0xbd3af235, 10, b, c, r, xs, 61);
    c := Step(width, I(d, a, b, width), c, d, x[2], 0x2ad7d2bb, 15, a, b, r, xs, 62);
    b := Step(width, I(c, d, a, width), b, c, x[9], 0xeb86d391, 21, d, a, r, xs, 63);
  }

  // ---- whole blocks ----

  /** Four bytes read as the code reads them: shifted into place and or-ed together. */
  function LoadWord(b0: byte, b1: byte, b2: byte, b3: byte): (x: nat)
    ensures x == Word(b0, b1, b2, b3) && Fits(x, 32)
  {
    LoadedIsWord(b0, b1, b2, b3);
    Or(Or(Or(b0 as nat, Shl(b1 as nat, 8)), Shl(b2 as nat, 16)), Shl(b3 as nat, 24))
  }

  lemma LoadedIsWord(b0: byte, b1: byte, b2: byte, b3: byte)
    ensures var x := Or(Or(Or(b0 as nat, Shl(b1 as nat, 8)), Shl(b2 as nat, 16)), Shl(b3 as nat, 24));
      x == Word(b0, b1, b2, b3) && Fits(x, 32)
  {
    hide Or, Shl, Fits;
    ByteFits(b0);
    OrSwap(b0 as nat, Shl(b1 as nat, 8)); OrIsSum(b1 as nat, b0 as nat, 8); Shl8(b1 as nat);
    var two := b0 as nat + 0x100 * b1 as nat;
    TwoFit(two, 16); OrSwap(two, Shl(b2 as nat, 16)); OrIsSum(b2 as nat, two, 16); Shl32(b2 as nat);
    var three := two + 0x1_0000 * b2 as nat;
    TwoFit(three, 24); OrSwap(three, Shl(b3 as nat, 24)); OrIsSum(b3 as nat, three, 24); Shl32(b3 as nat);
    TwoFit(three + 0x100_0000 * b3 as nat, 32);
  }

  lemma ByteFits(b: byte)
    ensures Fits(b as nat, 8)
  {
    TwoFit(b as nat, 8);
  }

  lemma TwoFit(x: nat, w: nat)
    requires w in {8, 16, 24, 32}
    requires x < match w case 8 => 0x100 case 16 => 0x1_0000 case 24 => 0x100_0000 case _ => 0x1_0000_0000
    ensures Fits(x, w)
  {
    OnesIsShl(w);
    Shl8(1);
    Shl32(1);
    SmallFits(x, w);
  }

  lemma {:induction false} OrSwap(x: nat, y: nat)
    ensures Or(x, y) == Or(y, x)
  {
    if x != 0 || y != 0 { OrSwap(x / 2, y / 2); }
  }

  lemma {:induction false} FoldSplits(r: S.Chain, u: seq<byte>, v: seq<byte>)
    requires |u| % 64 == 0
    ensures S.Fold(r, u + v) == S.Fold(S.Fold(r, u), v)
    decreases |u|
  {
    hide S.Compress;
    if u == [] {
      assert u + v == v;
    } else {
      assert (u + v)[..64] == u[..64] && (u + v)[64..] == u[64..] + v;
      FoldSplits(S.Compress(r, u[..64]), u[64..], v);
    }
  }
}
