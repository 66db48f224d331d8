/** Natural numbers bit by bit: the bitwise operations, and what they do to low bits. */
module Bits {

  function And(x: nat, y: nat): nat {
    if x == 0 && y == 0 then 0
    else 2 * And(x / 2, y / 2) + if x % 2 == 1 && y % 2 == 1 then 1 else 0
  }

  function Or(x: nat, y: nat): nat {
    if x == 0 && y == 0 then 0
    else 2 * Or(x / 2, y / 2) + if x % 2 == 1 || y % 2 == 1 then 1 else 0
  }

  function Xor(x: nat, y: nat): nat {
    if x == 0 && y == 0 then 0
    else 2 * Xor(x / 2, y / 2) + if x % 2 != y % 2 then 1 else 0
  }

  /** The low w bits. */
  function Low(x: nat, w: nat): nat {
    if w == 0 then 0 else 2 * Low(x / 2, w - 1) + x % 2
  }

  /** The complement of the low w bits. */
  function Not(x: nat, w: nat): nat {
    if w == 0 then 0 else 2 * Not(x / 2, w - 1) + (1 - x % 2)
  }

  function Shl(x: nat, s: nat): nat { if s == 0 then x else 2 * Shl(x, s - 1) }

  function Shr(x: nat, s: nat): nat { if s == 0 then x else Shr(x / 2, s - 1) }

  function Ones(w: nat): nat { if w == 0 then 0 else 2 * Ones(w - 1) + 1 }

  // ---- last bit and the rest ----

  lemma AndParts(x: nat, y: nat)
    ensures And(x, y) / 2 == And(x / 2, y / 2) && And(x, y) % 2 == (if x % 2 == 1 && y % 2 == 1 then 1 else 0)
  {
  }

  lemma OrParts(x: nat, y: nat)
    ensures Or(x, y) / 2 == Or(x / 2, y / 2) && Or(x, y) % 2 == (if x % 2 == 1 || y % 2 == 1 then 1 else 0)
  {
  }

  lemma XorParts(x: nat, y: nat)
    ensures Xor(x, y) / 2 == Xor(x / 2, y / 2) && Xor(x, y) % 2 == (if x % 2 != y % 2 then 1 else 0)
  {
  }

  // ---- the low bits of a result depend on the low bits of the operands ----

  lemma LowParts(x: nat, w: nat)
    requires w > 0
    ensures Low(x, w) / 2 == Low(x / 2, w - 1) && Low(x, w) % 2 == x % 2
  {
  }

  lemma NotParts(x: nat, w: nat)
    requires w > 0
    ensures Not(x, w) / 2 == Not(x / 2, w - 1) && Not(x, w) % 2 == 1 - x % 2
  {
  }

  lemma {:induction false} LowAnd(x: nat, y: nat, w: nat)
    ensures Low(And(x, y), w) == And(Low(x, w), Low(y, w))
    decreases w
  {
    if w > 0 {
      LowAnd(x / 2, y / 2, w - 1);
      hide Low, And;
      LowParts(x, w); LowParts(y, w); LowParts(And(x, y), w);
      AndParts(x, y); AndParts(Low(x, w), Low(y, w));
    }
  }

  lemma {:induction false} LowOr(x: nat, y: nat, w: nat)
    ensures Low(Or(x, y), w) == Or(Low(x, w), Low(y, w))
    decreases w
  {
    if w > 0 {
      LowOr(x / 2, y / 2, w - 1);
      hide Low, Or;
      LowParts(x, w); LowParts(y, w); LowParts(Or(x, y), w);
      OrParts(x, y); OrParts(Low(x, w), Low(y, w));
    }
  }

  lemma {:induction false} LowXor(x: nat, y: nat, w: nat)
    ensures Low(Xor(x, y), w) == Xor(Low(x, w), Low(y, w))
    decreases w
  {
    if w > 0 {
      LowXor(x / 2, y / 2, w - 1);
      hide Low, Xor;
      LowParts(x, w); LowParts(y, w); LowParts(Xor(x, y), w);
      XorParts(x, y); XorParts(Low(x, w), Low(y, w));
    }
  }

  lemma {:induction false} LowNot(x: nat, w: nat, v: nat)
    requires w <= v
    ensures Low(Not(x, v), w) == Not(Low(x, w), w)
    decreases w
  {
    if w > 0 {
      LowNot(x / 2, w - 1, v - 1);
      hide Low, Not;
      NotParts(x, v); NotParts(Low(x, w), w); LowParts(x, w); LowParts(Not(x, v), w);
    }
  }

  lemma {:induction false} LowLow(x: nat, w: nat, v: nat)
    requires w <= v
    ensures Low(Low(x, v), w) == Low(x, w)
    decreases w
  {
    if w > 0 { LowLow(x / 2, w - 1, v - 1); }
  }

  lemma LowDouble(h: nat, b: nat, w: nat)
    requires b <= 1 && w > 0
    ensures Low(2 * h + b, w) == 2 * Low(h, w - 1) + b
  {
    assert (2 * h + b) / 2 == h;
  }

  lemma {:induction false} LowCarry(x: nat, y: nat, c: nat, w: nat)
    requires c <= 1
    ensures Low(x + y + c, w) == Low(Low(x, w) + Low(y, w) + c, w)
    decreases w, 1
  {
    if w > 0 {
      CarryBit(x / 2, x % 2, y / 2, y % 2, c, w);
      assert 2 * (x / 2) + x % 2 == x && 2 * (y / 2) + y % 2 == y;
    }
  }

  /** One bit of an addition: the sum of the last bits leaves one and carries one. */
  lemma {:induction false} CarryBit(xh: nat, xb: nat, yh: nat, yb: nat, c: nat, w: nat)
    requires xb <= 1 && yb <= 1 && c <= 1 && w > 0
    ensures var x, y := 2 * xh + xb, 2 * yh + yb; Low(x + y + c, w) == Low(Low(x, w) + Low(y, w) + c, w)
    decreases w, 0
  {
    hide Low;
    var carry := if xb + yb + c >= 2 then 1 else 0;
    var bit := xb + yb + c - 2 * carry;
    LowDouble(xh, xb, w);
    LowDouble(yh, yb, w);
    LowCarry(xh, yh, carry, w - 1);
    LowDouble(xh + yh + carry, bit, w);
    LowDouble(Low(xh, w - 1) + Low(yh, w - 1) + carry, bit, w);
  }

  lemma LowSum(x: nat, y: nat, w: nat)
    ensures Low(x + y, w) == Low(Low(x, w) + Low(y, w), w)
  {
    LowCarry(x, y, 0, w);
  }

  lemma {:induction false} LowShl(x: nat, s: nat, w: nat)
    ensures Low(Shl(x, s), w) == Low(Shl(Low(x, w), s), w)
    decreases s
  {
    if s == 0 {
      LowLow(x, w, w);
    } else if w > 0 {
      LowShl(x, s - 1, w - 1);
      LowShl(Low(x, w), s - 1, w - 1);
      LowLow(x, w - 1, w);
    }
  }

  lemma {:induction false} LowShr(x: nat, s: nat, j: nat, w: nat)
    requires s + j <= w
    ensures Low(Shr(x, s), j) == Low(Shr(Low(x, w), s), j)
  {
    if s == 0 {
      LowLow(x, j, w);
    } else {
      assert Low(x, w) / 2 == Low(x / 2, w - 1);
      LowShr(x / 2, s - 1, j, w - 1);
    }
  }

  // ---- numbers that fit ----

  predicate Fits(x: nat, w: nat) { Low(x, w) == x }

  lemma {:induction false} FitsMore(x: nat, w: nat, v: nat)
    requires Fits(x, w) && w <= v
    ensures Fits(x, v)
    decreases v
  {
    if v > 0 {
      if w > 0 { FitsMore(x / 2, w - 1, v - 1); } else { FitsMore(0, 0, v - 1); }
    }
  }

  lemma {:induction false} FitsShr(x: nat, s: nat, w: nat)
    requires Fits(x, w)
    ensures Fits(Shr(x, s), w)
  {
    if s > 0 && w > 0 {
      FitsMore(x / 2, w - 1, w);
      FitsShr(x / 2, s - 1, w);
    } else if s > 0 {
      FitsShr(0, s - 1, 0);
    }
  }

  lemma FitsLow(x: nat, w: nat)
    ensures Fits(Low(x, w), w)
  {
    LowLow(x, w, w);
  }

  /** Masking with ones keeps the low bits. */
  lemma {:induction false} AndOnes(x: nat, w: nat)
    ensures And(x, Ones(w)) == Low(x, w)
    decreases w
  {
    if w > 0 {
      AndOnes(x / 2, w - 1);
    } else {
      AndZero(x);
    }
  }

  lemma {:induction false} AndZero(x: nat)
    ensures And(x, 0) == 0
  {
    if x > 0 { AndZero(x / 2); }
  }

  /** Or of numbers without a common bit is their sum. */
  lemma {:induction false} OrIsSum(u: nat, v: nat, s: nat)
    requires Fits(v, s)
    ensures Or(Shl(u, s), v) == Shl(u, s) + v
  {
    if s == 0 {
      OrZero(u);
    } else {
      OrIsSum(u, v / 2, s - 1);
    }
  }

  lemma {:induction false} OrZero(u: nat)
    ensures Or(u, 0) == u
  {
    if u > 0 { OrZero(u / 2); }
  }

  // ---- low bits and remainders ----

  lemma {:induction false} Split(x: nat, w: nat)
    ensures x == Shl(Shr(x, w), w) + Low(x, w)
    decreases w
  {
    if w > 0 { Split(x / 2, w - 1); }
  }

  lemma {:induction false} LowIsSmall(x: nat, w: nat)
    ensures Low(x, w) <= Ones(w)
    decreases w
  {
    if w > 0 { LowIsSmall(x / 2, w - 1); }
  }

  lemma {:induction false} SmallFits(x: nat, w: nat)
    requires x <= Ones(w)
    ensures Fits(x, w)
    decreases w
  {
    if w > 0 { SmallFits(x / 2, w - 1); }
  }

  lemma {:induction false} ShlSplit(u: nat, m: nat, n: nat)
    ensures Shl(u, m + n) == Shl(Shl(u, m), n)
  {
    if n > 0 { ShlSplit(u, m, n - 1); }
  }

  lemma Shl8(u: nat)
    ensures Shl(u, 8) == 0x100 * u
  {
    assert Shl(u, 1) == 2 * u;
    assert Shl(u, 3) == 8 * u;
    assert Shl(u, 5) == 32 * u;
    assert Shl(u, 7) == 128 * u;
  }

  lemma Shl32(u: nat)
    ensures Shl(u, 16) == 0x1_0000 * u && Shl(u, 24) == 0x100_0000 * u && Shl(u, 32) == 0x1_0000_0000 * u
  {
    Shl8(u);
    Shl8(0x100 * u);
    Shl8(0x1_0000 * u);
    Shl8(0x100_0000 * u);
    ShlSplit(u, 8, 8);
    ShlSplit(u, 16, 8);
    ShlSplit(u, 24, 8);
  }

  lemma {:induction false} OnesIsShl(w: nat)
    ensures Ones(w) == Shl(1, w) - 1
  {
    if w > 0 { OnesIsShl(w - 1); }
  }

  lemma Low32(x: nat)
    ensures Low(x, 32) == x % 0x1_0000_0000
    ensures Ones(32) == 0xffff_ffff
  {
    hide Low, Ones, Shl, Shr;
    Split(x, 32);
    LowIsSmall(x, 32);
    Shl32(Shr(x, 32));
    Shl32(1);
    OnesIsShl(32);
  }

  // ---- shifts within a width ----

  lemma {:induction false} LowOfShl(x: nat, s: nat, w: nat)
    requires s <= w
    ensures Low(Shl(x, s), w) == Shl(Low(x, w - s), s)
    decreases s
  {
    if s > 0 {
      LowOfShl(x, s - 1, w - 1);
      LowDouble(Shl(x, s - 1), 0, w);
    }
  }

  lemma {:induction false} ShrFits(x: nat, s: nat, w: nat)
    requires Fits(x, w) && s <= w
    ensures Fits(Shr(x, s), w - s)
    decreases s
  {
    if s > 0 {
      LowParts(x, w);
      ShrFits(x / 2, s - 1, w - 1);
    }
  }
}
