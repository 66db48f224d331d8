/** Base 16: lower-case digits out; either case, and quietly anything else, in. */
module Hex {
  import opened Bytes

  /** The character of a digit. */
  function Digit(v: nat): (c: byte)
    requires v < 16
  {
    if v < 10 then (48 + v) as byte else (87 + v) as byte
  }

  /** A character's value.  Characters above 'f' and those below their base count as zero. */
  function Value(c: byte): (v: nat)
    ensures v < 16
  {
    if c <= 57 then
      if c < 48 then 0 else (c - 48) as nat
    else if c <= 70 then (c - 55) as nat
    else if c <= 102 then
      if c < 87 then 0 else (c - 87) as nat
    else 0
  }

  predicate LowerHex(c: byte) { 48 <= c <= 57 || 97 <= c <= 102 }

  lemma DigitValue(v: nat)
    requires v < 16
    ensures Value(Digit(v)) == v && LowerHex(Digit(v))
  {
  }

  lemma ValueDigit(c: byte)
    ensures Digit(Value(c)) == c <==> LowerHex(c)
  {
  }

  /** The number in big-endian bytes. */
  function FromBytes(b: seq<nat>): nat
    requires |b| == 4
  {
    b[0] * 0x100_0000 + b[1] * 0x1_0000 + b[2] * 0x100 + b[3]
  }

  function Pair(s: seq<byte>, i: nat): (v: nat)
    requires i + 1 < |s|
    ensures v < 0x100
  {
    Value(s[i]) * 16 + Value(s[i + 1])
  }

  function FromHex(s: seq<byte>): (x: nat)
    requires |s| == 8
    ensures x < M32
  {
    FromBytes([Pair(s, 0), Pair(s, 2), Pair(s, 4), Pair(s, 6)])
  }

  function Hex8(v: nat): (s: seq<byte>)
    requires v < 0x100
    ensures |s| == 2
  {
    [Digit(v / 16), Digit(v % 16)]
  }

  function ToHex(x: nat): (s: seq<byte>)
    requires x < M32
    ensures |s| == 8
  {
    Hex8(x / 0x100_0000) + Hex8(x / 0x1_0000 % 0x100) + Hex8(x / 0x100 % 0x100) + Hex8(x % 0x100)
  }

  method WriteHex8(v: nat, result: array<byte>, at: nat)
    requires v < 0x100 && at + 2 <= result.Length
    modifies result
    ensures result[..at + 2] == old(result[..at]) + Hex8(v) && result[at + 2..] == old(result[at + 2..])
  {
    result[at] := Digit(v / 16);
    result[at + 1] := Digit(v % 16);
  }

  method WriteHex32(x: nat, result: array<byte>, at: nat)
    requires x < M32 && at + 8 <= result.Length
    modifies result
    ensures result[..] == old(result[..at]) + ToHex(x) + old(result[at + 8..])
  {
    hide Hex8;
    ghost var before := result[..];
    WriteHex8(x / 0x100_0000, result, at);
    assert result[at + 8..] == before[at + 8..];
    WriteHex8(x / 0x1_0000 % 0x100, result, at + 2);
    assert result[at + 8..] == before[at + 8..];
    WriteHex8(x / 0x100 % 0x100, result, at + 4);
    assert result[at + 8..] == before[at + 8..];
    WriteHex8(x % 0x100, result, at + 6);
    assert result[..at + 8] == before[..at] + ToHex(x);
    assert result[..] == result[..at + 8] + result[at + 8..];
  }

  lemma PairOfHex8(v: nat, before: seq<byte>, rest: seq<byte>)
    requires v < 0x100
    ensures Pair(before + Hex8(v) + rest, |before|) == v
  {
    DigitValue(v / 16);
    DigitValue(v % 16);
    assert v == v / 16 * 16 + v % 16;
    var s := before + Hex8(v) + rest;
    assert s[|before|] == Digit(v / 16) && s[|before| + 1] == Digit(v % 16);
  }

  /** Decoding undoes encoding. */
  lemma FromHexUndoesToHex(x: nat)
    requires x < M32
    ensures FromHex(ToHex(x)) == x
  {
    hide Hex8, Pair;
    var b0, b1, b2, b3 := x / 0x100_0000, x / 0x1_0000 % 0x100, x / 0x100 % 0x100, x % 0x100;
    var h := ToHex(x);
    PairOfHex8(b0, [], Hex8(b1) + Hex8(b2) + Hex8(b3));
    PairOfHex8(b1, Hex8(b0), Hex8(b2) + Hex8(b3));
    PairOfHex8(b2, Hex8(b0) + Hex8(b1), Hex8(b3));
    PairOfHex8(b3, Hex8(b0) + Hex8(b1) + Hex8(b2), []);
    assert h == [] + Hex8(b0) + (Hex8(b1) + Hex8(b2) + Hex8(b3));
    assert h == Hex8(b0) + Hex8(b1) + (Hex8(b2) + Hex8(b3));
    assert h == Hex8(b0) + Hex8(b1) + Hex8(b2) + Hex8(b3) + [];
    assert Pair(h, 0) == b0 && Pair(h, 2) == b1 && Pair(h, 4) == b2 && Pair(h, 6) == b3;
    BytesOf(x);
  }

  lemma BytesOf(x: nat)
    requires x < M32
    ensures FromBytes([x / 0x100_0000, x / 0x1_0000 % 0x100, x / 0x100 % 0x100, x % 0x100]) == x
  {
    assert x == 0x100 * (x / 0x100) + x % 0x100;
    assert x / 0x100 == 0x100 * (x / 0x1_0000) + x / 0x100 % 0x100;
    assert x / 0x1_0000 == 0x100 * (x / 0x100_0000) + x / 0x1_0000 % 0x100;
  }

  lemma BytesBack(b0: nat, b1: nat, b2: nat, b3: nat)
    requires b0 < 0x100 && b1 < 0x100 && b2 < 0x100 && b3 < 0x100
    ensures var x := FromBytes([b0, b1, b2, b3]);
      x < M32 && x / 0x100_0000 == b0 && x / 0x1_0000 % 0x100 == b1 && x / 0x100 % 0x100 == b2 && x % 0x100 == b3
  {
    var x := FromBytes([b0, b1, b2, b3]);
    assert x / 0x100 == b0 * 0x1_0000 + b1 * 0x100 + b2;
    assert x / 0x1_0000 == b0 * 0x100 + b1;
  }

  lemma Hex8OfPair(c: byte, d: byte)
    ensures Hex8(Value(c) * 16 + Value(d)) == [c, d] <==> LowerHex(c) && LowerHex(d)
  {
    ValueDigit(c);
    ValueDigit(d);
    var v := Value(c) * 16 + Value(d);
    assert v / 16 == Value(c) && v % 16 == Value(d);
  }

  lemma FourPairs(a: seq<byte>, b: seq<byte>, c: seq<byte>, d: seq<byte>)
    requires |a| == |b| == |c| == |d| == 2
    ensures var t := a + b + c + d; t[0..2] == a && t[2..4] == b && t[4..6] == c && t[6..8] == d
  {
  }

  /** Encoding undoes decoding exactly on lower-case base 16. */
  lemma ToHexUndoesFromHexIff(s: seq<byte>)
    requires |s| == 8
    ensures ToHex(FromHex(s)) == s <==> forall i | 0 <= i < 8 :: LowerHex(s[i])
  {
    hide Hex8, Value, LowerHex, FromBytes;
    BytesBack(Pair(s, 0), Pair(s, 2), Pair(s, 4), Pair(s, 6));
    Hex8OfPair(s[0], s[1]);
    Hex8OfPair(s[2], s[3]);
    Hex8OfPair(s[4], s[5]);
    Hex8OfPair(s[6], s[7]);
    var t := ToHex(FromHex(s));
    FourPairs(Hex8(Pair(s, 0)), Hex8(Pair(s, 2)), Hex8(Pair(s, 4)), Hex8(Pair(s, 6)));
    assert s[0..2] == [s[0], s[1]] && s[2..4] == [s[2], s[3]] && s[4..6] == [s[4], s[5]] && s[6..8] == [s[6], s[7]];
    assert s == s[0..2] + s[2..4] + s[4..6] + s[6..8];
    assert t == t[0..2] + t[2..4] + t[4..6] + t[6..8];
  }

  // ---- the numbers these texts stand for ----

  /** The sixteen digits in order, in ASCII. */
  const DIGITS: seq<byte> := [48, 49, 50, 51, 52, 53, 54, 55, 56, 57, 97, 98, 99, 100, 101, 102]

  /** A text read as a number to base 16, first digit first, by each digit's place among the sixteen. */
  function Numeral(s: seq<byte>): nat {
    if s == [] then 0 else 16 * Numeral(s[..|s| - 1]) + Find(DIGITS, s[|s| - 1])
  }

  lemma DigitIsListed(v: nat)
    requires v < 16
    ensures Digit(v) == DIGITS[v] && Find(DIGITS, Digit(v)) == v
  {
    FindFirst(DIGITS, Digit(v), v);
  }

  lemma NumeralMore(s: seq<byte>, v: nat)
    requires v < 0x100
    ensures Numeral(s + Hex8(v)) == 0x100 * Numeral(s) + v
  {
    var t := s + [Digit(v / 16)];
    assert s + Hex8(v) == t + [Digit(v % 16)];
    assert (t + [Digit(v % 16)])[..|t|] == t && t[..|s|] == s;
    DigitIsListed(v / 16);
    DigitIsListed(v % 16);
    hide Digit, Find;
    assert Numeral(t) == 16 * Numeral(s) + v / 16;
  }

  /** The text of a number is that number to base 16, in eight digits, with small letters. */
  lemma ToHexIsBase16(x: nat)
    requires x < M32
    ensures Numeral(ToHex(x)) == x && AllListed(ToHex(x))
  {
    var b0, b1, b2, b3 := x / 0x100_0000, x / 0x1_0000 % 0x100, x / 0x100 % 0x100, x % 0x100;
    FourNumerals(b0, b1, b2, b3);
    FourListed(b0, b1, b2, b3);
    BytesOf(x);
    hide Hex8, Numeral, AllListed;
  }

  predicate AllListed(s: seq<byte>) { forall i | 0 <= i < |s| :: s[i] in DIGITS }

  lemma FourNumerals(b0: nat, b1: nat, b2: nat, b3: nat)
    requires b0 < 0x100 && b1 < 0x100 && b2 < 0x100 && b3 < 0x100
    ensures Numeral(Hex8(b0) + Hex8(b1) + Hex8(b2) + Hex8(b3)) == FromBytes([b0, b1, b2, b3])
  {
    assert Numeral([]) == 0;
    hide Hex8, Numeral;
    assert [] + Hex8(b0) == Hex8(b0);
    NumeralMore([], b0);
    NumeralMore(Hex8(b0), b1);
    NumeralMore(Hex8(b0) + Hex8(b1), b2);
    NumeralMore(Hex8(b0) + Hex8(b1) + Hex8(b2), b3);
  }

  lemma FourListed(b0: nat, b1: nat, b2: nat, b3: nat)
    requires b0 < 0x100 && b1 < 0x100 && b2 < 0x100 && b3 < 0x100
    ensures AllListed(Hex8(b0) + Hex8(b1) + Hex8(b2) + Hex8(b3))
  {
    HexIsListed(b0); HexIsListed(b1); HexIsListed(b2); HexIsListed(b3);
    hide Hex8;
  }

  lemma HexIsListed(v: nat)
    requires v < 0x100
    ensures AllListed(Hex8(v))
  {
    DigitIsListed(v / 16);
    DigitIsListed(v % 16);
  }

  /**
   * What a character decodes to: a digit to its place among the sixteen, a capital like its
   * small letter, a character d places before A or a, for d below ten and behind the
   * digits and capitals, to 10 - d, and anything else to zero.
   */
  lemma DecodesTo(c: byte)
    ensures LowerHex(c) ==> Value(c) == Find(DIGITS, c)
    ensures 65 <= c <= 70 ==> Value(c) == Find(DIGITS, c + 32)
    ensures 58 <= c <= 64 ==> Value(c) + (65 - c as nat) == 10
    ensures 88 <= c <= 96 ==> Value(c) + (97 - c as nat) == 10
    ensures !LowerHex(c) && !(58 <= c <= 70) && !(88 <= c <= 96) ==> Value(c) == 0
  {
    hide DIGITS, Find;
    if LowerHex(c) { Place(c); }
    if 65 <= c <= 70 { Place(c + 32); }
  }

  /** The place of a digit among the sixteen. */
  lemma Place(c: byte)
    requires LowerHex(c)
    ensures Find(DIGITS, c) == if c <= 57 then (c - 48) as nat else (c - 87) as nat
  {
    var v := if c <= 57 then (c - 48) as nat else (c - 87) as nat;
    DigitIsListed(v);
    hide DIGITS, Find;
  }
}
