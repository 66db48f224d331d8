/** Bytes, sequences of them, and 32-bit numbers stored low-order byte first. */
module Bytes {

  newtype byte = x: int | 0 <= x < 256

  const M32: nat := 0x1_0000_0000

  /** The number stored in four bytes. */
  function Word(b0: byte, b1: byte, b2: byte, b3: byte): (x: nat)
    ensures x < M32
  {
    b0 as nat + 0x100 * b1 as nat + 0x1_0000 * b2 as nat + 0x100_0000 * b3 as nat
  }

  /** The four bytes of a number's low 32 bits. */
  function WordBytes(x: nat): (b: seq<byte>)
    ensures |b| == 4
  {
    [(x % 0x100) as byte, (x / 0x100 % 0x100) as byte, (x / 0x1_0000 % 0x100) as byte, (x / 0x100_0000 % 0x100) as byte]
  }

  lemma WordRoundTrip(x: nat)
    requires x < M32
    ensures var b := WordBytes(x); Word(b[0], b[1], b[2], b[3]) == x
  {
    hide M32;
    Digits(x);
  }

  /** A 32-bit number from its digits to base 256. */
  lemma Digits(x: nat)
    requires x < M32
    ensures x == x % 0x100 + 0x100 * (x / 0x100 % 0x100) + 0x1_0000 * (x / 0x1_0000 % 0x100) +
                 0x100_0000 * (x / 0x100_0000 % 0x100)
  {
    var q1 := x / 0x100;
    var q2 := q1 / 0x100;
    assert x / 0x1_0000 == q2;
    assert x / 0x100_0000 == q2 / 0x100;
    assert q2 / 0x100 < 0x100;
  }

  // ---- sequences of bytes ----

  const NEWLINE: byte := 10

  /** The place of the first c, or the length. */
  function Find(s: seq<byte>, c: byte): (k: nat)
    ensures k <= |s| && c !in s[..k] && (k < |s| ==> s[k] == c)
  {
    if s == [] || s[0] == c then 0 else
      var k := Find(s[1..], c);
      assert s[..k + 1] == [s[0]] + s[1..][..k];
      k + 1
  }

  lemma {:induction false} FindFirst(s: seq<byte>, c: byte, k: nat)
    requires k <= |s| && c !in s[..k] && (k < |s| ==> s[k] == c)
    ensures Find(s, c) == k
  {
    if s != [] && k != 0 {
      assert s[0] == s[..k][0] && s[1..][..k - 1] == s[..k][1..];
      FindFirst(s[1..], c, k - 1);
    }
  }

  function Concat(parts: seq<seq<byte>>): seq<byte> {
    if parts == [] then [] else parts[0] + Concat(parts[1..])
  }

  lemma {:induction false} ConcatAppend(parts: seq<seq<byte>>, last: seq<byte>)
    ensures Concat(parts + [last]) == Concat(parts) + last
  {
    if parts == [] {
      assert [last][1..] == [];
    } else {
      assert (parts + [last])[1..] == parts[1..] + [last];
      ConcatAppend(parts[1..], last);
    }
  }

  lemma Reassociate<T>(a: seq<T>, b: seq<T>, c: seq<T>)
    ensures a + (b + c) == a + b + c
  {
  }
}
