/**
 * The streaming digest: a context of four chaining words, a split length counter
 * and a 64-byte buffer.
 */
module Md5Stream {
  import opened Bits
  import opened Bytes
  import opened Md5
  import S = Md5Spec

  const M29: nat := 0x2000_0000

  /** The number of bytes counted so far, in a 29-bit low part and a high part of the context's width. */
  predicate Counts(lo: nat, hi: nat, n: nat, width: nat) { lo == n % M29 && hi == Low(n / M29, width) }

  lemma CountAdvances(n: nat, size: nat)
    ensures (n % M29 + size) % M29 == (n + size) % M29
    ensures (n + size) / M29 == n / M29 + (if (n + size) % M29 < n % M29 then 1 else 0) + size / M29
  {
  }

  lemma LowBytes(q: nat, r: nat)
    requires r < M32
    ensures (M32 * q + r) % 0x100 == r % 0x100
    ensures (M32 * q + r) / 0x100 % 0x100 == r / 0x100 % 0x100
  {
    assert (M32 * q + r) / 0x100 == 0x100 * (0x1_0000 * q) + r / 0x100;
  }

  lemma HighBytes(q: nat, r: nat)
    requires r < M32
    ensures (M32 * q + r) / 0x1_0000 % 0x100 == r / 0x1_0000 % 0x100
    ensures (M32 * q + r) / 0x100_0000 % 0x100 == r / 0x100_0000 % 0x100
  {
    var x := M32 * q + r;
    var h, l := r / 0x1_0000, r % 0x1_0000;
    assert x == 0x1_0000 * (0x1_0000 * q + h) + l;
    assert x / 0x1_0000 == 0x1_0000 * q + h;
    LastDigit(0x100 * q, h);
    assert x / 0x100_0000 == x / 0x1_0000 / 0x100 && r / 0x100_0000 == h / 0x100;
    assert x / 0x1_0000 == 0x100 * (0x100 * q + h / 0x100) + h % 0x100;
    LastDigit(q, h / 0x100);
  }

  lemma LastDigit(a: nat, b: nat)
    ensures (0x100 * a + b) % 0x100 == b % 0x100
  {
  }

  lemma LowSumFirst(x: nat, y: nat, w: nat)
    ensures Low(Low(x, w) + y, w) == Low(x + y, w)
  {
    LowSum(x, y, w);
    LowSum(Low(x, w), y, w);
    LowLow(x, w, w);
  }

  lemma WordBytesLow(x: nat)
    ensures WordBytes(x) == WordBytes(Low(x, 32))
  {
    hide Low;
    Low32(x);
    LowBytes(x / M32, x % M32);
    HighBytes(x / M32, x % M32);
    assert x == M32 * (x / M32) + x % M32;
  }

  /** The two counter words are the low and high words of the bit length. */
  lemma CountIsBitLength(lo: nat, hi: nat, n: nat, width: nat)
    requires Counts(lo, hi, n, width) && width >= 32
    ensures 8 * lo == 8 * n % M32 && Low(hi, 32) == 8 * n / M32 % M32
  {
    hide Low;
    LowLow(n / M29, 32, width);
    Low32(n / M29);
    assert n / M29 == 8 * n / M32;
  }

  /** The bytes after the last complete block. */
  function Tail(m: seq<byte>): (t: seq<byte>)
    ensures |t| == |m| % 64
  {
    m[|m| - |m| % 64..]
  }

  /** A short rest that completes m to whole blocks is its tail. */
  lemma RestIsTail(m: seq<byte>, rest: seq<byte>, done: nat)
    requires done <= |m| && done % 64 == 0 && rest == m[done..] && |rest| < 64
    ensures rest == Tail(m)
  {
  }

  class Context {
    const width: nat
    const buffer: array<byte>
    var lo: nat
    var hi: nat
    var a: nat
    var b: nat
    var c: nat
    var d: nat
    ghost var message: seq<byte>   // everything fed in so far

    ghost predicate Sized() { width >= 32 && buffer.Length == 64 }

    ghost predicate Valid()
      reads this, buffer
    {
      && Sized()
      && Counts(lo, hi, |message|, width)
      && Low4(a, b, c, d) == S.Fold(S.INITIAL, message)
      && buffer[..|message| % 64] == Tail(message)
    }

    constructor Init(width: nat)
      requires width >= 32
      ensures Valid() && message == [] && this.width == width && fresh(buffer)
    {
      this.width := width;
      buffer := new byte[64](_ => 0);
      a, b, c, d := 0x67452301, 0xefcdab89, 0x98badcfe, 0x10325476;
      lo, hi := 0, 0;
      message := [];
      new;
      InitialIsLow();
      assert Low(0, width) == 0 by { LowZero(width); }
    }

    /** Compress one or more whole blocks. */
    method Body(data: seq<byte>)
      requires Sized() && |data| > 0 && |data| % 64 == 0
      modifies `a, `b, `c, `d
      ensures Low4(a, b, c, d) == S.Fold(old(Low4(a, b, c, d)), data)
    {
      hide Low4, S.Compress;
      var ptr := 0;
      ghost var r0 := Low4(a, b, c, d);
      while ptr < |data|
        invariant 0 <= ptr <= |data| && ptr % 64 == 0
        invariant S.Fold(r0, data) == S.Fold(Low4(a, b, c, d), data[ptr..])
      {
        var block := data[ptr..ptr + 64];
        assert block == data[ptr..][..64] && data[ptr + 64..] == data[ptr..][64..];
        OneBlock(block);
        ptr := ptr + 64;
      }
      assert data[ptr..] == [];
    }

    /** A word may be loaded at its full width, so that anything may stand above the low 32 bits. */
    method Load(block: seq<byte>) returns (x: seq<nat>)
      requires Sized() && |block| == 64
      ensures Loaded(x, S.Words(block))
    {
      hide Low, LoadWord, Word;
      ghost var xs := S.Words(block);
      x := [];
      for i := 0 to 16
        invariant |x| == i && forall k | 0 <= k < i :: Low(x[k], 32) == xs[k]
      {
        var above: nat := *;
        var w := LoadWord(block[4 * i], block[4 * i + 1], block[4 * i + 2], block[4 * i + 3]);
        LowOfLoad(w, above, width);
        x := x + [WideWord(w, above, width)];
      }
    }

    method OneBlock(block: seq<byte>)
      requires Sized() && |block| == 64
      modifies `a, `b, `c, `d
      ensures Low4(a, b, c, d) == S.Compress(old(Low4(a, b, c, d)), block)
    {
      hide Low, LoadWord, Word, Sum, S.Add;
      var x := Load(block);
      ghost var xs := S.Words(block);
      ghost var r := Low4(a, b, c, d);
      assert S.Registers(r, xs, 0) == r;
      hide S.Registers;
      var a', b', c', d' := Round1(width, a, b, c, d, x, r, xs);
      a', b', c', d' := Round2(width, a', b', c', d', x, r, xs);
      a', b', c', d' := Round3(width, a', b', c', d', x, r, xs);
      a', b', c', d' := Round4(width, a', b', c', d', x, r, xs);
      a, b, c, d := Sum(a', a, width), Sum(b', b, width), Sum(c', c, width), Sum(d', d, width);
    }

    method Count(size: nat)
      requires Sized() && Counts(lo, hi, |message|, width)
      modifies `lo, `hi
      ensures Counts(lo, hi, |message| + size, width)
    {
      hide Low;
      var savedLo := lo;
      CountAdvances(|message|, size);
      LowSumFirst(|message| / M29, 1, width);
      lo := (savedLo + size) % M29;
      if lo < savedLo { hi := Low(hi + 1, width); }
      LowSumFirst((|message| + size) / M29 - size / M29, size / M29, width);
      hi := Low(hi + size / M29, width);
    }

    /** Copy bytes into the buffer. */
    method Copy(at: nat, data: seq<byte>)
      requires Sized() && at + |data| <= 64
      modifies buffer
      ensures buffer[..] == old(buffer[..at]) + data + old(buffer[at + |data|..])
    {
      for i := 0 to |data|
        invariant buffer[..] == old(buffer[..at]) + data[..i] + old(buffer[at + i..])
      {
        buffer[at + i] := data[i];
      }
    }

    /** Compress the whole blocks of what is left to feed and keep the rest in the buffer. */
    method Drain(data: seq<byte>, ghost all: seq<byte>, ghost done: nat)
      requires Sized() && done <= |all| && done % 64 == 0 && data == all[done..]
      requires S.Fold(S.INITIAL, all) == S.Fold(Low4(a, b, c, d), data)
      modifies `a, `b, `c, `d, buffer
      ensures Low4(a, b, c, d) == S.Fold(S.INITIAL, all) && buffer[..|all| % 64] == Tail(all)
    {
      hide S.Fold, Low4;
      var rest := data;
      var whole := |data| - |data| % 64;
      RestIsTail(all, data[whole..], done + whole);
      if |rest| >= 64 {
        assert rest == rest[..whole] + rest[whole..];
        FoldSplits(Low4(a, b, c, d), rest[..whole], rest[whole..]);
        Body(rest[..whole]);
        rest := rest[whole..];
      }
      Copy(0, rest);
      ShortFold(Low4(a, b, c, d), rest);
    }

    /** Complete the block in the buffer. */
    method TopUp(data: seq<byte>, used: nat)
      requires Sized() && 0 < used && used + |data| == 64
      modifies `a, `b, `c, `d, buffer
      ensures Low4(a, b, c, d) == S.Fold(old(Low4(a, b, c, d)), old(buffer[..used]) + data)
    {
      hide S.Fold, Low4;
      Copy(used, data);
      assert buffer[..] == old(buffer[..used]) + data;
      Body(buffer[..]);
    }

    /** Feed a piece of any length. */
    method Update(data: seq<byte>)
      requires Valid()
      modifies this, buffer
      ensures Valid() && message == old(message) + data
    {
      hide S.Fold, Low4, Counts;
      ghost var all := message + data;
      ghost var tail := Tail(message);
      Pending(message, data);
      CountMod64(lo, hi, |message|, width);
      var used := lo % 64;
      Count(|data|);
      if used != 0 {
        var available := 64 - used;
        if |data| < available {
          Copy(used, data);
          RestIsTail(all, tail + data, |message| - used);
          ShortFold(Low4(a, b, c, d), tail + data);
        } else {
          FoldSplits(Low4(a, b, c, d), tail + data[..available], data[available..]);
          assert tail + data == (tail + data[..available]) + data[available..];
          TopUp(data[..available], used);
          Drain(data[available..], all, |message| + available);
        }
      } else {
        assert tail + data == data;
        Drain(data, all, |message|);
      }
      message := all;
    }

    /** Pad, append the length, and deliver the chaining words, low byte first. */
    method Final() returns (result: seq<byte>)
      requires Valid()
      modifies this, buffer
      ensures result == S.Digest(old(message))
    {
      hide S.Fold, Low4, Counts, Low, WordBytes, S.Padding, LengthBytes;
      ghost var n := |message|;
      ghost var r := Low4(a, b, c, d);
      ghost var t := Tail(message) + [0x80];
      Pending(message, S.Padding(n));
      PaddedTail(message);
      CountMod64(lo, hi, n, width);
      var used := lo % 64;
      Copy(used, [0x80]);
      used := used + 1;
      assert buffer[..used] == t;
      var available := 64 - used;
      if available < 8 {
        Copy(used, Zeroed(available));
        assert buffer[..] == t + Zeroed(64 - |t|);
        FoldSplits(r, t + Zeroed(64 - |t|), Zeroed(56) + LengthBytes(n));
        Body(buffer[..]);
        used, available := 0, 64;
      }
      Copy(used, Zeroed(available - 8));
      AppendLength(n);
      assert buffer[..] == if |t| <= 56 then t + Zeroed(56 - |t|) + LengthBytes(n) else Zeroed(56) + LengthBytes(n);
      Body(buffer[..]);
      assert Low4(a, b, c, d) == S.Fold(S.INITIAL, message + S.Padding(n));
      ChainBytesLow(a, b, c, d);
      result := WordBytes(a) + WordBytes(b) + WordBytes(c) + WordBytes(d);
      Copy(0, Zeroed(64));
      lo, hi, a, b, c, d := 0, 0, 0, 0, 0, 0;
    }

    method AppendLength(ghost n: nat)
      requires Sized() && Counts(lo, hi, n, width)
      modifies `lo, buffer
      ensures buffer[..] == old(buffer[..56]) + LengthBytes(n)
    {
      hide WordBytes, Low;
      CountIsBitLength(lo, hi, n, width);
      LoShifts(lo, width);
      WordBytesLow(hi);
      lo := Low(8 * lo, width);
      Copy(56, WordBytes(lo));
      Copy(60, WordBytes(hi));
    }
  }

  function WideWord(w: nat, above: nat, width: nat): nat { Low(w + M32 * above, width) }

  lemma LowOfLoad(w: nat, above: nat, width: nat)
    requires w < M32 && width >= 32
    ensures Low(WideWord(w, above, width), 32) == w
  {
    hide Low, Ones;
    LowLow(w + M32 * above, 32, width);
    Low32(w + M32 * above);
  }

  lemma ChainBytesLow(a: nat, b: nat, c: nat, d: nat)
    ensures WordBytes(a) + WordBytes(b) + WordBytes(c) + WordBytes(d) == S.ChainBytes(Low4(a, b, c, d))
  {
    hide WordBytes, Low;
    WordBytesLow(a);
    WordBytesLow(b);
    WordBytesLow(c);
    WordBytesLow(d);
  }

  function Zeroed(k: nat): seq<byte> { seq(k, _ => 0) }

  /** The bit length as it ends the padding. */
  function LengthBytes(n: nat): (l: seq<byte>)
    ensures |l| == 8
  {
    WordBytes(8 * n % M32) + WordBytes(8 * n / M32 % M32)
  }

  /** The tail and its padding make one block, or two when fewer than eight bytes are left after the one bit. */
  lemma PaddedTail(m: seq<byte>)
    ensures var t := Tail(m) + [0x80];
      Tail(m) + S.Padding(|m|) ==
      if |t| <= 56 then t + Zeroed(56 - |t|) + LengthBytes(|m|)
      else (t + Zeroed(64 - |t|)) + (Zeroed(56) + LengthBytes(|m|))
  {
    hide WordBytes;
    var t := Tail(m) + [0x80];
    if |t| > 56 { assert Zeroed(S.Zeros(|m|)) == Zeroed(64 - |t|) + Zeroed(56); }
    assert S.Padding(|m|) == [0x80] + Zeroed(S.Zeros(|m|)) + LengthBytes(|m|);
  }

  lemma LoShifts(lo: nat, width: nat)
    requires lo < M29 && width >= 32
    ensures Low(8 * lo, width) == 8 * lo
  {
    hide Low;
    Low32(0);
    SmallFits(8 * lo, 32);
    FitsMore(8 * lo, 32, width);
    assert Fits(8 * lo, width);
  }

  lemma ShortFold(r: S.Chain, data: seq<byte>)
    requires |data| < 64
    ensures S.Fold(r, data) == r
  {
  }

  lemma CountMod64(lo: nat, hi: nat, n: nat, width: nat)
    requires Counts(lo, hi, n, width)
    ensures lo % 64 == n % 64
  {
  }

  /** Only the incomplete block matters to what comes next. */
  lemma Pending(m: seq<byte>, data: seq<byte>)
    ensures S.Fold(S.INITIAL, m + data) == S.Fold(S.Fold(S.INITIAL, m), Tail(m) + data)
  {
    hide S.Compress;
    var head := m[..|m| - |m| % 64];
    assert m == head + Tail(m) && m + data == head + (Tail(m) + data);
    FoldSplits(S.INITIAL, head, Tail(m));
    FoldSplits(S.INITIAL, head, Tail(m) + data);
  }

  lemma {:induction false} LowZero(w: nat)
    ensures Low(0, w) == 0
  {
    if w > 0 { LowZero(w - 1); }
  }

  lemma InitialIsLow()
    ensures Low4(0x67452301, 0xefcdab89, 0x98badcfe, 0x10325476) == S.INITIAL
  {
    hide Low, Ones;
    Low32(0x67452301);
    Low32(0xefcdab89);
    Low32(0x98badcfe);
    Low32(0x10325476);
  }

  /** However a message is cut into pieces and however wide the words are, the digest is that of the whole. */
  method DigestOfPieces(width: nat, pieces: seq<seq<byte>>) returns (result: seq<byte>)
    requires width >= 32
    ensures result == S.Digest(Concat(pieces))
  {
    hide S.Digest, Context.Valid;
    var ctx := new Context.Init(width);
    for i := 0 to |pieces|
      invariant ctx.Valid() && ctx.message == Concat(pieces[..i]) && fresh(ctx) && fresh(ctx.buffer)
    {
      assert pieces[..i + 1] == pieces[..i] + [pieces[i]];
      ConcatAppend(pieces[..i], pieces[i]);
      ctx.Update(pieces[i]);
    }
    assert pieces[..|pieces|] == pieces;
    result := ctx.Final();
  }

  /** In a 32-bit context the counter holds the byte count modulo 2^61. */
  lemma CounterModulus(lo: nat, hi: nat, n: nat)
    requires Counts(lo, hi, n, 32)
    ensures lo < M29 && hi * M29 + lo == n % 0x2000_0000_0000_0000
  {
    hide Low;
    Low32(n / M29);
    assert n == M29 * (n / M29) + lo;
    assert n / M29 == M32 * (n / M29 / M32) + hi;
    RemainderIs(n, n / M29 / M32, hi * M29 + lo);
  }

  lemma RemainderIs(n: nat, q: nat, r: nat)
    requires n == 0x2000_0000_0000_0000 * q + r && r < 0x2000_0000_0000_0000
    ensures n % 0x2000_0000_0000_0000 == r
  {
  }
}
