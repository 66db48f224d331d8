/** The messages between client and proxy: a packed nine-byte header and a payload. */
module Frames {
  import opened Bytes

  const TCP_OPEN: byte := 1
  const TCP_DATA: byte := 2
  const TCP_CLOSE: byte := 3
  const TCP_STATUS: byte := 4
  const UDP_DATA: byte := 5
  const UDP_CONTROL: byte := 6

  const HEADER: nat := 9
  const BUFF: nat := 4096

  datatype Frame = Frame(kind: byte, address: seq<byte>, payload: seq<byte>)

  /** An address is four bytes and the size field is 32 bits. */
  predicate Encodable(f: Frame) { |f.address| == 4 && |f.payload| < M32 }

  function Header(f: Frame): (h: seq<byte>)
    requires Encodable(f)
    ensures |h| == HEADER
  {
    [f.kind] + f.address + WordBytes(|f.payload|)
  }

  function Encode(f: Frame): seq<byte>
    requires Encodable(f)
  {
    Header(f) + f.payload
  }

  /** The size field of a header. */
  function SizeOf(h: seq<byte>): nat
    requires |h| >= HEADER
  {
    Word(h[5], h[6], h[7], h[8])
  }

  lemma HeaderFields(f: Frame, more: seq<byte>)
    requires Encodable(f)
    ensures var h := Header(f) + more;
      h[0] == f.kind && h[1..5] == f.address && SizeOf(h) == |f.payload|
  {
    hide WordBytes, Word;
    WordRoundTrip(|f.payload|);
    var h := Header(f) + more;
    var b := WordBytes(|f.payload|);
    assert h[5] == b[0] && h[6] == b[1] && h[7] == b[2] && h[8] == b[3];
  }

  /** A frame byte by byte: kind, address, size with its low byte first, payload. */
  lemma EncodedLayout(f: Frame)
    requires Encodable(f)
    ensures var e := Encode(f);
      && |e| == 9 + |f.payload| && e[0] == f.kind && e[1..5] == f.address && e[9..] == f.payload
      && e[5] as nat + 0x100 * e[6] as nat + 0x1_0000 * e[7] as nat + 0x100_0000 * e[8] as nat == |f.payload|
  {
    HeaderFields(f, f.payload);
    hide WordBytes;
  }

  /** One frame off the front of a stream; absent when the stream ends too early. */
  datatype Parsed = Incomplete | Got(frame: Frame, rest: seq<byte>)

  function Parse(s: seq<byte>): Parsed {
    if |s| < HEADER || |s| < HEADER + SizeOf(s) then Incomplete
    else Got(Frame(s[0], s[1..5], s[HEADER..HEADER + SizeOf(s)]), s[HEADER + SizeOf(s)..])
  }

  lemma ParseUndoesEncode(f: Frame, rest: seq<byte>)
    requires Encodable(f)
    ensures Parse(Encode(f) + rest) == Got(f, rest)
  {
    hide Word, WordBytes, Header, SizeOf;
    var s := Encode(f) + rest;
    HeaderFields(f, f.payload + rest);
    assert s == Header(f) + (f.payload + rest);
    assert s[HEADER..HEADER + |f.payload|] == f.payload && s[HEADER + |f.payload|..] == rest;
  }

  /** Conversely, whatever parses is the encoding of what was parsed. */
  lemma ParseIsEncoded(s: seq<byte>)
    requires Parse(s).Got?
    ensures Encodable(Parse(s).frame) && s == Encode(Parse(s).frame) + Parse(s).rest
  {
    hide Word, WordBytes;
    var p := Parse(s);
    BytesRoundTrip(s[5], s[6], s[7], s[8]);
    assert s[..HEADER] == [s[0]] + s[1..5] + [s[5], s[6], s[7], s[8]];
    assert Header(p.frame) == s[..HEADER];
    hide Header, SizeOf;
    assert s == s[..HEADER] + p.frame.payload + p.rest;
  }

  lemma BytesRoundTrip(b0: byte, b1: byte, b2: byte, b3: byte)
    ensures WordBytes(Word(b0, b1, b2, b3)) == [b0, b1, b2, b3]
  {
    var x := Word(b0, b1, b2, b3);
    assert x / 0x100 == b1 as nat + 0x100 * b2 as nat + 0x1_0000 * b3 as nat;
    assert x / 0x1_0000 == b2 as nat + 0x100 * b3 as nat;
    assert x / 0x100_0000 == b3 as nat;
  }

  predicate AllEncodable(frames: seq<Frame>) { forall i | 0 <= i < |frames| :: Encodable(frames[i]) }

  /** A stream of whole frames. */
  function EncodeAll(frames: seq<Frame>): seq<byte>
    requires AllEncodable(frames)
  {
    if frames == [] then [] else Encode(frames[0]) + EncodeAll(frames[1..])
  }

  lemma {:induction false} EncodeAllAppends(frames: seq<Frame>, f: Frame)
    requires AllEncodable(frames) && Encodable(f)
    ensures EncodeAll(frames + [f]) == EncodeAll(frames) + Encode(f)
  {
    if frames == [] {
      assert [f][1..] == [];
    } else {
      assert (frames + [f])[1..] == frames[1..] + [f];
      EncodeAllAppends(frames[1..], f);
    }
  }

  /** Read frames off a stream for as long as whole ones come. */
  function ParseAll(s: seq<byte>): seq<Frame>
    decreases |s|
  {
    var p := Parse(s);
    if p.Incomplete? then [] else [p.frame] + ParseAll(p.rest)
  }

  lemma {:induction false} ParseAllUndoesEncodeAll(frames: seq<Frame>)
    requires AllEncodable(frames)
    ensures ParseAll(EncodeAll(frames)) == frames
  {
    if frames != [] {
      ParseUndoesEncode(frames[0], EncodeAll(frames[1..]));
      ParseAllUndoesEncodeAll(frames[1..]);
    }
  }

  // ---- cutting a payload into buffers ----

  function Chunks(p: seq<byte>): seq<seq<byte>>
    decreases |p|
  {
    if p == [] then [] else if |p| <= BUFF then [p] else [p[..BUFF]] + Chunks(p[BUFF..])
  }

  /** The pieces are non-empty, fit the buffer, and together are the payload. */
  lemma {:induction false} ChunksCover(p: seq<byte>)
    ensures Concat(Chunks(p)) == p
    ensures forall i | 0 <= i < |Chunks(p)| :: 0 < |Chunks(p)[i]| <= BUFF
    decreases |p|
  {
    if |p| > BUFF {
      ChunksCover(p[BUFF..]);
    } else if p != [] {
      assert Concat([p]) == p + Concat([]);
    }
  }
}
