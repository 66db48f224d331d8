/** The client's end: a header, then its payload, received or sent as two calls. */
module ProxyClient {
  import opened Bytes
  import opened Frames
  import opened Connections

  predicate AllFit(frames: seq<Frame>, n: nat) { forall i | 0 <= i < |frames| :: |frames[i].payload| <= n }

  class Client {
    const conn: Conn

    constructor (conn: Conn)
      ensures this.conn == conn
    {
      this.conn := conn;
    }

    /** Receive one message; a payload too long for the buffer is left on the stream. */
    method Receive(msg: array<byte>, buff: array<byte>) returns (ret: int)
      requires msg.Length == HEADER && msg != buff
      modifies conn`incoming, msg, buff
      ensures ret >= 0 ==>
        && Parse(old(conn.incoming)).Got?
        && var f := Parse(old(conn.incoming)).frame;
        && conn.incoming == Parse(old(conn.incoming)).rest
        && Encodable(f) && msg[..] == Header(f)
        && |f.payload| <= buff.Length && buff[..|f.payload|] == f.payload
        && buff[|f.payload|..] == old(buff[|f.payload|..])
      ensures conn.connected && !conn.faulty && Parse(old(conn.incoming)).Got? ==>
        && (ret >= 0 <==> |Parse(old(conn.incoming)).frame.payload| <= buff.Length)
        && (ret < 0 ==> ret == -ENOSPC && conn.incoming == old(conn.incoming)[HEADER..])
      ensures |conn.incoming| <= |old(conn.incoming)|
    {
      hide WordBytes, Word;
      ghost var s := conn.incoming;
      ret := conn.Receive(msg, 0, HEADER);
      if ret >= 0 {
        assert msg[..] == s[..HEADER];
        var size := Word(msg[5], msg[6], msg[7], msg[8]);
        assert size == SizeOf(s);
        if Parse(s).Got? { ParseIsEncoded(s); HeaderIsFront(Parse(s).frame, Parse(s).rest); }
        hide Header, Encode;
        if size > 0 {
          if size > buff.Length { return -ENOSPC; }
          ret := conn.Receive(buff, 0, size);
          if ret >= 0 { assert s[HEADER..][..size] == s[HEADER..HEADER + size]; }
        }
      }
    }

    /** Receive to the end of the stream, or to the first message that does not come through. */
    method ReceiveAll(msg: array<byte>, buff: array<byte>) returns (frames: seq<Frame>, ret: int)
      requires msg.Length == HEADER && msg != buff
      modifies conn`incoming, msg, buff
      ensures ret < 0
      ensures frames <= ParseAll(old(conn.incoming))
      ensures conn.connected && !conn.faulty && AllFit(ParseAll(old(conn.incoming)), buff.Length) ==>
        frames == ParseAll(old(conn.incoming))
    {
      ghost var s := conn.incoming;
      ghost var all := ParseAll(s);
      frames, ret := [], 0;
      while ret >= 0
        invariant ret >= 0 ==> frames + ParseAll(conn.incoming) == all
        invariant frames <= all
        invariant ret < 0 && conn.connected && !conn.faulty && AllFit(all, buff.Length) ==> frames == all
        decreases |conn.incoming| + if ret >= 0 then 1 else 0
      {
        hide Header, Encode, Word;
        ghost var before := conn.incoming;
        ret := Receive(msg, buff);
        if ret >= 0 {
          ghost var f := Parse(before).frame;
          HeaderFields(f, []);
          assert Header(f) + [] == msg[..];
          var got := Frame(msg[0], msg[1..5], buff[..Word(msg[5], msg[6], msg[7], msg[8])]);
          assert got == f;
          Reassociate(frames, [f], ParseAll(conn.incoming));
          frames := frames + [got];
        } else if Parse(before).Got? {
          assert ParseAll(before)[0] == Parse(before).frame == all[|frames|];
        }
      }
    }

    /** Send one message: the header, then the payload if there is one. */
    method Send(f: Frame) returns (ret: int)
      requires Encodable(f) && conn.whole
      modifies conn`outgoing
      ensures ret <= 0 && (conn.connected && !conn.faulty ==> ret == 0)
      ensures ret == 0 ==> conn.outgoing == old(conn.outgoing) + Encode(f)
      ensures ret < 0 ==> conn.outgoing in {old(conn.outgoing), old(conn.outgoing) + Header(f)}
    {
      hide Header;
      ghost var takes;
      ret, takes := conn.Send(Header(f));
      if ret >= 0 && |f.payload| > 0 {
        ret, takes := conn.Send(f.payload);
      }
      assert old(conn.outgoing) + Encode(f) == old(conn.outgoing) + Header(f) + f.payload;
    }
  }

  lemma HeaderIsFront(f: Frame, rest: seq<byte>)
    requires Encodable(f)
    ensures (Encode(f) + rest)[..HEADER] == Header(f)
  {
  }
}
