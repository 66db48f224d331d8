/**
 * The forwarders of a slot: each receives into a buffer behind the place of the
 * header, completes the header in front, and sends both to the client at once.
 */
module Forwarding {
  import opened Bytes
  import opened Frames
  import opened Connections
  import opened ProxyConnection

  const ROOM: nat := BUFF - HEADER
  const NOWHERE: seq<byte> := [0, 0, 0, 0]

  datatype Packet = Packet(address: seq<byte>, bytes: seq<byte>)

  predicate AllAddressed(packets: seq<Packet>) { forall i | 0 <= i < |packets| :: |packets[i].address| == 4 }

  /** What a receive into the free part of the buffer keeps of a packet. */
  function Fitting(bytes: seq<byte>): (r: seq<byte>)
    ensures r <= bytes && |r| == if |bytes| <= 4087 then |bytes| else 4087
  {
    if |bytes| <= ROOM then bytes else bytes[..ROOM]
  }

  /** The frames of the packets up to the first empty one, which reads as the end of the connection. */
  function Forwarded(kind: byte, packets: seq<Packet>): (frames: seq<Frame>)
    requires AllAddressed(packets)
    ensures AllEncodable(frames) && forall i | 0 <= i < |frames| :: |frames[i].payload| <= ROOM
  {
    if packets == [] || packets[0].bytes == [] then []
    else [Frame(kind, packets[0].address, Fitting(packets[0].bytes))] + Forwarded(kind, packets[1..])
  }

  /** The frames of a byte stream received in these parts. */
  function Pieces(parts: seq<seq<byte>>): (frames: seq<Frame>)
    requires forall i | 0 <= i < |parts| :: |parts[i]| <= ROOM
    ensures AllEncodable(frames) && |frames| == |parts|
    ensures forall i | 0 <= i < |parts| :: frames[i] == Frame(TCP_DATA, NOWHERE, parts[i])
  {
    if parts == [] then [] else Pieces(parts[..|parts| - 1]) + [Frame(TCP_DATA, NOWHERE, parts[|parts| - 1])]
  }

  method Put(a: array<byte>, at: nat, bytes: seq<byte>)
    requires at + |bytes| <= a.Length
    modifies a
    ensures a[..] == old(a[..at]) + bytes + old(a[at + |bytes|..])
  {
    for i := 0 to |bytes|
      invariant a[..] == old(a[..at]) + bytes[..i] + old(a[at + i..])
    {
      a[at + i] := bytes[i];
    }
  }

  class Forwarder {
    const buf: array<byte>
    const kind: byte
    const client: Conn

    ghost predicate Ready()
      reads buf
    {
      buf.Length == BUFF && client.whole && buf[0] == kind
    }

    constructor (kind: byte, client: Conn)
      requires client.whole
      ensures Ready() && fresh(buf) && this.kind == kind && this.client == client && buf[1..5] == NOWHERE
    {
      this.kind, this.client := kind, client;
      buf := new byte[BUFF](_ => 0);
      new;
      buf[0] := kind;
    }

    /** Complete the header in front of a received payload. */
    method Address(address: seq<byte>)
      requires Ready() && |address| == 4
      modifies buf
      ensures Ready() && buf[1..5] == address && buf[HEADER..] == old(buf[HEADER..])
    {
      Put(buf, 1, address);
    }

    method SendBuffer(size: nat) returns (ret: int)
      requires Ready() && size <= ROOM
      modifies buf, client`outgoing
      ensures Ready() && buf[1..5] == old(buf[1..5])
      ensures ret <= 0 && (client.connected && !client.faulty ==> ret == 0)
      ensures var f := Frame(kind, old(buf[1..5]), old(buf[HEADER..HEADER + size]));
        Encodable(f) && client.outgoing == old(client.outgoing) + if ret == 0 then Encode(f) else []
    {
      hide WordBytes;
      ghost var f := Frame(kind, buf[1..5], buf[HEADER..HEADER + size]);
      Put(buf, 5, WordBytes(size));
      assert buf[..HEADER + size] == Encode(f);
      hide Encode;
      ghost var takes;
      ret, takes := client.Send(buf[..HEADER + size]);
    }

    method ForwardPacket(packet: Packet) returns (ret: int)
      requires Ready() && |packet.address| == 4
      modifies buf, client`outgoing
      ensures Ready() && ret <= 0 && (client.connected && !client.faulty ==> ret == 0)
      ensures client.outgoing == old(client.outgoing) +
        if ret == 0 then Encode(Frame(kind, packet.address, Fitting(packet.bytes))) else []
    {
      hide Encode, Fitting;
      var bytes := Fitting(packet.bytes);
      Put(buf, HEADER, bytes);
      ghost var behind := buf[HEADER..];
      assert behind[..|bytes|] == bytes && buf[0] == kind;
      Address(packet.address);
      assert buf[HEADER..HEADER + |bytes|] == behind[..|bytes|];
      ret := SendBuffer(|bytes|);
    }

    /** Forward packets until an empty one or the end of them, or until the client fails. */
    method ForwardUdp(packets: seq<Packet>) returns (ret: int, ghost sent: nat)
      requires Ready() && AllAddressed(packets)
      modifies buf, client`outgoing
      ensures ret < 0
      ensures var frames := Forwarded(kind, packets);
        && sent <= |frames| && (client.connected && !client.faulty ==> sent == |frames|)
        && client.outgoing == old(client.outgoing) + EncodeAll(frames[..sent])
    {
      ghost var frames := Forwarded(kind, packets);
      var k := 0;
      NoneSent(client.outgoing, frames);
      hide Encode, EncodeAll, Forwarded, Fitting;
      while k < |packets| && packets[k].bytes != []
        invariant 0 <= k <= |packets| && Ready() && forall i | 0 <= i < k :: packets[i].bytes != []
        invariant SentUpTo(client.outgoing, old(client.outgoing), frames, k)
      {
        sent := k;
        ForwardedAt(kind, packets, k);
        OneMoreSent(client.outgoing, old(client.outgoing), frames, k);
        ret := ForwardPacket(packets[k]);
        if ret < 0 { return; }
        k := k + 1;
      }
      ForwardedEnds(kind, packets, k);
      ret, sent := -EPIPE, k;
    }

    /** Forward what one receive brings; part is empty when it brings nothing. */
    method ForwardSome(tcp: Conn) returns (ret: int, sent: bool, ghost part: seq<byte>)
      requires Ready() && kind == TCP_DATA && buf[1..5] == NOWHERE && tcp != client
      modifies buf, client`outgoing, tcp`incoming
      ensures Ready() && buf[1..5] == NOWHERE && |part| <= ROOM && (part != [] ==> sent)
      ensures old(tcp.incoming) == part + tcp.incoming
      ensures if sent then part != [] && ret <= 0 && (client.connected && !client.faulty ==> ret == 0)
              else ret < 0 && (tcp.faulty || tcp.incoming == [])
      ensures client.outgoing == old(client.outgoing) +
        if sent && ret == 0 then Encode(Frame(TCP_DATA, NOWHERE, part)) else []
    {
      hide Encode;
      ghost var before := tcp.incoming;
      part, sent := [], false;
      ret := tcp.ReceiveSome(buf, HEADER, ROOM);
      assert buf[0] == kind && buf[1..5] == NOWHERE;
      if ret > 0 {
        part, sent := before[..ret], true;
        assert buf[HEADER..HEADER + ret] == part;
        ret := SendBuffer(ret);
      } else if ret == 0 {
        ret := -EPIPE;
      }
    }

    /** Forward the remote host's bytes as they come, then announce the end; or stop where the client fails. */
    method ForwardTcp(tcp: Conn) returns (ret: int, ghost parts: seq<seq<byte>>)
      requires Ready() && kind == TCP_DATA && buf[1..5] == NOWHERE && tcp != client
      modifies buf, client`outgoing, tcp`incoming, tcp`connected
      ensures !tcp.connected && ret <= 0 && (client.connected && !client.faulty ==> ret == 0)
      ensures forall i | 0 <= i < |parts| :: 0 < |parts[i]| <= ROOM
      ensures client.outgoing ==
        old(client.outgoing) + EncodeAll(Pieces(parts)) + if ret == 0 then Encode(CLOSE_FRAME) else []
      ensures Concat(parts) <= old(tcp.incoming)
      ensures ret == 0 && !tcp.faulty && old(tcp.connected) ==> tcp.incoming == [] && Concat(parts) == old(tcp.incoming)
    {
      parts := [];
      EmptyStream();
      NoParts();
      hide Concat, Encode, EncodeAll, Pieces;
      ret := 0;
      while ret >= 0 && tcp.connected
        invariant ret == 0 || (ret < 0 && (tcp.faulty || tcp.incoming == []))
        invariant Ready() && buf[1..5] == NOWHERE && tcp.connected == old(tcp.connected)
        invariant forall i | 0 <= i < |parts| :: 0 < |parts[i]| <= ROOM
        invariant Concat(parts) + tcp.incoming == old(tcp.incoming)
        invariant client.outgoing == old(client.outgoing) + EncodeAll(Pieces(parts))
        decreases |tcp.incoming| + if ret >= 0 then 1 else 0
      {
        var sent;
        ghost var part;
        ret, sent, part := ForwardSome(tcp);
        if sent {
          if ret < 0 {
            tcp.connected := false;
            return;
          }
          PiecesAppend(parts, part);
          ConcatAppend(parts, part);
          parts := parts + [part];
        }
      }
      tcp.connected := false;
      ghost var takes;
      ret, takes := client.Send(Encode(CLOSE_FRAME));
    }
  }

  /** The first k frames have gone out. */
  ghost predicate SentUpTo(out: seq<byte>, before: seq<byte>, frames: seq<Frame>, k: nat)
    requires AllEncodable(frames)
  {
    k <= |frames| && out == before + EncodeAll(frames[..k])
  }

  lemma NoneSent(out: seq<byte>, frames: seq<Frame>)
    requires AllEncodable(frames)
    ensures SentUpTo(out, out, frames, 0)
  {
    assert frames[..0] == [];
  }

  lemma OneMoreSent(out: seq<byte>, before: seq<byte>, frames: seq<Frame>, k: nat)
    requires AllEncodable(frames) && SentUpTo(out, before, frames, k) && k < |frames|
    ensures SentUpTo(out + Encode(frames[k]), before, frames, k + 1)
  {
    hide Encode, EncodeAll;
    EncodeAllAppends(frames[..k], frames[k]);
    assert frames[..k + 1] == frames[..k] + [frames[k]];
    Reassociate(before, EncodeAll(frames[..k]), Encode(frames[k]));
  }

  lemma {:induction false} ForwardedAt(kind: byte, packets: seq<Packet>, k: nat)
    requires AllAddressed(packets) && k < |packets| && forall i | 0 <= i <= k :: packets[i].bytes != []
    ensures k < |Forwarded(kind, packets)|
    ensures Forwarded(kind, packets)[k] == Frame(kind, packets[k].address, Fitting(packets[k].bytes))
  {
    if k > 0 { ForwardedAt(kind, packets[1..], k - 1); }
  }

  lemma {:induction false} ForwardedEnds(kind: byte, packets: seq<Packet>, k: nat)
    requires AllAddressed(packets) && k <= |packets| && (k < |packets| ==> packets[k].bytes == [])
    requires forall i | 0 <= i < k :: packets[i].bytes != []
    ensures |Forwarded(kind, packets)| == k
  {
    if k > 0 { ForwardedEnds(kind, packets[1..], k - 1); }
  }

  /** One frame for each packet, with all its bytes. */
  ghost predicate AllWhole(kind: byte, packets: seq<Packet>, frames: seq<Frame>) {
    && |frames| == |packets|
    && forall i | 0 <= i < |packets| :: frames[i] == Frame(kind, packets[i].address, packets[i].bytes)
  }

  predicate Fits(packet: Packet) { 1 <= |packet.bytes| <= 4087 }

  /** Every packet reaches the client whole exactly when each has 1 to 4087 bytes. */
  lemma {:induction false} WholeIffFits(kind: byte, packets: seq<Packet>)
    requires AllAddressed(packets)
    ensures AllWhole(kind, packets, Forwarded(kind, packets)) <==> forall i | 0 <= i < |packets| :: Fits(packets[i])
  {
    if packets != [] {
      var rest, frames := packets[1..], Forwarded(kind, packets);
      WholeIffFits(kind, rest);
      if packets[0].bytes != [] {
        assert frames[1..] == Forwarded(kind, rest);
        assert AllWhole(kind, packets, frames) <==>
          frames[0].payload == packets[0].bytes && AllWhole(kind, rest, frames[1..]) by
        {
          WholeTail(kind, packets, frames);
        }
        assert (forall i | 0 <= i < |packets| :: Fits(packets[i])) <==>
          Fits(packets[0]) && forall i | 0 <= i < |rest| :: Fits(rest[i]);
      } else {
        assert !Fits(packets[0]);
      }
    }
  }

  /** An empty packet ends the forwarding: the one behind it never reaches the client. */
  lemma EmptyPacketEndsIt(address: seq<byte>)
    requires |address| == 4
    ensures Forwarded(UDP_DATA, [Packet(address, []), Packet(address, [1])]) == []
  {
  }

  lemma WholeTail(kind: byte, packets: seq<Packet>, frames: seq<Frame>)
    requires packets != [] && frames != []
    ensures AllWhole(kind, packets, frames) <==>
      frames[0] == Frame(kind, packets[0].address, packets[0].bytes) && AllWhole(kind, packets[1..], frames[1..])
  {
    if AllWhole(kind, packets[1..], frames[1..]) {
      assert forall i | 1 <= i < |packets| :: packets[i] == packets[1..][i - 1] && frames[i] == frames[1..][i - 1];
    }
  }

  lemma EmptyStream()
    ensures EncodeAll(Pieces([])) == []
  {
  }

  lemma PiecesAppend(parts: seq<seq<byte>>, part: seq<byte>)
    requires |part| <= ROOM && forall i | 0 <= i < |parts| :: |parts[i]| <= ROOM
    ensures EncodeAll(Pieces(parts + [part])) == EncodeAll(Pieces(parts)) + Encode(Frame(TCP_DATA, NOWHERE, part))
  {
    assert (parts + [part])[..|parts|] == parts;
    EncodeAllAppends(Pieces(parts), Frame(TCP_DATA, NOWHERE, part));
  }
}
