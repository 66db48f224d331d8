/**
 * The processing thread of a slot: one message per call, its payload received
 * over the header in the same 4096-byte buffer.
 */
module ProxyConnection {
  import opened Bytes
  import opened Frames
  import opened Connections

  const CONTROL_PORT: nat := 5199
  const DATA_PORT: nat := 5198

  datatype Datagram = Datagram(address: seq<byte>, port: nat, bytes: seq<byte>)

  function Datagrams(address: seq<byte>, port: nat, parts: seq<seq<byte>>): seq<Datagram> {
    if parts == [] then [] else [Datagram(address, port, parts[0])] + Datagrams(address, port, parts[1..])
  }

  predicate Known(kind: byte) { kind in {TCP_OPEN, TCP_DATA, TCP_CLOSE, UDP_DATA, UDP_CONTROL} }

  /** Kinds whose payload is received; the others are taken to have none. */
  predicate Drains(kind: byte) { kind in {TCP_DATA, UDP_DATA, UDP_CONTROL} }

  /** The parts received so far, of size bytes of which left are still to come. */
  ghost predicate Progress(stream: seq<byte>, size: nat, left: nat, parts: seq<seq<byte>>) {
    && left <= size && size - left <= |stream| && parts == Chunks(stream[..size - left])
    && (left > 0 ==> (size - left) % BUFF == 0)
  }

  lemma {:induction false} ChunksAppend(p: seq<byte>, q: seq<byte>)
    requires |p| % BUFF == 0 && 0 < |q| <= BUFF
    ensures Chunks(p + q) == Chunks(p) + [q]
    decreases |p|
  {
    if p == [] {
      assert p + q == q;
    } else {
      var rest := p[BUFF..];
      assert (p + q)[..BUFF] == p[..BUFF] && (p + q)[BUFF..] == rest + q;
      ChunksAppend(rest, q);
      FirstChunk(p);
      FirstChunk(p + q);
    }
  }

  lemma FirstChunk(p: seq<byte>)
    requires |p| >= BUFF
    ensures Chunks(p) == [p[..BUFF]] + Chunks(p[BUFF..])
  {
    if |p| == BUFF { assert p[..BUFF] == p && p[BUFF..] == []; }
  }

  lemma ProgressStarts(stream: seq<byte>, size: nat)
    ensures Progress(stream, size, size, [])
  {
    assert stream[..0] == [];
  }

  lemma ProgressStep(stream: seq<byte>, size: nat, left: nat, parts: seq<seq<byte>>, curr: nat)
    requires Progress(stream, size, left, parts) && left > 0 && curr == (if left > BUFF then BUFF else left)
    requires size - left + curr <= |stream|
    ensures Progress(stream, size, left - curr, parts + [stream[size - left..size - left + curr]])
  {
    var p, q := stream[..size - left], stream[size - left..size - left + curr];
    assert stream[..size - left + curr] == p + q;
    hide Chunks;
    ChunksAppend(p, q);
  }

  lemma ProgressDone(stream: seq<byte>, size: nat, parts: seq<seq<byte>>)
    requires Progress(stream, size, 0, parts)
    ensures Chunks(stream[..size]) == parts && Concat(parts) == stream[..size]
  {
    ChunksCover(stream[..size]);
  }

  /** As much of a payload that breaks off as fills whole buffers. */
  function FullBuffers(p: seq<byte>): seq<byte> { p[..|p| - |p| % BUFF] }

  lemma ProgressBreaks(stream: seq<byte>, size: nat, left: nat, parts: seq<seq<byte>>)
    requires Progress(stream, size, left, parts) && |stream| < size - left + (if left > BUFF then BUFF else left)
    ensures |stream| < size && parts == Chunks(FullBuffers(stream))
  {
    hide Chunks;
    var done := size - left;
    assert |stream| == done + (|stream| - done) && |stream| - done < BUFF;
    assert |stream| % BUFF == |stream| - done;
  }

  lemma {:induction false} DatagramsAppend(address: seq<byte>, port: nat, parts: seq<seq<byte>>, last: seq<byte>)
    ensures Datagrams(address, port, parts + [last]) ==
            Datagrams(address, port, parts) + [Datagram(address, port, last)]
  {
    if parts == [] {
      assert [last][1..] == [];
    } else {
      assert (parts + [last])[1..] == parts[1..] + [last];
      DatagramsAppend(address, port, parts[1..], last);
    }
  }

  // ---- what one message does, and what a stream does ----

  /** One message as the processing thread reads it: only some kinds have their payload received. */
  function Read(s: seq<byte>): Parsed {
    if |s| < HEADER || !Known(s[0]) then Incomplete else
      var n := if Drains(s[0]) then SizeOf(s) else 0;
      if |s| < HEADER + n then Incomplete else Got(Frame(s[0], s[1..5], s[HEADER..HEADER + n]), s[HEADER + n..])
  }

  /** A connection made to a remote host, and how much had been sent to hosts before it. */
  datatype Dial = Dial(address: seq<byte>, at: nat)

  /** Everything a slot has passed on, and whether it has a connection to a remote host. */
  datatype Traffic = Traffic(
    open: bool,
    dialled: seq<Dial>,
    control: seq<Datagram>,
    data: seq<Datagram>,
    remote: seq<byte>,
    replies: seq<byte>)

  /**
   * What a message meets: whether the connection was lost since the message before, what
   * connecting and waking the forwarder would return (zero for success), and how many
   * parts of a payload the remote host takes.
   */
  datatype Fate = Fate(lost: bool, connects: int, wakes: int, taken: nat)

  predicate IsResult(x: int) { -0x8000_0000 <= x <= 0 }

  predicate Possible(e: Fate) { IsResult(e.connects) && IsResult(e.wakes) }

  function Unsigned(x: int): nat
    requires IsResult(x)
  {
    if x < 0 then M32 + x else 0
  }

  function Status(x: int): Frame
    requires IsResult(x)
  {
    Frame(TCP_STATUS, [0, 0, 0, 0], WordBytes(Unsigned(x)))
  }

  /** The result an open request reports. */
  function OpenResult(connects: int, wakes: int): int { if connects == 0 then wakes else connects }

  /** An open request replaces the connection only if connecting works. */
  function Opening(t: Traffic, address: seq<byte>, connects: int, wakes: int): Traffic
    requires IsResult(connects) && IsResult(wakes)
  {
    var u := if connects == 0 then t.(open := wakes == 0, dialled := t.dialled + [Dial(address, |t.remote|)]) else t;
    u.(replies := t.replies + Encode(Status(OpenResult(connects, wakes))))
  }

  /** Data goes to the host part by part until the host fails; then the client is told. */
  function Delivering(t: Traffic, payload: seq<byte>, taken: nat): Traffic {
    var parts := Chunks(payload);
    var n := Reach(t, parts, taken);
    t.(open := t.open && n == |parts|,
       remote := t.remote + Concat(parts[..n]),
       replies := t.replies + if n < |parts| then Encode(CLOSE_FRAME) else [])
  }

  /** The effect of a message. */
  function Effect(before: Traffic, f: Frame, e: Fate): Traffic
    requires Possible(e)
  {
    var t := before.(open := before.open && !e.lost);
    if f.kind == TCP_OPEN then Opening(t, f.address, e.connects, e.wakes)
    else if f.kind == TCP_DATA then Delivering(t, f.payload, e.taken)
    else if f.kind == TCP_CLOSE then t.(open := false)
    else if f.kind == UDP_DATA then t.(data := t.data + Datagrams(f.address, DATA_PORT, Chunks(f.payload)))
    else if f.kind == UDP_CONTROL then t.(control := t.control + Datagrams(f.address, CONTROL_PORT, Chunks(f.payload)))
    else t
  }

  /** Parts on their way to the host: how many get there. */
  function Reach(t: Traffic, parts: seq<seq<byte>>, taken: nat): (n: nat)
    ensures n <= |parts|
  {
    if !t.open then 0 else if taken < |parts| then taken else |parts|
  }

  /** The effect of a message in whose payload the stream ends: whole buffers are passed on, and no close is sent. */
  function Broken(t: Traffic, kind: byte, address: seq<byte>, payload: seq<byte>, taken: nat): Traffic {
    var parts := Chunks(FullBuffers(payload));
    var n := Reach(t, parts, taken);
    if kind == TCP_DATA then t.(open := t.open && n == |parts|, remote := t.remote + Concat(parts[..n]))
    else if kind == UDP_DATA then t.(data := t.data + Datagrams(address, DATA_PORT, parts))
    else if kind == UDP_CONTROL then t.(control := t.control + Datagrams(address, CONTROL_PORT, parts))
    else t
  }

  const CLOSE_FRAME: Frame := Frame(TCP_CLOSE, [0, 0, 0, 0], [])

  class ProxyConn {
    const buff: array<byte>
    const client: Conn
    const tcp: Conn
    var control: seq<Datagram>   // datagrams handed to the control socket, in order
    var data: seq<Datagram>      // datagrams handed to the data socket, in order
    ghost var dialled: seq<Dial>

    ghost predicate Sized() { buff.Length == BUFF && client != tcp && client.whole && tcp.whole }

    constructor (client: Conn, tcp: Conn)
      requires client != tcp && client.whole && tcp.whole
      ensures Sized() && fresh(buff) && this.client == client && this.tcp == tcp
      ensures control == data == [] && dialled == []
    {
      buff := new byte[BUFF](_ => 0);
      this.client, this.tcp := client, tcp;
      control, data, dialled := [], [], [];
    }

    /** Receive the next part of a payload over whatever the buffer holds. */
    method ReceivePart(curr: nat) returns (ret: int)
      requires Sized() && 0 < curr <= BUFF
      modifies client`incoming, buff
      ensures ret < 0 ||
        (ret == curr <= |old(client.incoming)| && client.incoming == old(client.incoming)[curr..] &&
         buff[..curr] == old(client.incoming)[..curr])
      ensures client.connected && !client.faulty ==>
        if curr <= |old(client.incoming)| then ret == curr else ret < 0 && client.incoming == []
      ensures |client.incoming| <= |old(client.incoming)|
    {
      ret := client.Receive(buff, 0, curr);
    }

    /** The loop of both datagram messages; a datagram that cannot be sent is not retried. */
    method DrainToUdp(size: nat, address: seq<byte>, port: nat) returns (ret: int, sent: seq<Datagram>)
      requires Sized()
      modifies client`incoming, buff
      ensures ret <= 0
      ensures ret == 0 ==>
        size <= |old(client.incoming)| && client.incoming == old(client.incoming)[size..] &&
        sent == Datagrams(address, port, Chunks(old(client.incoming)[..size]))
      ensures client.connected && !client.faulty ==> (ret == 0 <==> size <= |old(client.incoming)|)
      ensures client.connected && !client.faulty && ret < 0 ==>
        client.incoming == [] && sent == Datagrams(address, port, Chunks(FullBuffers(old(client.incoming))))
      ensures |client.incoming| <= |old(client.incoming)|
    {
      hide Datagrams, Chunks, FullBuffers;
      ghost var stream := client.incoming;
      ghost var parts: seq<seq<byte>> := [];
      var left := size;
      sent := [];
      NoDatagrams(address, port);
      ProgressStarts(stream, size);
      hide Progress;
      while left > 0
        invariant 0 <= left <= size && size - left <= |stream| && client.incoming == stream[size - left..]
        invariant Progress(stream, size, left, parts) && sent == Datagrams(address, port, parts)
      {
        var curr := if left > BUFF then BUFF else left;
        ret := ReceivePart(curr);
        if ret < 0 {
          if |stream| < size - left + curr { ProgressBreaks(stream, size, left, parts); }
          return;
        }
        ghost var part := stream[size - left..size - left + curr];
        assert buff[..curr] == part;
        ProgressStep(stream, size, left, parts, curr);
        DatagramsAppend(address, port, parts, part);
        parts := parts + [part];
        sent := sent + [Datagram(address, port, buff[..curr])];
        left := left - curr;
      }
      ProgressDone(stream, size, parts);
      ret := 0;
    }

    method SendTcpClose() returns (ret: int)
      requires Sized()
      modifies client`outgoing
      ensures client.connected && !client.faulty ==> ret == 0
      ensures ret == 0 ==> client.outgoing == old(client.outgoing) + Encode(CLOSE_FRAME)
      ensures ret != 0 ==> client.outgoing == old(client.outgoing)
    {
      ghost var takes;
      ret, takes := client.Send(Encode(CLOSE_FRAME));
    }

    /** Pass a part on to the remote host; a failure closes the connection. */
    method ForwardPart(part: seq<byte>) returns (ret: int)
      requires Sized()
      modifies tcp`outgoing, tcp`connected
      ensures ret <= 0 && (old(tcp.connected) && !tcp.faulty ==> ret == 0) && (!old(tcp.connected) ==> ret < 0)
      ensures tcp.outgoing == old(tcp.outgoing) + if ret == 0 then part else []
      ensures tcp.connected == (ret == 0)
    {
      ghost var takes;
      ret, takes := tcp.Send(part);
      if ret < 0 { tcp.connected := false; }
    }

    /** TCP data: once the remote host refuses a part the rest is still received, but not sent. */
    method DrainToTcp(size: nat) returns (ret: int, ghost taken: nat)
      requires Sized()
      modifies client`incoming, client`outgoing, tcp`outgoing, tcp`connected, buff
      ensures ret <= 0 && |client.incoming| <= |old(client.incoming)|
      ensures client.connected && !client.faulty ==> (ret == 0 <==> size <= |old(client.incoming)|)
      ensures client.connected && !client.faulty && ret < 0 ==>
        && client.incoming == [] && client.outgoing == old(client.outgoing)
        && var parts := Chunks(FullBuffers(old(client.incoming)));
        && taken <= |parts| && (old(tcp.connected) && !tcp.faulty ==> taken == |parts|)
        && (!old(tcp.connected) ==> taken == 0)
        && tcp.outgoing == old(tcp.outgoing) + Concat(parts[..taken])
        && tcp.connected == (old(tcp.connected) && taken == |parts|)
      ensures ret == 0 ==>
        && size <= |old(client.incoming)| && client.incoming == old(client.incoming)[size..]
        && var parts := Chunks(old(client.incoming)[..size]);
        && taken <= |parts| && (old(tcp.connected) && !tcp.faulty ==> taken == |parts|)
        && (!old(tcp.connected) ==> taken == 0)
        && tcp.outgoing == old(tcp.outgoing) + Concat(parts[..taken])
        && tcp.connected == (old(tcp.connected) && taken == |parts|)
        && (client.connected && !client.faulty ==>
              client.outgoing == old(client.outgoing) + if taken < |parts| then Encode(CLOSE_FRAME) else [])
    {
      hide Concat, Chunks, Encode, FullBuffers;
      ghost var stream := client.incoming;
      ghost var parts: seq<seq<byte>> := [];
      var left := size;
      var tcpRet := 0;
      taken := 0;
      NoParts();
      ProgressStarts(stream, size);
      hide Progress;
      while left > 0
        invariant 0 <= left <= size && size - left <= |stream| && client.incoming == stream[size - left..]
        invariant Progress(stream, size, left, parts)
        invariant taken <= |parts| && tcp.outgoing == old(tcp.outgoing) + Concat(parts[..taken])
        invariant tcpRet == 0 ==> taken == |parts| && tcp.connected == old(tcp.connected)
        invariant !old(tcp.connected) ==> taken == 0
        invariant tcpRet != 0 ==> taken < |parts| && !tcp.connected && (tcp.faulty || !old(tcp.connected))
        invariant client.outgoing == old(client.outgoing)
      {
        var curr := if left > BUFF then BUFF else left;
        ret := ReceivePart(curr);
        if ret < 0 {
          if |stream| < size - left + curr { ProgressBreaks(stream, size, left, parts); }
          return;
        }
        ghost var part := stream[size - left..size - left + curr];
        assert buff[..curr] == part;
        ProgressStep(stream, size, left, parts, curr);
        assert (parts + [part])[..taken] == parts[..taken];
        if tcpRet == 0 {
          tcpRet := ForwardPart(buff[..curr]);
          if tcpRet == 0 {
            ConcatAppend(parts, part);
            assert parts[..taken] == parts && (parts + [part])[..taken + 1] == parts + [part];
            taken := taken + 1;
          }
        }
        parts := parts + [part];
        left := left - curr;
      }
      ProgressDone(stream, size, parts);
      assert parts[..|parts|] == parts;
      if tcpRet != 0 { var r := SendTcpClose(); }
      ret := 0;
    }

    ghost function Now(): Traffic
      reads this, client, tcp
    {
      Traffic(tcp.connected, dialled, control, data, tcp.outgoing, client.outgoing)
    }

    /**
     * Open request: connect, wake the forwarder, and report.  A connection there was
     * is not closed first, so it stays when connecting fails.
     */
    method OpenTcp(address: seq<byte>, connects: int, wakes: int) returns (ret: int)
      requires Sized() && IsResult(connects) && IsResult(wakes)
      modifies `dialled, client`outgoing, tcp`connected
      ensures ret <= 0 && (client.connected && !client.faulty ==> ret == 0)
      ensures ret == 0 ==> Now() == Opening(old(Now()), address, connects, wakes)
    {
      hide Encode;
      var r := connects;
      if r == 0 {
        tcp.connected, dialled := true, dialled + [Dial(address, |tcp.outgoing|)];
        r := wakes;
        if r < 0 { tcp.connected := false; }
      }
      ghost var takes;
      ret, takes := client.Send(Encode(Status(r)));
    }

    /** Handle a message whose header has been received; its payload is next on the stream. */
    method Dispatch(kind: byte, address: seq<byte>, size: nat, connects: int, wakes: int)
        returns (ret: int, ghost taken: nat)
      requires Sized() && IsResult(connects) && IsResult(wakes)
      modifies this, client`incoming, client`outgoing, tcp`connected, tcp`outgoing, buff
      ensures ret <= 0 && old(control) <= control && old(data) <= data
      ensures |client.incoming| <= |old(client.incoming)|
      ensures ret == 0 ==>
        var n := if Drains(kind) then size else 0;
        && Known(kind) && n <= |old(client.incoming)| && client.incoming == old(client.incoming)[n..]
        && var payload := old(client.incoming)[..n];
           var t := Effect(old(Now()), Frame(kind, address, payload), Fate(false, connects, wakes, taken));
        && control == t.control && data == t.data && (!tcp.faulty ==> taken == |Chunks(payload)|)
        && (client.connected && !client.faulty ==> Now() == t)
      ensures client.connected && !client.faulty ==>
        (ret == 0 <==> Known(kind) && (Drains(kind) ==> size <= |old(client.incoming)|))
      ensures client.connected && !client.faulty && Drains(kind) && |old(client.incoming)| < size ==>
        && client.incoming == [] && Now() == Broken(old(Now()), kind, address, old(client.incoming), taken)
        && (!tcp.faulty ==> taken == |Chunks(FullBuffers(old(client.incoming)))|)
      ensures !Known(kind) ==> ret == -EINVAL && client.incoming == old(client.incoming) && Now() == old(Now())
    {
      hide Chunks, Datagrams, Encode, Opening, Concat, FullBuffers;
      ghost var p := client.incoming;
      ghost var wasOpen := tcp.connected;
      taken := |Chunks(if !Drains(kind) then [] else if size <= |p| then p[..size] else FullBuffers(p))|;
      assert p[..0] == [] && p[0..] == p;
      if kind == TCP_OPEN {
        ret := OpenTcp(address, connects, wakes);
      } else if kind == TCP_DATA {
        ghost var n;
        ret, n := DrainToTcp(size);
        if wasOpen { taken := n; }
      } else if kind == TCP_CLOSE {
        tcp.connected := false;
        ret := 0;
      } else if kind == UDP_DATA {
        var sent;
        ret, sent := DrainToUdp(size, address, DATA_PORT);
        data := data + sent;
      } else if kind == UDP_CONTROL {
        var sent;
        ret, sent := DrainToUdp(size, address, CONTROL_PORT);
        control := control + sent;
      } else {
        ret := -EINVAL;
      }
    }

    /** Receive one header and handle its message. */
    method Process(connects: int, wakes: int) returns (ret: int, ghost taken: nat)
      requires Sized() && IsResult(connects) && IsResult(wakes)
      modifies this, client`incoming, client`outgoing, tcp`connected, tcp`outgoing, buff
      ensures ret <= 0 && old(control) <= control && old(data) <= data
      ensures |client.incoming| <= |old(client.incoming)|
      ensures ret == 0 ==> Read(old(client.incoming)).Got? && client.incoming == Read(old(client.incoming)).rest
      ensures client.connected && !client.faulty && Read(old(client.incoming)).Got? ==> ret == 0
      ensures ret == 0 ==>
        var f := Read(old(client.incoming)).frame;
        var t := Effect(old(Now()), f, Fate(false, connects, wakes, taken));
        && control == t.control && data == t.data && (!tcp.faulty ==> taken == |Chunks(f.payload)|)
        && (client.connected && !client.faulty ==> Now() == t)
      ensures |old(client.incoming)| < HEADER ==> Now() == old(Now())
      ensures client.connected && !client.faulty && Read(old(client.incoming)).Incomplete? ==>
        Now() == Unfinished(old(Now()), old(client.incoming), taken)
      ensures client.connected && !client.faulty && HEADER <= |old(client.incoming)| &&
              !Known(old(client.incoming)[0]) ==>
        ret == -EINVAL && client.incoming == old(client.incoming)[HEADER..]
      ensures client.connected && !client.faulty && !tcp.faulty && BreaksOff(old(client.incoming)) ==>
        taken == |Chunks(FullBuffers(old(client.incoming)[HEADER..]))|
    {
      hide Chunks, Word, Effect, Broken, FullBuffers;
      taken := 0;
      ghost var s := client.incoming;
      ret := client.Receive(buff, 0, HEADER);
      if ret < 0 { return; }
      assert buff[..HEADER] == s[..HEADER];
      var kind, address := buff[0], buff[1..5];
      var size := Word(buff[5], buff[6], buff[7], buff[8]);
      assert kind == s[0] && address == s[1..5] && size == SizeOf(s);
      ghost var n := if Drains(kind) then size else 0;
      assert HEADER + n <= |s| ==>
        s[HEADER..][..n] == s[HEADER..HEADER + n] && s[HEADER..][n..] == s[HEADER + n..];
      ret, taken := Dispatch(kind, address, size, connects, wakes);
    }

    /**
     * Process messages until one fails.  Before each, the forwarder may have found the
     * connection to the remote host ended, and closed it.
     */
    method Serve(lost: nat -> bool, connects: nat -> int, wakes: nat -> int)
        returns (ret: int, ghost fates: seq<Fate>, ghost taken: nat)
      requires Sized() && forall i :: IsResult(connects(i)) && IsResult(wakes(i))
      modifies this, client`incoming, client`outgoing, tcp`connected, tcp`outgoing, buff
      ensures ret < 0
      ensures client.connected && !client.faulty ==>
        var frames, rest := Served(old(client.incoming)), Leftover(old(client.incoming));
        && Fates(fates, frames, lost, connects, wakes, !tcp.faulty)
        && Now() == Unfinished(Lose(Effects(old(Now()), frames, fates), lost(|frames|)), rest, taken)
        && (!tcp.faulty && BreaksOff(rest) ==> taken == |Chunks(FullBuffers(rest[HEADER..]))|)
    {
      hide Effects, Lose, Fates, AllPossible, Effect, Broken, Chunks, FullBuffers;
      ghost var s := client.incoming;
      ghost var done: seq<Frame> := [];
      var k := 0;
      ret, fates, taken := 0, [], 0;
      NoEffects(Now(), lost, connects, wakes, !tcp.faulty);
      while ret >= 0
        invariant Sized() && k == |done| && client.connected == old(client.connected)
        invariant AllPossible(done, fates) && Fates(fates, done, lost, connects, wakes, !tcp.faulty)
        invariant client.connected && !client.faulty ==>
          if ret >= 0 then
            done + Served(client.incoming) == Served(s) && Leftover(client.incoming) == Leftover(s) &&
            Now() == Effects(old(Now()), done, fates)
          else
            && done == Served(s)
            && Now() == Unfinished(Lose(Effects(old(Now()), done, fates), lost(k)), Leftover(s), taken)
            && (!tcp.faulty && BreaksOff(Leftover(s)) ==> taken == |Chunks(FullBuffers(Leftover(s)[HEADER..]))|)
        decreases |client.incoming| + if ret >= 0 then 1 else 0
      {
        ghost var t, before := Now(), client.incoming;
        assert Lose(t, lost(k)) == t.(open := t.open && !lost(k)) by { LoseMeans(t, lost(k)); }
        if lost(k) { tcp.connected := false; }
        ret, taken := Process(connects(k), wakes(k));
        if ret >= 0 {
          ghost var f, e := Read(before).frame, Fate(lost(k), connects(k), wakes(k), taken);
          MoreEffects(old(Now()), done, fates, f, e, lost, connects, wakes, !tcp.faulty);
          EffectOfLost(t, f, e);
          Reassociate(done, [f], Served(client.incoming));
          done, fates := done + [f], fates + [e];
          k := k + 1;
        }
      }
    }
  }

  /** The messages a stream holds, as the processing thread reads them. */
  function Served(s: seq<byte>): seq<Frame>
    decreases |s|
  {
    var p := Read(s);
    if p.Incomplete? then [] else [p.frame] + Served(p.rest)
  }

  /** Where reading stops. */
  function Leftover(s: seq<byte>): seq<byte>
    decreases |s|
  {
    var p := Read(s);
    if p.Incomplete? then s else Leftover(p.rest)
  }

  /** The stream ends inside the payload of a message. */
  predicate BreaksOff(s: seq<byte>) { HEADER <= |s| && Drains(s[0]) && |s| < HEADER + SizeOf(s) }

  /** The effect of what is left when no whole message is. */
  function Unfinished(t: Traffic, s: seq<byte>, taken: nat): Traffic {
    if BreaksOff(s) then Broken(t, s[0], s[1..5], s[HEADER..], taken) else t
  }

  predicate AllPossible(frames: seq<Frame>, fates: seq<Fate>) {
    |fates| == |frames| && forall i | 0 <= i < |fates| :: Possible(fates[i])
  }

  /** The effects of messages in turn. */
  function Effects(t: Traffic, frames: seq<Frame>, fates: seq<Fate>): Traffic
    requires AllPossible(frames, fates)
  {
    if frames == [] then t else
      var last := |frames| - 1;
      Effect(Effects(t, frames[..last], fates[..last]), frames[last], fates[last])
  }

  /** The forwarder has closed the connection, or not. */
  function Lose(t: Traffic, lost: bool): Traffic { t.(open := t.open && !lost) }

  /** What the messages of a stream met; a sound remote host takes all parts. */
  ghost predicate Fates(fates: seq<Fate>, frames: seq<Frame>, lost: nat -> bool, connects: nat -> int,
                        wakes: nat -> int, sound: bool) {
    && AllPossible(frames, fates)
    && (forall i | 0 <= i < |fates| :: fates[i] == Fate(lost(i), connects(i), wakes(i), fates[i].taken))
    && (sound ==> forall i | 0 <= i < |fates| :: fates[i].taken == |Chunks(frames[i].payload)|)
  }

  lemma LoseMeans(t: Traffic, lost: bool)
    ensures Lose(t, lost) == t.(open := t.open && !lost)
  {
  }

  lemma NoEffects(t: Traffic, lost: nat -> bool, connects: nat -> int, wakes: nat -> int, sound: bool)
    ensures AllPossible([], []) && Fates([], [], lost, connects, wakes, sound) && Effects(t, [], []) == t
  {
  }

  lemma MoreEffects(t: Traffic, frames: seq<Frame>, fates: seq<Fate>, f: Frame, e: Fate,
                    lost: nat -> bool, connects: nat -> int, wakes: nat -> int, sound: bool)
    requires Fates(fates, frames, lost, connects, wakes, sound) && Possible(e)
    requires e == Fate(lost(|frames|), connects(|frames|), wakes(|frames|), e.taken)
    requires sound ==> e.taken == |Chunks(f.payload)|
    ensures AllPossible(frames + [f], fates + [e]) && Fates(fates + [e], frames + [f], lost, connects, wakes, sound)
    ensures Effects(t, frames + [f], fates + [e]) == Effect(Effects(t, frames, fates), f, e)
  {
    hide Effect, Chunks;
    assert (frames + [f])[..|frames|] == frames && (fates + [e])[..|fates|] == fates;
  }

  lemma EffectOfLost(t: Traffic, f: Frame, e: Fate)
    requires Possible(e)
    ensures Effect(t, f, e) == Effect(Lose(t, e.lost), f, e.(lost := false))
  {
  }

  // ---- the connection to the remote host ----

  /**
   * The status an open request reports tells whether there is a connection, exactly
   * when connecting works or there was no connection before.
   */
  lemma StatusTellsIff(t: Traffic, address: seq<byte>, connects: int, wakes: int)
    requires IsResult(connects) && IsResult(wakes)
    ensures (Opening(t, address, connects, wakes).open <==>
               Status(OpenResult(connects, wakes)).payload == [0, 0, 0, 0]) <==>
            connects == 0 || !t.open
  {
    StatusIsZero(OpenResult(connects, wakes));
    hide WordBytes;
  }

  predicate Opens(f: Frame, e: Fate) { f.kind == TCP_OPEN && e.connects == 0 && e.wakes == 0 }

  /** A message at which a connection there was ends: a failed connect is not one. */
  predicate Ends(f: Frame, e: Fate) {
    || e.lost || f.kind == TCP_CLOSE
    || (f.kind == TCP_OPEN && e.connects == 0)
    || (f.kind == TCP_DATA && e.taken < |Chunks(f.payload)|)
  }

  predicate LastsFrom(frames: seq<Frame>, fates: seq<Fate>, i: nat)
    requires |fates| == |frames|
  {
    forall j | i <= j < |frames| :: !Ends(frames[j], fates[j])
  }

  /** After any messages there is a connection exactly when one opened it, or there was one, and none ended it since. */
  lemma {:induction false} OpenIff(t: Traffic, frames: seq<Frame>, fates: seq<Fate>)
    requires AllPossible(frames, fates)
    ensures Effects(t, frames, fates).open <==>
      || (t.open && LastsFrom(frames, fates, 0))
      || exists i :: 0 <= i < |frames| && Opens(frames[i], fates[i]) && LastsFrom(frames, fates, i + 1)
  {
    if frames != [] {
      var last := |frames| - 1;
      var fs, es := frames[..last], fates[..last];
      OpenIff(t, fs, es);
      OpenAfter(Effects(t, fs, es), frames[last], fates[last]);
      hide Effect, Ends, Opens, LastsFrom;
      LastsSnoc(frames, fates, 0);
      forall i | 1 <= i <= last
        ensures LastsFrom(frames, fates, i) <==> LastsFrom(fs, es, i) && !Ends(frames[last], fates[last])
      {
        LastsSnoc(frames, fates, i);
      }
      LastsAtEnd(frames, fates);
      assert forall i | 0 <= i < last :: frames[i] == fs[i] && fates[i] == es[i];
    } else {
      assert LastsFrom(frames, fates, 0);
    }
  }

  lemma LastsSnoc(frames: seq<Frame>, fates: seq<Fate>, i: nat)
    requires |fates| == |frames| && i < |frames|
    ensures var last := |frames| - 1;
      LastsFrom(frames, fates, i) <==>
      LastsFrom(frames[..last], fates[..last], i) && !Ends(frames[last], fates[last])
  {
    hide Ends;
    var last := |frames| - 1;
    assert forall j | 0 <= j < last :: frames[j] == frames[..last][j] && fates[j] == fates[..last][j];
  }

  lemma LastsAtEnd(frames: seq<Frame>, fates: seq<Fate>)
    requires |fates| == |frames|
    ensures LastsFrom(frames, fates, |frames|)
  {
  }

  lemma OpenAfter(t: Traffic, f: Frame, e: Fate)
    requires Possible(e)
    ensures Effect(t, f, e).open <==> Opens(f, e) || (t.open && !Ends(f, e))
  {
    hide Chunks, Datagrams, Encode, Concat;
  }

  /** Connections in the order they were made. */
  predicate InOrder(t: Traffic) {
    && (forall i | 0 <= i < |t.dialled| :: t.dialled[i].at <= |t.remote|)
    && (forall i, j | 0 <= i < j < |t.dialled| :: t.dialled[i].at <= t.dialled[j].at)
  }

  /** What the i-th host dialled was sent. */
  function Received(t: Traffic, i: nat): seq<byte>
    requires InOrder(t) && i < |t.dialled|
  {
    t.remote[t.dialled[i].at..if i + 1 < |t.dialled| then t.dialled[i + 1].at else |t.remote|]
  }

  /** Each host keeps what it was sent; only the one dialled last is sent more, and only by data messages. */
  lemma DataGoesToTheLastDialled(t: Traffic, f: Frame, e: Fate)
    requires Possible(e) && InOrder(t)
    ensures var u := Effect(t, f, e);
      && InOrder(u) && t.dialled <= u.dialled && t.remote <= u.remote
      && (f.kind != TCP_DATA ==> u.remote == t.remote)
      && (forall i | 0 <= i < |t.dialled| ::
            Received(u, i) == Received(t, i) + if i + 1 == |t.dialled| then u.remote[|t.remote|..] else [])
      && (u.dialled != t.dialled ==> u.dialled == t.dialled + [Dial(f.address, |t.remote|)])
  {
    hide Chunks, Datagrams, Encode, Concat;
    var u := Effect(t, f, e);
    forall i | 0 <= i < |t.dialled|
      ensures Received(u, i) == Received(t, i) + if i + 1 == |t.dialled| then u.remote[|t.remote|..] else []
    {
      ReceivedAfter(t, u, i, f.address);
    }
  }

  lemma ReceivedAfter(t: Traffic, u: Traffic, i: nat, address: seq<byte>)
    requires InOrder(t) && InOrder(u) && i < |t.dialled| && t.remote <= u.remote
    requires u.dialled == t.dialled || (u.dialled == t.dialled + [Dial(address, |t.remote|)] && u.remote == t.remote)
    ensures Received(u, i) == Received(t, i) + if i + 1 == |t.dialled| then u.remote[|t.remote|..] else []
  {
    assert u.dialled[i] == t.dialled[i];
    if i + 1 == |t.dialled| {
      assert u.remote == t.remote + u.remote[|t.remote|..];
    } else {
      assert u.dialled[i + 1] == t.dialled[i + 1];
    }
  }

  /** What a message makes a host be sent. */
  function Delivered(t: Traffic, f: Frame, e: Fate): seq<byte> {
    if f.kind != TCP_DATA then [] else
      var parts := Chunks(f.payload);
      Concat(parts[..Reach(t.(open := t.open && !e.lost), parts, e.taken)])
  }

  lemma RemoteGrows(t: Traffic, f: Frame, e: Fate)
    requires Possible(e)
    ensures Effect(t, f, e).remote == t.remote + Delivered(t, f, e)
  {
    hide Chunks, Datagrams, Encode, Concat;
  }

  /** What messages make the i-th host dialled be sent: whatever is delivered while it is the last one dialled. */
  function ShareOf(t: Traffic, frames: seq<Frame>, fates: seq<Fate>, i: nat): seq<byte>
    requires AllPossible(frames, fates)
  {
    if frames == [] then [] else
      var last := |frames| - 1;
      var u := Effects(t, frames[..last], fates[..last]);
      ShareOf(t, frames[..last], fates[..last], i) +
      if |u.dialled| == i + 1 then Delivered(u, frames[last], fates[last]) else []
  }

  /** From t to u the hosts dialled stay in order, and the i-th is sent exactly these bytes. */
  predicate Sends(t: Traffic, u: Traffic, i: nat, bytes: seq<byte>)
    requires InOrder(t)
  {
    && InOrder(u) && t.dialled <= u.dialled
    && (i < |u.dialled| ==> Received(u, i) == (if i < |t.dialled| then Received(t, i) else []) + bytes)
  }

  lemma SendsNothing(t: Traffic, i: nat)
    requires InOrder(t)
    ensures Sends(t, t, i, [])
  {
  }

  lemma SendsOn(t: Traffic, u: Traffic, v: Traffic, i: nat, a: seq<byte>, b: seq<byte>)
    requires InOrder(t) && Sends(t, u, i, a) && Sends(u, v, i, b) && (|u.dialled| <= i ==> a == [])
    ensures Sends(t, v, i, a + b)
  {
    hide Received, InOrder;
    if i < |t.dialled| { Reassociate(Received(t, i), a, b); }
  }

  /** Over any messages, each host is sent exactly its share, on top of what it had. */
  lemma {:induction false} HostsGetTheirShares(t: Traffic, frames: seq<Frame>, fates: seq<Fate>, i: nat)
    requires AllPossible(frames, fates) && InOrder(t)
    ensures Sends(t, Effects(t, frames, fates), i, ShareOf(t, frames, fates, i))
  {
    hide Sends, Received, InOrder, Effect, Delivered;
    if frames == [] {
      SendsNothing(t, i);
    } else {
      var last := |frames| - 1;
      var fs, es := frames[..last], fates[..last];
      var u := Effects(t, fs, es);
      HostsGetTheirShares(t, fs, es, i);
      OrderedAfter(t, u, i, ShareOf(t, fs, es, i));
      HostAfter(u, frames[last], fates[last], i);
      if |u.dialled| <= i { NothingAhead(t, fs, es, i); }
      SendsOn(t, u, Effect(u, frames[last], fates[last]), i, ShareOf(t, fs, es, i),
              if |u.dialled| == i + 1 then Delivered(u, frames[last], fates[last]) else []);
    }
  }

  lemma OrderedAfter(t: Traffic, u: Traffic, i: nat, bytes: seq<byte>)
    requires InOrder(t) && Sends(t, u, i, bytes)
    ensures InOrder(u)
  {
  }

  /** One message more: a host dialled before gets what is delivered if it is the last, a new one nothing yet. */
  lemma HostAfter(t: Traffic, f: Frame, e: Fate, i: nat)
    requires Possible(e) && InOrder(t)
    ensures Sends(t, Effect(t, f, e), i, if |t.dialled| == i + 1 then Delivered(t, f, e) else [])
  {
    DataGoesToTheLastDialled(t, f, e);
    RemoteGrows(t, f, e);
    hide Effect, Delivered;
  }

  /** A host that has not been dialled yet has no share. */
  lemma {:induction false} NothingAhead(t: Traffic, frames: seq<Frame>, fates: seq<Fate>, i: nat)
    requires AllPossible(frames, fates) && |Effects(t, frames, fates).dialled| <= i
    ensures ShareOf(t, frames, fates, i) == []
  {
    if frames != [] {
      var last := |frames| - 1;
      DialsGrow(Effects(t, frames[..last], fates[..last]), frames[last], fates[last]);
      hide Effect, Delivered;
      NothingAhead(t, frames[..last], fates[..last], i);
    }
  }

  lemma DialsGrow(t: Traffic, f: Frame, e: Fate)
    requires Possible(e)
    ensures t.dialled <= Effect(t, f, e).dialled
  {
    hide Chunks, Datagrams, Encode, Concat;
  }

  /**
   * An open that works, one that is refused, and data: the client is told of the
   * refusal, and the data goes to the first host.
   */
  lemma RefusedOpenKeepsTheFirstHost(t: Traffic, a: seq<byte>, b: seq<byte>, p: seq<byte>)
    requires 0 < |p| <= BUFF
    ensures var frames := [Frame(TCP_OPEN, a, []), Frame(TCP_OPEN, b, []), Frame(TCP_DATA, a, p)];
      var fates := [Fate(false, 0, 0, 0), Fate(false, -111, 0, 0), Fate(false, 0, 0, 1)];
      && AllPossible(frames, fates)
      && var u := Effects(t, frames, fates);
         u.open && u.dialled == t.dialled + [Dial(a, |t.remote|)] && u.remote == t.remote + p &&
         u.replies == t.replies + Encode(Status(0)) + Encode(Status(-111))
  {
    hide Encode, Status;
    var f0, f1, f2 := Frame(TCP_OPEN, a, []), Frame(TCP_OPEN, b, []), Frame(TCP_DATA, a, p);
    var e0, e1, e2 := Fate(false, 0, 0, 0), Fate(false, -111, 0, 0), Fate(false, 0, 0, 1);
    assert [f0, f1, f2][..2] == [f0, f1] && [e0, e1, e2][..2] == [e0, e1];
    assert [f0, f1][..1] == [f0] && [e0, e1][..1] == [e0] && [f0][..0] == [] && [e0][..0] == [];
    var u0 := Effect(t, f0, e0);
    assert Effects(t, [f0], [e0]) == u0;
    var u1 := Effect(u0, f1, e1);
    assert Effects(t, [f0, f1], [e0, e1]) == u1;
    assert Chunks(p) == [p] && [p][..1] == [p] && Concat([p]) == p;
  }

  /** A frame this side reads as its sender meant it. */
  predicate Plain(f: Frame) { Known(f.kind) && (Drains(f.kind) || f.payload == []) }

  lemma ReadOne(f: Frame, rest: seq<byte>)
    requires Encodable(f)
    ensures Plain(f) ==> Read(Encode(f) + rest) == Got(f, rest)
    ensures !Plain(f) ==> Read(Encode(f) + rest).Incomplete? || Read(Encode(f) + rest).frame != f
  {
    hide Word, WordBytes, Header, SizeOf;
    var s := Encode(f) + rest;
    HeaderFields(f, f.payload + rest);
    assert s == Header(f) + (f.payload + rest);
    assert s[HEADER..HEADER + |f.payload|] == f.payload && s[HEADER + |f.payload|..] == rest;
  }

  /** A stream of frames is served frame by frame to its end exactly when each is plain. */
  lemma {:induction false} ServedIffPlain(frames: seq<Frame>)
    requires AllEncodable(frames)
    ensures Served(EncodeAll(frames)) == frames && Leftover(EncodeAll(frames)) == [] <==>
            forall i | 0 <= i < |frames| :: Plain(frames[i])
  {
    if frames != [] {
      var f, rest := frames[0], EncodeAll(frames[1..]);
      ServedOne(f, rest);
      ServedIffPlain(frames[1..]);
      hide Served, Leftover, Encode, Plain;
      assert EncodeAll(frames) == Encode(f) + rest;
      if Plain(f) {
        SameTails(f, Served(rest), frames);
      }
    }
  }

  lemma SameTails(f: Frame, served: seq<Frame>, frames: seq<Frame>)
    requires frames != [] && f == frames[0]
    ensures [f] + served == frames <==> served == frames[1..]
  {
    assert frames == [f] + frames[1..];
    if [f] + served == frames { assert served == ([f] + served)[1..]; }
  }

  lemma ServedOne(f: Frame, rest: seq<byte>)
    requires Encodable(f)
    ensures var s := Encode(f) + rest;
      if Plain(f) then Served(s) == [f] + Served(rest) && Leftover(s) == Leftover(rest)
      else Served(s) == [] || Served(s)[0] != f
  {
    ReadOne(f, rest);
    hide Read, Encode, Plain;
  }

  /** An open request with a payload leaves the payload to be read as the next header. */
  lemma OpenWithPayloadDesynchronises()
    ensures var f := Frame(TCP_OPEN, [0, 0, 0, 0], [TCP_CLOSE]);
      Encodable(f) && Served(EncodeAll([f])) != [f] && Leftover(EncodeAll([f])) == [TCP_CLOSE]
  {
    var f := Frame(TCP_OPEN, [0, 0, 0, 0], [TCP_CLOSE]);
    HeaderFields(f, f.payload);
    hide Word, WordBytes, Header, SizeOf;
    assert [f][1..] == [];
    var s := Encode(f) + [];
    assert s == Header(f) + f.payload;
    assert Read(s).Got? && Read(s).frame.payload == [] && Read(s).rest == [TCP_CLOSE];
    assert Read([TCP_CLOSE]).Incomplete?;
  }

  function Carried(ds: seq<Datagram>): seq<byte> {
    if ds == [] then [] else ds[0].bytes + Carried(ds[1..])
  }

  /** The datagrams of a payload go to one place, fit the buffer, and carry the payload in order. */
  lemma DatagramsCarry(address: seq<byte>, port: nat, payload: seq<byte>)
    ensures var ds := Datagrams(address, port, Chunks(payload));
      && Carried(ds) == payload
      && (forall i | 0 <= i < |ds| :: ds[i].address == address && ds[i].port == port && 0 < |ds[i].bytes| <= BUFF)
  {
    ChunksCover(payload);
    DatagramsAreParts(address, port, Chunks(payload));
  }

  lemma {:induction false} DatagramsAreParts(address: seq<byte>, port: nat, parts: seq<seq<byte>>)
    ensures var ds := Datagrams(address, port, parts);
      && |ds| == |parts| && Carried(ds) == Concat(parts)
      && (forall i | 0 <= i < |ds| :: ds[i] == Datagram(address, port, parts[i]))
  {
    if parts != [] { DatagramsAreParts(address, port, parts[1..]); }
  }

  /** The reported status is zero exactly when connecting and waking worked. */
  lemma StatusIsZero(x: int)
    requires -0x8000_0000 <= x <= 0
    ensures Status(x).payload == [0, 0, 0, 0] <==> x == 0
  {
    hide WordBytes, Word;
    WordRoundTrip(Unsigned(x));
    WordRoundTrip(0);
    ZeroWord();
  }

  lemma ZeroWord()
    ensures WordBytes(0) == [0, 0, 0, 0]
  {
  }

  lemma NoDatagrams(address: seq<byte>, port: nat)
    ensures Datagrams(address, port, []) == []
  {
  }

  lemma NoParts()
    ensures Concat([]) == []
  {
  }
}
