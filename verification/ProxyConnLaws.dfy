/** What the messages of a client come to, in the numbers of the wire: kinds, ports, statuses and addresses. */
module ProxyConnectionLaws {
  import opened Bytes
  import opened Frames
  import opened ProxyConnection

  // ---- datagrams ----

  /** These datagrams carry the payload to one place, in buffers of 4096 bytes and a rest. */
  predicate Carry(ds: seq<Datagram>, address: seq<byte>, port: nat, payload: seq<byte>) {
    && Carried(ds) == payload
    && (forall i | 0 <= i < |ds| :: ds[i].address == address && ds[i].port == port && 0 < |ds[i].bytes| <= 4096)
    && (forall i | 0 <= i < |ds| - 1 :: |ds[i].bytes| == 4096)
  }

  lemma {:induction false} FullButLast(p: seq<byte>, i: nat)
    requires i < |Chunks(p)| - 1
    ensures |Chunks(p)[i]| == 4096
    decreases |p|
  {
    if |p| > BUFF && i > 0 { FullButLast(p[BUFF..], i - 1); }
  }

  lemma DatagramsDoCarry(address: seq<byte>, port: nat, payload: seq<byte>)
    ensures Carry(Datagrams(address, port, Chunks(payload)), address, port, payload)
  {
    DatagramsCarry(address, port, payload);
    DatagramsAreParts(address, port, Chunks(payload));
    var ds := Datagrams(address, port, Chunks(payload));
    forall i | 0 <= i < |ds| - 1 ensures |ds[i].bytes| == 4096 { FullButLast(payload, i); }
  }

  /** A message of kind 5 goes to the data socket and port 5198, one of kind 6 to the control socket and port 5199. */
  lemma EffectRoutes(t: Traffic, f: Frame, e: Fate)
    requires Possible(e)
    ensures var u := Effect(t, f, e);
      && t.data <= u.data && t.control <= u.control
      && (if f.kind == 5 then Carry(u.data[|t.data|..], f.address, 5198, f.payload) else u.data == t.data)
      && (if f.kind == 6 then Carry(u.control[|t.control|..], f.address, 5199, f.payload) else u.control == t.control)
  {
    DatagramsDoCarry(f.address, 5198, f.payload);
    DatagramsDoCarry(f.address, 5199, f.payload);
    hide Carry, Chunks, Datagrams, Opening, Delivering;
  }

  /** The same of a message that breaks off, for as much of it as fills whole buffers. */
  lemma BrokenRoutes(t: Traffic, kind: byte, address: seq<byte>, payload: seq<byte>, taken: nat)
    ensures var u := Broken(t, kind, address, payload, taken);
      var whole := payload[..|payload| / 4096 * 4096];
      && t.data <= u.data && t.control <= u.control && u.replies == t.replies && u.dialled == t.dialled
      && (if kind == 5 then Carry(u.data[|t.data|..], address, 5198, whole) else u.data == t.data)
      && (if kind == 6 then Carry(u.control[|t.control|..], address, 5199, whole) else u.control == t.control)
      && (kind != 2 ==> u.remote == t.remote && u.open == t.open)
      && (kind == 2 ==> t.remote <= u.remote && u.remote[|t.remote|..] <= whole)
      && (kind == 2 && t.open && taken >= |payload| / 4096 ==> u.remote == t.remote + whole && u.open)
  {
    var whole := payload[..|payload| / 4096 * 4096];
    assert FullBuffers(payload) == whole;
    hide Carry, Chunks, Datagrams, Concat, FullBuffers;
    DatagramsDoCarry(address, 5198, whole);
    DatagramsDoCarry(address, 5199, whole);
    WholeChunks(whole);
    SomeParts(whole, Reach(t, Chunks(whole), taken));
  }

  lemma {:induction false} WholeChunks(p: seq<byte>)
    requires |p| % 4096 == 0
    ensures |Chunks(p)| == |p| / 4096
    decreases |p|
  {
    if |p| > BUFF { WholeChunks(p[BUFF..]); }
  }

  lemma {:induction false} ConcatSplits(a: seq<seq<byte>>, b: seq<seq<byte>>)
    ensures Concat(a + b) == Concat(a) + Concat(b)
  {
    if a == [] {
      assert a + b == b;
    } else {
      assert (a + b)[1..] == a[1..] + b;
      ConcatSplits(a[1..], b);
    }
  }

  /** All the datagrams of the messages of one kind. */
  function Routed(frames: seq<Frame>, kind: byte, port: nat): seq<Datagram> {
    if frames == [] then [] else
      var last := |frames| - 1;
      Routed(frames[..last], kind, port) +
      if frames[last].kind == kind then Datagrams(frames[last].address, port, Chunks(frames[last].payload)) else []
  }

  /** Over any messages, each socket is handed exactly the datagrams of its own kind, in order. */
  lemma {:induction false} SocketsGetTheirOwn(t: Traffic, frames: seq<Frame>, fates: seq<Fate>)
    requires AllPossible(frames, fates)
    ensures var u := Effects(t, frames, fates);
      u.data == t.data + Routed(frames, 5, 5198) && u.control == t.control + Routed(frames, 6, 5199)
  {
    if frames != [] {
      var last := |frames| - 1;
      var f := frames[last];
      var u := Effects(t, frames[..last], fates[..last]);
      SocketsGetTheirOwn(t, frames[..last], fates[..last]);
      EffectAdds(u, f, fates[last]);
      hide Effect, Chunks, Datagrams;
      Reassociate(t.data, Routed(frames[..last], 5, 5198),
                  if f.kind == 5 then Datagrams(f.address, 5198, Chunks(f.payload)) else []);
      Reassociate(t.control, Routed(frames[..last], 6, 5199),
                  if f.kind == 6 then Datagrams(f.address, 5199, Chunks(f.payload)) else []);
    }
  }

  lemma EffectAdds(t: Traffic, f: Frame, e: Fate)
    requires Possible(e)
    ensures var u := Effect(t, f, e);
      && u.data == t.data + (if f.kind == 5 then Datagrams(f.address, 5198, Chunks(f.payload)) else [])
      && u.control == t.control + (if f.kind == 6 then Datagrams(f.address, 5199, Chunks(f.payload)) else [])
  {
    hide Chunks, Datagrams, Opening, Delivering;
    if f.kind == 1 { OpeningKeeps(t.(open := t.open && !e.lost), f.address, e.connects, e.wakes); }
    if f.kind == 2 { DeliveringKeeps(t.(open := t.open && !e.lost), f.payload, e.taken); }
  }

  lemma OpeningKeeps(t: Traffic, address: seq<byte>, connects: int, wakes: int)
    requires IsResult(connects) && IsResult(wakes)
    ensures var u := Opening(t, address, connects, wakes);
      u.data == t.data && u.control == t.control && u.remote == t.remote
  {
    hide Encode;
  }

  lemma DeliveringKeeps(t: Traffic, payload: seq<byte>, taken: nat)
    ensures var u := Delivering(t, payload, taken); u.data == t.data && u.control == t.control && u.dialled == t.dialled
  {
    hide Encode, Chunks, Concat;
  }

  // ---- replies ----

  /**
   * An open request, of kind 1, is answered by a status, of kind 4, whose four bytes are
   * the first result that failed, negative in 32 bits, or zero exactly when connecting and
   * waking worked.
   */
  lemma OpenIsAnswered(t: Traffic, f: Frame, e: Fate)
    requires Possible(e) && f.kind == 1
    ensures var u := Effect(t, f, e);
      exists r | Encodable(r) :: Answers(r, e) && u.replies == t.replies + Encode(r)
  {
    StatusAnswers(e);
    hide Answers, Status, Encode;
    assert Answers(Status(OpenResult(e.connects, e.wakes)), e);
  }

  lemma StatusAnswers(e: Fate)
    requires Possible(e)
    ensures Answers(Status(OpenResult(e.connects, e.wakes)), e)
  {
    hide WordBytes, Word;
    StatusIsZero(OpenResult(e.connects, e.wakes));
    WordRoundTrip(Unsigned(OpenResult(e.connects, e.wakes)));
  }

  predicate Answers(r: Frame, e: Fate) {
    && r.kind == 4 && r.address == [0, 0, 0, 0] && |r.payload| == 4
    && (r.payload == [0, 0, 0, 0] <==> e.connects == 0 && e.wakes == 0)
    && var told := Word(r.payload[0], r.payload[1], r.payload[2], r.payload[3]);
       && (e.connects < 0 ==> told == 0x1_0000_0000 + e.connects)
       && (e.connects == 0 && e.wakes < 0 ==> told == 0x1_0000_0000 + e.wakes)
  }

  /**
   * Data, of kind 2, is answered by nothing if the host got all of it, and otherwise by
   * an empty close, of kind 3; what the host got is the front of the payload.
   */
  lemma DataIsAnsweredIffLost(t: Traffic, f: Frame, e: Fate)
    requires Possible(e) && f.kind == 2
    ensures var u := Effect(t, f, e);
      && t.remote <= u.remote && u.remote[|t.remote|..] <= f.payload
      && u.replies == t.replies +
           if u.remote == t.remote + f.payload then [] else Encode(Frame(3, [0, 0, 0, 0], []))
  {
    hide Chunks, Concat, Encode;
    var parts := Chunks(f.payload);
    var n := Reach(t.(open := t.open && !e.lost), parts, e.taken);
    SomeParts(f.payload, n);
    var got := Concat(parts[..n]);
    SameAfter(t.remote, got, f.payload);
    assert (t.remote + got)[|t.remote|..] == got;
  }

  /** Some of the parts of a payload are a front of it, all of it only if they are all the parts. */
  lemma SomeParts(p: seq<byte>, n: nat)
    requires n <= |Chunks(p)|
    ensures var got := Concat(Chunks(p)[..n]); got <= p && (got == p <==> n == |Chunks(p)|)
  {
    ChunksCover(p);
    hide Chunks;
    var parts := Chunks(p);
    assert parts == parts[..n] + parts[n..];
    ConcatSplits(parts[..n], parts[n..]);
    if n < |parts| { assert Concat(parts[n..]) == parts[n] + Concat(parts[n..][1..]); }
  }

  lemma SameAfter(front: seq<byte>, a: seq<byte>, b: seq<byte>)
    ensures front + a == front + b <==> a == b
  {
    if front + a == front + b { assert a == (front + a)[|front|..] == (front + b)[|front|..] == b; }
  }

  /** No other kind is answered. */
  lemma OthersAreNotAnswered(t: Traffic, f: Frame, e: Fate)
    requires Possible(e) && f.kind != 1 && f.kind != 2
    ensures Effect(t, f, e).replies == t.replies
  {
    hide Chunks, Datagrams, Encode, Concat;
  }

  // ---- kinds ----

  /** Which kinds are served with their payload, which only without one, and which not at all. */
  lemma KindsServed(f: Frame)
    ensures Plain(f) <==> f.kind in {2, 5, 6} || (f.kind in {1, 3} && f.payload == [])
  {
  }

  /** A close, of kind 3, ends the connection; only an open, of kind 1, that works makes one. */
  lemma KindsThatOpenAndEnd(t: Traffic, f: Frame, e: Fate)
    requires Possible(e)
    ensures var u := Effect(t, f, e);
      && (f.kind == 3 ==> !u.open)
      && (f.kind == 1 && e.connects == 0 ==>
            u.open == (e.wakes == 0) && u.dialled == t.dialled + [Dial(f.address, |t.remote|)])
      && (f.kind == 1 && e.connects < 0 ==> u.open == (t.open && !e.lost) && u.dialled == t.dialled)
      && (f.kind != 1 ==> u.dialled == t.dialled && (u.open ==> t.open))
      && (f.kind !in {1, 2, 3} ==> u.open == (t.open && !e.lost))
  {
    hide Chunks, Datagrams, Encode, Concat;
  }

  // ---- a stream that breaks off ----

  /** Frames and a rest too short for a message: the frames are served and the rest is left. */
  lemma {:induction false} ServedUpToTheRest(frames: seq<Frame>, rest: seq<byte>)
    requires AllEncodable(frames) && (forall i | 0 <= i < |frames| :: Plain(frames[i])) && Read(rest).Incomplete?
    ensures Served(EncodeAll(frames) + rest) == frames && Leftover(EncodeAll(frames) + rest) == rest
  {
    hide Served, Leftover, Encode, Plain, Read;
    if frames == [] {
      assert EncodeAll(frames) + rest == rest;
      NothingServed(rest);
    } else {
      var f, more := frames[0], EncodeAll(frames[1..]);
      ServedUpToTheRest(frames[1..], rest);
      ServedOne(f, more + rest);
      assert EncodeAll(frames) + rest == Encode(f) + (more + rest);
      assert frames == [f] + frames[1..];
    }
  }

  lemma NothingServed(rest: seq<byte>)
    requires Read(rest).Incomplete?
    ensures Served(rest) == [] && Leftover(rest) == rest
  {
    hide Read;
  }

  /**
   * A stream that ends inside a message of kind 2, 5 or 6: what was there of the payload
   * has the effect of a message that breaks off, and what was there of a header has none.
   */
  lemma CutShort(t: Traffic, f: Frame, n: nat, taken: nat)
    requires Encodable(f) && f.kind in {2, 5, 6} && n < 9 + |f.payload|
    ensures n <= |Encode(f)| && Read(Encode(f)[..n]).Incomplete?
    ensures Unfinished(t, Encode(f)[..n], taken) ==
            if n < 9 then t else Broken(t, f.kind, f.address, f.payload[..n - 9], taken)
  {
    hide Word, WordBytes, Header, SizeOf, Encode, Broken;
    EncodedSize(f);
    if n >= 9 { FrontOfFrame(f, n); }
  }

  lemma EncodedSize(f: Frame)
    requires Encodable(f)
    ensures |Encode(f)| == 9 + |f.payload|
  {
  }

  lemma FrontOfFrame(f: Frame, n: nat)
    requires Encodable(f) && 9 <= n <= |Encode(f)|
    ensures var s := Encode(f)[..n];
      s[0] == f.kind && s[1..5] == f.address && SizeOf(s) == |f.payload| && s[9..] == f.payload[..n - 9]
  {
    hide Word, WordBytes, Header, SizeOf;
    var s := Encode(f)[..n];
    assert s == Header(f) + f.payload[..n - 9];
    HeaderFields(f, f.payload[..n - 9]);
  }
}
