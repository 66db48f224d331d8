/**
 * A stream connection as the code sees it.  What the peer has sent and will send
 * waits in incoming; a receive takes any non-empty prefix of it, reports the end
 * of the stream, or fails.  A send call takes any non-empty prefix, or fails.
 */
module Connections {
  import opened Bytes

  const EACCES: int := 13
  const EINVAL: int := 22
  const ENOSPC: int := 28
  const EPIPE: int := 32
  const ENOTCONN: int := 107
  const ECONNRESET: int := 104

  class Conn {
    var connected: bool
    const faulty: bool          // the system may report errors
    const whole: bool           // a send call of the system takes all it is offered
    var incoming: seq<byte>
    var outgoing: seq<byte>

    constructor (incoming: seq<byte>, faulty: bool, whole: bool)
      ensures connected && this.faulty == faulty && this.whole == whole && this.incoming == incoming && outgoing == []
    {
      connected, this.faulty, this.whole, this.incoming, outgoing := true, faulty, whole, incoming, [];
    }

    /** One receive call of the system: some bytes, zero at the end of the stream, or an error. */
    method ReceiveSome(buff: array<byte>, at: nat, len: nat) returns (ret: int)
      requires 0 < len && at + len <= buff.Length
      modifies `incoming, buff
      ensures -ECONNRESET <= ret <= len
      ensures 0 < ret ==>
        ret <= |old(incoming)| && incoming == old(incoming)[ret..] &&
        buff[..] == old(buff[..at]) + old(incoming)[..ret] + old(buff[at + ret..])
      ensures ret <= 0 ==> incoming == old(incoming) && buff[..] == old(buff[..])
      ensures !faulty ==> 0 <= ret && (old(incoming) != [] ==> 0 < ret)
    {
      if faulty {
        var fails: bool := *;
        if fails { return -ECONNRESET; }
      }
      if incoming == [] { return 0; }
      var k: nat :| 1 <= k <= len && k <= |incoming|;
      for i := 0 to k
        invariant incoming == old(incoming)
        invariant buff[..] == old(buff[..at]) + incoming[..i] + old(buff[at + i..])
      {
        buff[at + i] := incoming[i];
      }
      incoming := incoming[k..];
      ret := k;
    }

    /** Receive exactly len bytes, over as many system calls as it takes. */
    method Receive(buff: array<byte>, at: nat, len: nat) returns (ret: int)
      requires at + len <= buff.Length
      modifies `incoming, buff
      ensures ret >= 0 ==>
        ret == len <= |old(incoming)| && incoming == old(incoming)[len..] &&
        Landed(buff[..], old(buff[..]), at, old(incoming), len)
      ensures ret < 0 ==> IsSuffix(incoming, old(incoming)) && |old(incoming)| - len <= |incoming|
      ensures connected && !faulty ==> ret == if len <= |old(incoming)| then len else -EPIPE
      ensures connected && !faulty && |old(incoming)| < len ==> incoming == []
    {
      var left, p := len, at;
      ret := 0;
      if !connected {
        return -ENOTCONN;
      }
      var bytesRead := 0;
      NoneLanded(buff[..], at, incoming);
      hide Landed;
      while left > 0
        invariant 0 <= bytesRead <= bytesRead + left == len && p == at + bytesRead
        invariant bytesRead <= |old(incoming)| && ret == bytesRead
        invariant incoming == old(incoming)[bytesRead..]
        invariant Landed(buff[..], old(buff[..]), at, old(incoming), bytesRead)
      {
        ghost var before := buff[..];
        ret := ReceiveSome(buff, p, left);
        if ret == 0 { return -EPIPE; }
        if ret < 0 { return; }
        MoreLanded(buff[..], before, old(buff[..]), at, old(incoming), bytesRead, ret);
        left, p, bytesRead := left - ret, p + ret, bytesRead + ret;
        ret := bytesRead;
      }
    }

    /**
     * Send, over as many system calls as it takes.  Each call is offered the front of
     * the buffer again, so only a system that takes everything at once is served well.
     */
    method Send(data: seq<byte>) returns (ret: int, ghost takes: seq<nat>)
      modifies `outgoing
      ensures ret <= 0 && (connected && !faulty ==> ret == 0) && (!connected ==> ret < 0)
      ensures Splits(takes, |data|) && (ret == 0 ==> Sum(takes) == |data|)
      ensures outgoing == old(outgoing) + Emitted(data, takes)
      ensures whole ==> outgoing == if ret == 0 then old(outgoing) + data else old(outgoing)
    {
      takes := [];
      NoTakes(data);
      hide Sum, Emitted, Splits;
      if !connected { return -ENOTCONN, takes; }
      var left := |data|;
      ret := 0;
      while left > 0
        invariant 0 <= left <= |data| && (whole ==> left == 0 || left == |data|)
        invariant Splits(takes, |data|) && left == |data| - Sum(takes)
        invariant outgoing == old(outgoing) + Emitted(data, takes)
        invariant whole ==> outgoing == if left == 0 then old(outgoing) + data else old(outgoing)
      {
        if faulty {
          var fails: bool := *;
          if fails { return -EPIPE, takes; }
        }
        var k: nat :| 1 <= k <= left && (whole ==> k == left);
        TakeMore(data, takes, k);
        if whole { assert data[..|data|] == data; }
        outgoing := outgoing + data[..k];
        takes := takes + [k];
        left := left - k;
      }
    }
  }

  predicate IsSuffix(t: seq<byte>, s: seq<byte>) { |t| <= |s| && t == s[|s| - |t|..] }

  /** A buffer that holds the first k bytes of a stream at a place and is otherwise as before. */
  ghost predicate Landed(buff: seq<byte>, before: seq<byte>, at: nat, stream: seq<byte>, k: nat) {
    at + k <= |before| && k <= |stream| && buff == before[..at] + stream[..k] + before[at + k..]
  }

  lemma NoneLanded(buff: seq<byte>, at: nat, stream: seq<byte>)
    requires at <= |buff|
    ensures Landed(buff, buff, at, stream, 0)
  {
  }

  lemma MoreLanded(buff: seq<byte>, mid: seq<byte>, before: seq<byte>, at: nat, stream: seq<byte>, k: nat, m: nat)
    requires Landed(mid, before, at, stream, k) && at + k + m <= |before| && k + m <= |stream|
    requires buff == mid[..at + k] + stream[k..][..m] + mid[at + k + m..]
    ensures Landed(buff, before, at, stream, k + m)
  {
    assert stream[..k + m] == stream[..k] + stream[k..][..m];
    assert mid[..at + k] == before[..at] + stream[..k];
    assert mid[at + k + m..] == before[at + k + m..];
  }

  // ---- what a send delivers ----

  function Sum(takes: seq<nat>): nat {
    if takes == [] then 0 else Sum(takes[..|takes| - 1]) + takes[|takes| - 1]
  }

  /** Non-empty takes that together do not exceed n. */
  predicate Splits(takes: seq<nat>, n: nat) {
    Sum(takes) <= n && forall i | 0 <= i < |takes| :: 0 < takes[i] <= n
  }

  /** What goes out when the system takes these many bytes in turn. */
  function Emitted(data: seq<byte>, takes: seq<nat>): seq<byte>
    requires Splits(takes, |data|)
  {
    if takes == [] then [] else
      var last := |takes| - 1;
      Emitted(data, takes[..last]) + data[..takes[last]]
  }

  lemma {:induction false} EmittedLength(data: seq<byte>, takes: seq<nat>)
    requires Splits(takes, |data|)
    ensures |Emitted(data, takes)| == Sum(takes)
  {
    if takes != [] { EmittedLength(data, takes[..|takes| - 1]); }
  }

  predicate OneValue(data: seq<byte>) { forall i | 0 <= i < |data| :: data[i] == data[0] }

  lemma {:induction false} EmittedOneValue(data: seq<byte>, takes: seq<nat>)
    requires Splits(takes, |data|) && OneValue(data)
    ensures forall i | 0 <= i < |Emitted(data, takes)| :: data != [] && Emitted(data, takes)[i] == data[0]
  {
    if takes == [] {
      NoTakes(data);
    } else {
      EmittedOneValue(data, takes[..|takes| - 1]);
    }
  }

  /** However the system splits it, a buffer arrives intact exactly when all its bytes are the same. */
  lemma IntactIffOneValue(data: seq<byte>)
    ensures (forall takes | Splits(takes, |data|) && Sum(takes) == |data| :: Emitted(data, takes) == data) <==>
            OneValue(data)
  {
    if OneValue(data) {
      forall takes | Splits(takes, |data|) && Sum(takes) == |data| ensures Emitted(data, takes) == data {
        EmittedLength(data, takes);
        EmittedOneValue(data, takes);
      }
    } else {
      var i := 0;
      while data[i] == data[0]
        invariant i < |data| && forall j | 0 <= j < i :: data[j] == data[0]
        decreases |data| - i
      {
        if i + 1 == |data| { assert OneValue(data); }
        i := i + 1;
      }
      var takes := TwoTakes(data, i);
      assert Emitted(data, takes)[i] == data[0];
    }
  }

  lemma TwoTakes(data: seq<byte>, i: nat) returns (takes: seq<nat>)
    requires 0 < i < |data|
    ensures Splits(takes, |data|) && Sum(takes) == |data|
    ensures Emitted(data, takes) == data[..i] + data[..|data| - i]
  {
    NoTakes(data);
    hide Sum, Emitted, Splits;
    takes := [];
    TakeMore(data, takes, i);
    takes := takes + [i];
    TakeMore(data, takes, |data| - i);
    takes := takes + [|data| - i];
    assert [] + data[..i] == data[..i];
  }

  lemma NoTakes(data: seq<byte>)
    ensures Splits([], |data|) && Sum([]) == 0 && Emitted(data, []) == []
  {
  }

  lemma TakeMore(data: seq<byte>, takes: seq<nat>, k: nat)
    requires Splits(takes, |data|) && 0 < k <= |data| - Sum(takes)
    ensures Splits(takes + [k], |data|) && Sum(takes + [k]) == Sum(takes) + k
    ensures Emitted(data, takes + [k]) == Emitted(data, takes) + data[..k]
  {
    assert (takes + [k])[..|takes|] == takes;
  }

  /** Two bytes sent one at a time arrive as the first byte twice. */
  lemma FirstByteTwice()
    ensures exists takes :: Splits(takes, 2) && Sum(takes) == 2 && Emitted([1, 2], takes) == [1, 1]
  {
    var data: seq<byte> := [1, 2];
    var takes := TwoTakes(data, 1);
    assert data[..1] + data[..1] == [1, 1];
  }

  /** A way of splitting serves every buffer of that length exactly when it is a single take. */
  lemma SplitIsHarmlessIffSingle(takes: seq<nat>, n: nat)
    requires Splits(takes, n) && Sum(takes) == n
    ensures (forall data: seq<byte> | |data| == n :: Emitted(data, takes) == data) <==> |takes| <= 1
  {
    if |takes| <= 1 {
      forall data: seq<byte> | |data| == n ensures Emitted(data, takes) == data {
        if takes != [] {
          assert takes[..0] == [];
          assert data[..n] == data;
        }
      }
    } else {
      var data := Spoiled(takes, n);
      assert Emitted(data, takes) != data;
    }
  }

  /** With two takes or more, a buffer marked where the last take begins loses the mark. */
  lemma Spoiled(takes: seq<nat>, n: nat) returns (data: seq<byte>)
    requires Splits(takes, n) && Sum(takes) == n && |takes| > 1
    ensures |data| == n && Emitted(data, takes) != data
  {
    var last := |takes| - 1;
    var front := takes[..last];
    var k := Sum(front);
    SumPositive(front);
    data := seq(n, j => if j == k then 1 else 0);
    EmittedLength(data, front);
    assert Emitted(data, takes) == Emitted(data, front) + data[..takes[last]];
    hide Emitted, Sum, Splits;
    assert data[k] == 1 && data[0] == 0;
    assert (Emitted(data, front) + data[..takes[last]])[k] == data[0];
  }

  lemma SumPositive(takes: seq<nat>)
    requires takes != [] && forall i | 0 <= i < |takes| :: 0 < takes[i]
    ensures 0 < Sum(takes)
  {
  }
}
