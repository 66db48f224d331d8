/**
 * The pool as the code keeps it: an array of slot records and an array of bucket
 * heads, updated in place.  Each method does to the arrays what its function in
 * PoolMemory does to the memory as a value.
 */
module SlotPool {
  import opened PoolMemory

  /** Slot k when the first i slots have been linked. */
  function Linked(k: nat, i: nat): Slot {
    Slot(if k + 1 < i then Ref(k + 1) else Null, if 0 < k < i then NextOf(k - 1) else Head, Null, None, "", None)
  }

  lemma AllLinked(slots: seq<Slot>, n: nat)
    requires n >= 1 && |slots| == n && forall k | 0 <= k < n :: slots[k] == Linked(k, n)
    ensures slots == Opened(n).slots
  {
  }

  class ProxyPool {
    const clients: array<Slot>
    const byCall: array<Link>
    var head: Link
    var tailPtr: Cell

    ghost function Model(): (m: Mem)
      reads this, clients, byCall
      ensures |m.slots| == clients.Length && |m.byCall| == byCall.Length
    {
      Mem(clients[..], head, tailPtr, byCall[..])
    }

    /** All slots idle in array order, all buckets empty. */
    constructor Open(n: nat)
      requires n >= 1
      ensures fresh(clients) && fresh(byCall) && clients.Length == n
      ensures Model() == Opened(n)
      ensures IdleShape(Model(), UpTo(n)) && IndexShape(Model(), seq(BUCKETS, _ => []), seq(n, _ => None))
    {
      hide IdleShape, IndexShape;
      clients := new Slot[n](_ => Slot(Null, Head, Null, None, "", None));
      byCall := new Link[BUCKETS](_ => Null);
      head := Ref(0);
      tailPtr := Head;
      new;
      clients[0] := clients[0].(prevPtr := Head);
      var i := 1;
      while i < n
        invariant 1 <= i <= n && head == Ref(0)
        invariant forall k | 0 <= k < n :: clients[k] == Linked(k, i)
        invariant forall k | 0 <= k < byCall.Length :: byCall[k] == Null
      {
        clients[i] := clients[i].(prevByCallPtr := None, nextByCall := Null);
        clients[i - 1] := clients[i - 1].(next := Ref(i));
        clients[i] := clients[i].(prevPtr := NextOf(i - 1));
        i := i + 1;
      }
      clients[i - 1] := clients[i - 1].(next := Null);
      tailPtr := NextOf(i - 1);
      AllLinked(clients[..], n);
      OpenedShape(n);
    }

    /** Write through a pointer to a pointer. */
    method WriteThrough(c: Cell, v: Link)
      modifies this, clients, byCall
      ensures Model() == Store(old(Model()), c, v)
    {
      match c
      case Head => head := v;
      case NextOf(i) => if i < clients.Length { clients[i] := clients[i].(next := v); }
      case Bucket(h) => if h < byCall.Length { byCall[h] := v; }
      case NextByCallOf(i) => if i < clients.Length { clients[i] := clients[i].(nextByCall := v); }
    }

    method TakeOffList(pc: nat)
      requires pc < clients.Length
      modifies this, clients, byCall
      ensures Model() == UnlinkIdle(old(Model()), pc)
    {
      var p := clients[pc].prevPtr;
      WriteThrough(p, clients[pc].next);
      match clients[pc].next
      case Null => tailPtr := p;
      case Ref(j) => if j < clients.Length { clients[j] := clients[j].(prevPtr := p); }
    }

    method TakeOutOfBucket(pc: nat)
      requires pc < clients.Length
      modifies this, clients, byCall
      ensures Model() == UnlinkCall(old(Model()), pc)
    {
      match clients[pc].prevByCallPtr
      case None =>
      case Some(p) =>
        WriteThrough(p, clients[pc].nextByCall);
        match clients[pc].nextByCall
        case Null =>
        case Ref(j) => if j < clients.Length { clients[j] := clients[j].(prevByCallPtr := Some(p)); }
    }

    method PutInBucket(pc: nat, h: nat)
      requires pc < clients.Length && h < byCall.Length
      modifies clients, byCall
      ensures Model() == PushCall(old(Model()), pc, h)
    {
      clients[pc] := clients[pc].(prevByCallPtr := Some(Bucket(h)), nextByCall := byCall[h]);
      match clients[pc].nextByCall {
        case Null =>
        case Ref(j) => if j < clients.Length { clients[j] := clients[j].(prevByCallPtr := Some(NextByCallOf(pc))); }
      }
      byCall[h] := Ref(pc);
    }

    /** Put a finished slot back at the end of the list. */
    method PutBack(pc: nat)
      requires pc < clients.Length
      modifies this, clients, byCall
      ensures Model() == AppendIdle(old(Model()), pc)
    {
      clients[pc] := clients[pc].(prevPtr := tailPtr);
      WriteThrough(tailPtr, Ref(pc));
      tailPtr := NextOf(pc);
    }

    /** The search loop over one bucket. */
    method FindReconnect(c: string, h: nat, ghost chains: seq<seq<nat>>, ghost home: seq<Option<nat>>)
        returns (pc: Link)
      requires IndexShape(Model(), chains, home) && h < byCall.Length
      ensures pc == Walk(Model(), byCall[h], c, clients.Length)
      ensures pc == FirstMatch(Model().slots, chains[h], c)
      ensures pc.Ref? ==> pc.i < clients.Length
    {
      ghost var m := Model();
      ghost var k := 0;
      SearchIsFirstMatch(m, chains, home, h, c);
      pc := byCall[h];
      while pc != Null
        invariant k <= |chains[h]| && pc == Nth(chains[h], k)
        invariant FirstMatch(m.slots, chains[h], c) == FirstMatch(m.slots, chains[h][k..], c)
        decreases |chains[h]| - k
      {
        assert CallNode(m, h, chains[h], k);
        if clients[pc.i].client == None && clients[pc.i].callsign == c { return; }
        assert chains[h][k..][1..] == chains[h][k + 1..];
        pc, k := clients[pc.i].nextByCall, k + 1;
      }
    }

    /** The whole critical section of a worker that looks for a slot. */
    method AcquireSlot(c: string, h: nat, conn: nat, opens: bool,
                       ghost idle: seq<nat>, ghost chains: seq<seq<nat>>, ghost home: seq<Option<nat>>)
        returns (out: Outcome)
      requires IdleShape(Model(), idle) && IndexShape(Model(), chains, home) && h < BUCKETS
      modifies this, clients, byCall
      ensures (Model(), out) == Acquire(old(Model()), c, h, conn, opens)
    {
      if head == Null { return PoolEmpty; }
      assert IdleNode(Model(), idle, 0);
      var pc := FindReconnect(c, h, chains, home);
      if pc == Null { pc := head; }
      if clients[pc.i].client.Some? { return Refused; }
      if !opens {
        clients[pc.i] := clients[pc.i].(callsign := c, client := None);
        return Refused;
      }
      clients[pc.i] := clients[pc.i].(callsign := c, client := Some(conn));
      TakeOffList(pc.i);
      TakeOutOfBucket(pc.i);
      PutInBucket(pc.i, h);
      return Acquired(pc.i);
    }
  }
}
