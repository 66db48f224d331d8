/**
 * The proxy between start and close: n workers share n slots.  A step is one
 * critical section, or one access that the code makes outside any lock.  The
 * fields from idle on are a history of what the memory should hold; the code
 * keeps none of them.
 */
module PoolSystem {
  import opened PoolMemory
  import W = WorkerMachine

  /** Where a worker's thread is in its run. */
  datatype Place =
    | Parked                 // not in a run
    | Checking               // about to look at its connection
    | Authorizing
    | Searching(c: string)   // authorized; about to take the pool's mutex
    | Holding(i: nat)        // processing messages on slot i
    | Cleared(i: nat)        // finish has cleared the slot's client
    | Severed(i: nat)        // and its next pointer; about to take the pool's mutex
    | Freeing                // about to free its connection
    | Pushing                // about to put itself on the idle stack
    | Tail                   // on the stack again, its run not yet over

  datatype Client = Client(state: W.WorkerState, at: Place, conn: bool)

  datatype Sys = Sys(
    mem: Mem,
    clients: seq<Client>,
    stack: seq<nat>,             // idle workers, top first
    inHand: set<nat>,            // popped, connection not yet handed over
    usable: bool,                // some clients are usable
    idle: seq<nat>,
    chains: seq<seq<nat>>,
    home: seq<Option<nat>>,      // bucket of each slot
    holder: seq<Option<nat>>,    // worker of each slot that is not idle
    last: seq<Option<string>>,   // callsign of each slot's last acquisition
    stamp: seq<nat>,             // when each slot last became idle
    clock: nat)

  function Down(n: nat): (s: seq<nat>)
    ensures |s| == n && forall k | 0 <= k < n :: s[k] == n - 1 - k
  {
    seq(n, k requires 0 <= k < n => n - 1 - k)
  }

  function Initial(n: nat): Sys
    requires n >= 1
  {
    Sys(Opened(n), seq(n, _ => Client(W.Starting, Parked, false)), Down(n), {}, true,
        UpTo(n), seq(BUCKETS, _ => []), seq(n, _ => None), seq(n, _ => None), seq(n, _ => None), UpTo(n), n)
  }

  /** Any hash of callsigns; the bucket is its low byte. */
  type Hash = string -> nat

  function BucketOf(hash: Hash, c: string): (h: nat)
    ensures h < BUCKETS
  {
    hash(c) % BUCKETS
  }

  // ---- the steps ----

  datatype Step =
    | Pop                               // an acceptor takes the top of the stack
    | Accept(w: nat)                    // and hands it the connection
    | BeginRun(w: nat)
    | Check(w: nat)
    | Authorize(w: nat, c: Option<string>)
    | Search(w: nat, opens: bool)
    | Finish(w: nat)
    | Sever(w: nat)
    | PutBack(w: nat)
    | Free(w: nat)
    | Push(w: nat)
    | EndRun(w: nat)
    | GoIdle(w: nat)                    // a started thread finds nothing to do
    | Shutdown

  predicate Enabled(s: Sys, step: Step) {
    if step.Pop? then s.stack != [] && s.usable
    else if step.Shutdown? then true
    else
      step.w < |s.clients| &&
      var q := s.clients[step.w];
      match step
      case Accept(w) => w in s.inHand
      case BeginRun(_) => q.at == Parked && q.state == W.Signaled
      case Check(_) => q.at == Checking
      case Authorize(_, _) => q.at == Authorizing
      case Search(_, _) => q.at.Searching?
      case Finish(_) => q.at.Holding?
      case Sever(_) => q.at.Cleared?
      case PutBack(_) => q.at.Severed?
      case Free(_) => q.at == Freeing
      case Push(_) => q.at == Pushing
      case EndRun(_) => q.at == Tail
      case GoIdle(_) => q.at == Parked && q.state == W.Starting
      case _ => true
  }

  function Put(s: Sys, w: nat, q: Client): Sys
    requires w < |s.clients|
  {
    s.(clients := s.clients[w := q])
  }

  function Move(s: Sys, w: nat, at: Place): Sys
    requires w < |s.clients|
  {
    Put(s, w, s.clients[w].(at := at))
  }

  function AcceptConn(s: Sys, w: nat): Sys
    requires w < |s.clients|
  {
    var q := s.clients[w];
    var s1 := s.(inHand := s.inHand - {w});
    if q.conn || !W.CanWake(q.state) then s1
    else Put(s1, w, q.(conn := true, state := W.Signaled))
  }

  function SearchSlot(hash: Hash, s: Sys, w: nat, opens: bool): Sys
    requires Enabled(s, Search(w, opens))
  {
    var c := s.clients[w].at.c;
    var h := BucketOf(hash, c);
    if h >= |s.mem.byCall| then s
    else
      var (m, out) := Acquire(s.mem, c, h, w, opens);
      match out
      case Acquired(i) =>
        if i >= |s.home| || i >= |s.holder| || i >= |s.last| then s
        else Move(s, w, Holding(i)).(
               mem := m,
               idle := Minus(s.idle, i),
               chains := MoveToFront(s.chains, i, h),
               home := s.home[i := Some(h)],
               holder := s.holder[i := Some(w)],
               last := s.last[i := Some(c)])
      case _ => Move(s, w, Freeing).(mem := m)
  }

  function FinishSlot(s: Sys, w: nat): Sys
    requires Enabled(s, Finish(w))
  {
    var i := s.clients[w].at.i;
    if i >= |s.mem.slots| then s
    else Move(s, w, Cleared(i)).(mem := Set(s.mem, i, s.mem.slots[i].(client := None)))
  }

  function SeverSlot(s: Sys, w: nat): Sys
    requires Enabled(s, Sever(w))
  {
    var i := s.clients[w].at.i;
    if i >= |s.mem.slots| then s
    else Move(s, w, Severed(i)).(mem := Set(s.mem, i, s.mem.slots[i].(next := Null)))
  }

  function PutSlotBack(s: Sys, w: nat): Sys
    requires Enabled(s, PutBack(w))
  {
    var i := s.clients[w].at.i;
    if i >= |s.mem.slots| || i >= |s.holder| || i >= |s.stamp| then s
    else Move(s, w, Freeing).(
           mem := AppendIdle(s.mem, i),
           idle := s.idle + [i],
           holder := s.holder[i := None],
           stamp := s.stamp[i := s.clock],
           clock := s.clock + 1)
  }

  function Apply(hash: Hash, s: Sys, step: Step): Sys
    requires Enabled(s, step)
  {
    match step
    case Pop => s.(stack := s.stack[1..], inHand := s.inHand + {s.stack[0]})
    case Accept(w) => AcceptConn(s, w)
    case BeginRun(w) => Put(s, w, s.clients[w].(state := W.Busy, at := Checking))
    case Check(w) => Move(s, w, if s.clients[w].conn then Authorizing else Tail)
    case Authorize(w, c) => Move(s, w, match c case None => Freeing case Some(call) => Searching(call))
    case Search(w, opens) => SearchSlot(hash, s, w, opens)
    case Finish(w) => FinishSlot(s, w)
    case Sever(w) => SeverSlot(s, w)
    case PutBack(w) => PutSlotBack(s, w)
    case Free(w) => Put(s, w, s.clients[w].(conn := false, at := Pushing))
    case Push(w) => Move(s, w, Tail).(stack := [w] + s.stack)
    case EndRun(w) =>
      var q := s.clients[w];
      Put(s, w, q.(at := Parked, state := if q.state == W.Busy then W.Idle else q.state))
    case GoIdle(w) => Put(s, w, s.clients[w].(state := W.Idle))
    case Shutdown => s.(usable := false)
  }

  /** The slot a place keeps off the idle list. */
  function SlotOf(p: Place): Option<nat> {
    match p
    case Holding(i) => Some(i)
    case Cleared(i) => Some(i)
    case Severed(i) => Some(i)
    case _ => None
  }

  /** The search does not take over a slot that its holder has cleared but not yet put back. */
  predicate Safe(hash: Hash, s: Sys, step: Step)
    requires Enabled(s, step)
  {
    step.Search? && step.opens && BucketOf(hash, s.clients[step.w].at.c) < |s.mem.byCall| ==>
      var pc := Choose(s.mem, s.clients[step.w].at.c, BucketOf(hash, s.clients[step.w].at.c));
      pc.Ref? ==> pc.i < |s.holder| && s.holder[pc.i] == None
  }

  // ---- the invariant ----

  predicate Sizes(s: Sys) {
    |s.mem.slots| == |s.clients| == |s.home| == |s.holder| == |s.last| == |s.stamp| >= 1
  }

  predicate Shape(mem: Mem, idle: seq<nat>, chains: seq<seq<nat>>, home: seq<Option<nat>>) {
    IdleShape(mem, idle) && IndexShape(mem, chains, home)
  }

  /** Each slot is idle or has exactly one holder. */
  predicate Owned(clients: seq<Client>, idle: seq<nat>, holder: seq<Option<nat>>) {
    && |holder| == |clients|
    && (forall i | 0 <= i < |holder| :: holder[i] == None <==> i in idle)
    && (forall i | 0 <= i < |holder| && holder[i].Some? ::
          holder[i].value < |clients| && SlotOf(clients[holder[i].value].at) == Some(i))
    && (forall w | 0 <= w < |clients| && SlotOf(clients[w].at).Some? ::
          var i := SlotOf(clients[w].at).value; i < |holder| && holder[i] == Some(w))
  }

  /** The client of a slot: its holder until finish clears it, nobody otherwise. */
  function ClientOf(clients: seq<Client>, holder: Option<nat>): Option<nat> {
    match holder
    case None => None
    case Some(w) => if w < |clients| && clients[w].at.Holding? then Some(w) else None
  }

  predicate Claimed(slots: seq<Slot>, clients: seq<Client>, holder: seq<Option<nat>>) {
    && |slots| == |holder|
    && (forall i | 0 <= i < |slots| :: slots[i].client == ClientOf(clients, holder[i]))
    && (forall w | 0 <= w < |clients| && clients[w].at.Severed? && clients[w].at.i < |slots| ::
          slots[clients[w].at.i].next == Null)
  }

  /** A slot is in the bucket of the callsign that last acquired it, and in none before. */
  predicate Keyed(hash: Hash, home: seq<Option<nat>>, last: seq<Option<string>>) {
    && |home| == |last|
    && forall i | 0 <= i < |home| ::
         home[i] == match last[i] case None => None case Some(c) => Some(BucketOf(hash, c))
  }

  /** The idle list is in order of when its slots became idle. */
  predicate Aged(idle: seq<nat>, stamp: seq<nat>, clock: nat) {
    && (forall i | 0 <= i < |stamp| :: stamp[i] < clock)
    && (forall k | 0 <= k < |idle| :: idle[k] < |stamp|)
    && (forall j, k | 0 <= j < k < |idle| :: stamp[idle[j]] < stamp[idle[k]])
  }

  /** Whoever signals a worker has given it a connection, which it keeps until it frees it. */
  predicate Consistent(q: Client) {
    match q.at
    case Parked => q.state in {W.Starting, W.Idle, W.Signaled} && q.conn == (q.state == W.Signaled)
    case Tail => q.state in {W.Busy, W.Signaled} && q.conn == (q.state == W.Signaled)
    case Pushing => q.state == W.Busy && !q.conn
    case _ => q.state == W.Busy && q.conn
  }

  predicate Available(q: Client) { (q.at == Parked || q.at == Tail) && q.state != W.Signaled }

  /** A worker is on the stack once, or in an acceptor's hand, exactly when it is available. */
  predicate Staffed(clients: seq<Client>, stack: seq<nat>, inHand: set<nat>) {
    && Distinct(stack)
    && (forall w | w in stack :: w < |clients| && w !in inHand)
    && (forall w | w in inHand :: w < |clients|)
    && (forall w | 0 <= w < |clients| :: Consistent(clients[w]))
    && (forall w | 0 <= w < |clients| :: Available(clients[w]) <==> w in stack || w in inHand)
  }

  ghost predicate Inv(hash: Hash, s: Sys) {
    && Sizes(s)
    && Shape(s.mem, s.idle, s.chains, s.home)
    && Owned(s.clients, s.idle, s.holder)
    && Claimed(s.mem.slots, s.clients, s.holder)
    && Keyed(hash, s.home, s.last)
    && Aged(s.idle, s.stamp, s.clock)
    && Staffed(s.clients, s.stack, s.inHand)
  }

  // ---- the pigeonhole: a worker without a slot leaves one idle ----

  lemma SomeSlotIsIdle(clients: seq<Client>, idle: seq<nat>, holder: seq<Option<nat>>, w: nat)
    requires Owned(clients, idle, holder) && w < |clients| && SlotOf(clients[w].at) == None
    ensures idle != []
  {
    if idle == [] {
      var owners := seq(|holder|, i requires 0 <= i < |holder| => holder[i].value);
      assert forall i | 0 <= i < |owners| :: holder[i] == Some(owners[i]);
      var all := owners + [w];
      assert Distinct(all);
      DistinctBounded(all, |clients|);
    }
  }

  /** A searching worker finds the list non-empty and settles on a slot that is free to take. */
  lemma ChoiceIsFree(hash: Hash, s: Sys, w: nat)
    requires Inv(hash, s) && w < |s.clients| && s.clients[w].at.Searching?
    ensures s.idle != [] && s.mem.head == Ref(s.idle[0]) && s.idle[0] < |s.mem.slots|
    ensures s.mem.slots[s.idle[0]].client == None
    ensures |s.mem.byCall| == BUCKETS
    ensures var pc := Choose(s.mem, s.clients[w].at.c, BucketOf(hash, s.clients[w].at.c));
      pc.Ref? && pc.i < |s.mem.slots| && s.mem.slots[pc.i].client == None
  {
    SomeSlotIsIdle(s.clients, s.idle, s.holder, w);
    assert IdleNode(s.mem, s.idle, 0);
    assert s.idle[0] in s.idle;
    var c := s.clients[w].at.c;
    var h := BucketOf(hash, c);
    SearchIsFirstMatch(s.mem, s.chains, s.home, h, c);
    FirstMatchFinds(s.mem.slots, s.chains[h], c);
  }

  // ---- who owns which slot ----

  lemma OwnedSame(clients: seq<Client>, idle: seq<nat>, holder: seq<Option<nat>>, w: nat, q: Client)
    requires Owned(clients, idle, holder) && w < |clients| && SlotOf(q.at) == SlotOf(clients[w].at)
    ensures Owned(clients[w := q], idle, holder)
  {
  }

  lemma OwnedTaken(clients: seq<Client>, idle: seq<nat>, holder: seq<Option<nat>>, w: nat, q: Client, i: nat)
    requires Owned(clients, idle, holder) && w < |clients| && SlotOf(clients[w].at) == None
    requires SlotOf(q.at) == Some(i) && i < |holder| && holder[i] == None
    ensures Owned(clients[w := q], Minus(idle, i), holder[i := Some(w)])
  {
    MinusMembers(idle, i);
  }

  lemma OwnedGiven(clients: seq<Client>, idle: seq<nat>, holder: seq<Option<nat>>, w: nat, q: Client, i: nat)
    requires Owned(clients, idle, holder) && w < |clients| && SlotOf(clients[w].at) == Some(i)
    requires SlotOf(q.at) == None
    ensures i < |holder| && i !in idle && Owned(clients[w := q], idle + [i], holder[i := None])
  {
  }

  /** A holder's slot is not idle, and the record of holders names it. */
  lemma HeldApart(clients: seq<Client>, idle: seq<nat>, holder: seq<Option<nat>>, w: nat)
    requires Owned(clients, idle, holder) && w < |clients| && SlotOf(clients[w].at).Some?
    ensures var i := SlotOf(clients[w].at).value; i < |holder| && i !in idle && holder[i] == Some(w)
  {
  }

  lemma AgedTaken(idle: seq<nat>, stamp: seq<nat>, clock: nat, i: nat)
    requires Aged(idle, stamp, clock) && Distinct(idle) && i in idle
    ensures Aged(Minus(idle, i), stamp, clock)
  {
    var k :| 0 <= k < |idle| && idle[k] == i;
    MinusIsWithout(idle, k);
  }

  lemma AgedGiven(idle: seq<nat>, stamp: seq<nat>, clock: nat, i: nat)
    requires Aged(idle, stamp, clock) && i !in idle && i < |stamp|
    ensures Aged(idle + [i], stamp[i := clock], clock + 1)
  {
  }

  // ---- steps that leave the slots alone ----

  lemma ClaimedSame(slots: seq<Slot>, clients: seq<Client>, holder: seq<Option<nat>>, w: nat, q: Client)
    requires Claimed(slots, clients, holder) && w < |clients|
    requires !clients[w].at.Holding? && SlotOf(q.at) == None
    ensures Claimed(slots, clients[w := q], holder)
  {
  }

  predicate LeavesSlotsAlone(step: Step) {
    step.Accept? || step.BeginRun? || step.Check? || step.Authorize? || step.Free? || step.Push? ||
    step.EndRun? || step.GoIdle?
  }

  lemma StaffSame(clients: seq<Client>, stack: seq<nat>, inHand: set<nat>, w: nat, q: Client)
    requires Staffed(clients, stack, inHand) && w < |clients|
    requires Consistent(q) && (Available(q) <==> Available(clients[w]))
    ensures Staffed(clients[w := q], stack, inHand)
  {
  }

  lemma StaffHired(clients: seq<Client>, stack: seq<nat>, inHand: set<nat>, w: nat, q: Client)
    requires Staffed(clients, stack, inHand) && w in inHand && Consistent(q) && !Available(q)
    ensures Staffed(clients[w := q], stack, inHand - {w})
  {
  }

  lemma StaffReturned(clients: seq<Client>, stack: seq<nat>, inHand: set<nat>, w: nat, q: Client)
    requires Staffed(clients, stack, inHand) && w < |clients| && !Available(clients[w])
    requires Consistent(q) && Available(q)
    ensures Staffed(clients[w := q], [w] + stack, inHand)
  {
  }

  lemma StaffKeeps(hash: Hash, s: Sys, step: Step)
    requires Staffed(s.clients, s.stack, s.inHand) && Enabled(s, step) && LeavesSlotsAlone(step)
    ensures var t := Apply(hash, s, step); Staffed(t.clients, t.stack, t.inHand)
    ensures SlotOf(s.clients[step.w].at) == None
  {
    assert Consistent(s.clients[step.w]);
    assert step.Accept? ==> Available(s.clients[step.w]);
    hide Staffed;
    var q := Apply(hash, s, step).clients[step.w];
    if step.Accept? {
      StaffHired(s.clients, s.stack, s.inHand, step.w, q);
    } else if step.Push? {
      StaffReturned(s.clients, s.stack, s.inHand, step.w, q);
    } else {
      StaffSame(s.clients, s.stack, s.inHand, step.w, q);
    }
  }

  lemma QuietStepKeeps(hash: Hash, s: Sys, step: Step)
    requires Inv(hash, s) && Enabled(s, step) && LeavesSlotsAlone(step)
    ensures Inv(hash, Apply(hash, s, step))
  {
    hide Shape, Owned, Claimed, Staffed, Keyed, Aged;
    StaffKeeps(hash, s, step);
    var t := Apply(hash, s, step);
    var q := t.clients[step.w];
    assert t.clients == s.clients[step.w := q];
    OwnedSame(s.clients, s.idle, s.holder, step.w, q);
    ClaimedSame(s.mem.slots, s.clients, s.holder, step.w, q);
  }

  lemma PopKeeps(hash: Hash, s: Sys)
    requires Inv(hash, s) && Enabled(s, Pop)
    ensures Inv(hash, Apply(hash, s, Pop))
  {
    hide Shape, Owned, Claimed;
    assert forall w :: w in s.stack <==> w == s.stack[0] || w in s.stack[1..];
  }

  /** A busy worker that moves on, keeping its connection. */
  lemma StaffFramed(s: Sys, w: nat, at: Place)
    requires Staffed(s.clients, s.stack, s.inHand) && w < |s.clients|
    requires s.clients[w].at.Searching? || SlotOf(s.clients[w].at).Some?
    requires SlotOf(at).Some? || at == Freeing
    ensures Staffed(Move(s, w, at).clients, s.stack, s.inHand)
  {
  }

  // ---- steps of a slot's life ----

  lemma ClaimedFinished(slots: seq<Slot>, clients: seq<Client>, idle: seq<nat>, holder: seq<Option<nat>>,
                        w: nat, q: Client, i: nat)
    requires Claimed(slots, clients, holder) && Owned(clients, idle, holder) && w < |clients|
    requires clients[w].at == Holding(i) && q.at == Cleared(i)
    ensures i < |slots| && Claimed(slots[i := slots[i].(client := None)], clients[w := q], holder)
  {
    var r := slots[i := slots[i].(client := None)];
    forall j | 0 <= j < |slots| ensures r[j].client == ClientOf(clients[w := q], holder[j]) {
      assert j != i ==> holder[j] != Some(w);
    }
  }

  lemma ShapeClaimed(m: Mem, idle: seq<nat>, chains: seq<seq<nat>>, home: seq<Option<nat>>,
                     i: nat, c: string, conn: Option<nat>)
    requires Shape(m, idle, chains, home) && i < |m.slots|
    ensures Shape(Claim(m, i, c, conn), idle, chains, home)
  {
    ClaimKeepsLinks(m, i, c, conn);
    IdleFramed(m, Claim(m, i, c, conn), idle);
    IndexFramed(m, Claim(m, i, c, conn), chains, home);
  }

  lemma FinishKeeps(hash: Hash, s: Sys, w: nat)
    requires Inv(hash, s) && Enabled(s, Finish(w))
    ensures Inv(hash, FinishSlot(s, w))
  {
    hide Shape, Owned, Claimed, Staffed, Keyed, Aged;
    var i := s.clients[w].at.i;
    HeldApart(s.clients, s.idle, s.holder, w);
    StaffFramed(s, w, Cleared(i));
    var t := FinishSlot(s, w);
    ShapeClaimed(s.mem, s.idle, s.chains, s.home, i, s.mem.slots[i].callsign, None);
    assert t.mem == Claim(s.mem, i, s.mem.slots[i].callsign, None);
    OwnedSame(s.clients, s.idle, s.holder, w, t.clients[w]);
    ClaimedFinished(s.mem.slots, s.clients, s.idle, s.holder, w, t.clients[w], i);
  }

  lemma ShapeSevered(m: Mem, idle: seq<nat>, chains: seq<seq<nat>>, home: seq<Option<nat>>, i: nat)
    requires Shape(m, idle, chains, home) && i < |m.slots| && i !in idle
    ensures Shape(Set(m, i, m.slots[i].(next := Null)), idle, chains, home)
  {
    var r := Set(m, i, m.slots[i].(next := Null));
    forall k | 0 <= k < |idle| ensures IdleNode(r, idle, k) { assert IdleNode(m, idle, k); }
    IndexFramed(m, r, chains, home);
  }

  lemma ClaimedSevered(slots: seq<Slot>, clients: seq<Client>, holder: seq<Option<nat>>, w: nat, q: Client, i: nat)
    requires Claimed(slots, clients, holder) && w < |clients| && i < |slots|
    requires clients[w].at == Cleared(i) && q.at == Severed(i)
    ensures Claimed(slots[i := slots[i].(next := Null)], clients[w := q], holder)
  {
  }

  lemma SeverKeeps(hash: Hash, s: Sys, w: nat)
    requires Inv(hash, s) && Enabled(s, Sever(w))
    ensures Inv(hash, SeverSlot(s, w))
  {
    hide Shape, Staffed, Keyed, Aged;
    var i := s.clients[w].at.i;
    var t := SeverSlot(s, w);
    assert i < |s.holder| && i !in s.idle;
    ClaimedSevered(s.mem.slots, s.clients, s.holder, w, t.clients[w], i);
    hide Owned, Claimed;
    StaffFramed(s, w, Severed(i));
    OwnedSame(s.clients, s.idle, s.holder, w, t.clients[w]);
    ShapeSevered(s.mem, s.idle, s.chains, s.home, i);
  }

  lemma ClaimedGiven(slots: seq<Slot>, r: seq<Slot>, clients: seq<Client>, idle: seq<nat>, holder: seq<Option<nat>>,
                     w: nat, q: Client, i: nat)
    requires Claimed(slots, clients, holder) && Owned(clients, idle, holder) && w < |clients|
    requires clients[w].at == Severed(i) && SlotOf(q.at) == None
    requires |r| == |slots| && forall j | 0 <= j < |r| :: r[j].client == slots[j].client
    requires forall j | 0 <= j < |r| && j != i && j !in idle :: r[j] == slots[j]
    ensures i < |slots| && Claimed(r, clients[w := q], holder[i := None])
  {
  }

  lemma ShapeGiven(m: Mem, idle: seq<nat>, chains: seq<seq<nat>>, home: seq<Option<nat>>, pc: nat)
    requires Shape(m, idle, chains, home) && pc < |m.slots| && pc !in idle && m.slots[pc].next == Null
    ensures Shape(AppendIdle(m, pc), idle + [pc], chains, home)
    ensures var r := AppendIdle(m, pc).slots;
      && |r| == |m.slots|
      && (forall i | 0 <= i < |r| :: r[i].client == m.slots[i].client)
      && (forall i | 0 <= i < |r| && i != pc && i !in idle :: r[i] == m.slots[i])
  {
    AppendIdleAppends(m, idle, pc);
    IndexFramed(m, AppendIdle(m, pc), chains, home);
  }

  lemma PutBackKeeps(hash: Hash, s: Sys, w: nat)
    requires Inv(hash, s) && Enabled(s, PutBack(w))
    ensures Inv(hash, PutSlotBack(s, w))
  {
    hide Shape, Staffed, Keyed, Aged, Owned;
    var i := s.clients[w].at.i;
    var t := PutSlotBack(s, w);
    HeldApart(s.clients, s.idle, s.holder, w);
    assert s.mem.slots[i].next == Null;
    hide Claimed;
    StaffFramed(s, w, Freeing);
    OwnedGiven(s.clients, s.idle, s.holder, w, t.clients[w], i);
    AgedGiven(s.idle, s.stamp, s.clock, i);
    ShapeGiven(s.mem, s.idle, s.chains, s.home, i);
    ClaimedGiven(s.mem.slots, t.mem.slots, s.clients, s.idle, s.holder, w, t.clients[w], i);
  }

  // ---- the search ----

  /** The slot the search settles on. */
  function Chosen(hash: Hash, s: Sys, w: nat): Link
    requires w < |s.clients| && s.clients[w].at.Searching? && |s.mem.byCall| == BUCKETS
  {
    Choose(s.mem, s.clients[w].at.c, BucketOf(hash, s.clients[w].at.c))
  }

  lemma ClaimedRefused(m: Mem, clients: seq<Client>, holder: seq<Option<nat>>, i: nat, c: string)
    requires Claimed(m.slots, clients, holder) && i < |m.slots| && m.slots[i].client == None
    ensures Claimed(Claim(m, i, c, None).slots, clients, holder)
  {
  }

  lemma RefusedKeeps(hash: Hash, s: Sys, w: nat)
    requires Inv(hash, s) && Enabled(s, Search(w, false))
    ensures Inv(hash, SearchSlot(hash, s, w, false))
  {
    ChoiceIsFree(hash, s, w);
    hide Shape, Choose, Keyed, Aged, Owned, Staffed;
    var c := s.clients[w].at.c;
    var pc := Chosen(hash, s, w);
    var t := SearchSlot(hash, s, w, false);
    assert t.mem == Claim(s.mem, pc.i, c, None);
    ClaimedRefused(s.mem, s.clients, s.holder, pc.i, c);
    hide Claimed;
    ShapeClaimed(s.mem, s.idle, s.chains, s.home, pc.i, c, None);
    ClaimedSame(t.mem.slots, s.clients, s.holder, w, t.clients[w]);
    StaffFramed(s, w, Freeing);
    OwnedSame(s.clients, s.idle, s.holder, w, t.clients[w]);
  }

  lemma ClaimedTaken(slots: seq<Slot>, r: seq<Slot>, clients: seq<Client>, idle: seq<nat>, holder: seq<Option<nat>>,
                     w: nat, q: Client, i: nat)
    requires Claimed(slots, clients, holder) && Owned(clients, idle, holder) && w < |clients|
    requires SlotOf(clients[w].at) == None && q.at == Holding(i) && i in idle && i < |slots|
    requires |r| == |slots| && forall j | 0 <= j < |r| :: r[j].client == if j == i then Some(w) else slots[j].client
    requires forall j | 0 <= j < |r| && j !in idle :: r[j].next == slots[j].next
    ensures Claimed(r, clients[w := q], holder[i := Some(w)])
  {
    forall j | 0 <= j < |slots| && j != i ensures r[j].client == ClientOf(clients[w := q], holder[j]) {
      assert holder[j] != Some(w);
    }
  }

  /** The state after the search takes a listed slot, spelled out. */
  lemma SearchTakes(hash: Hash, s: Sys, w: nat, i: nat)
    requires Inv(hash, s) && Enabled(s, Search(w, true))
    requires |s.mem.byCall| == BUCKETS && Chosen(hash, s, w) == Ref(i) && i < |s.holder| && s.holder[i] == None
    ensures var t := SearchSlot(hash, s, w, true);
      var c := s.clients[w].at.c;
      var h := BucketOf(hash, c);
      && t == Move(s, w, Holding(i)).(
                mem := t.mem, idle := Minus(s.idle, i), chains := MoveToFront(s.chains, i, h),
                home := s.home[i := Some(h)], holder := s.holder[i := Some(w)], last := s.last[i := Some(c)])
      && Shape(t.mem, t.idle, t.chains, t.home)
      && |t.mem.slots| == |s.mem.slots|
      && (forall j | 0 <= j < |s.mem.slots| ::
            && t.mem.slots[j].client == (if j == i then Some(w) else s.mem.slots[j].client)
            && t.mem.slots[j].callsign == (if j == i then c else s.mem.slots[j].callsign))
      && (forall j | 0 <= j < |s.mem.slots| && j !in s.idle :: t.mem.slots[j].next == s.mem.slots[j].next)
  {
    ChoiceIsFree(hash, s, w);
    assert i in s.idle;
    hide Acquire, Choose, Staffed, Owned, Claimed, Aged, Keyed, IdleShape, IndexShape;
    AcquireTakes(s.mem, s.idle, s.chains, s.home, s.clients[w].at.c, BucketOf(hash, s.clients[w].at.c), w);
    SearchUnfolds(hash, s, w, i);
    hide SearchSlot;
  }

  lemma SearchUnfolds(hash: Hash, s: Sys, w: nat, i: nat)
    requires Enabled(s, Search(w, true)) && |s.mem.byCall| == BUCKETS
    requires i < |s.home| && i < |s.holder| && i < |s.last|
    requires var c := s.clients[w].at.c; Acquire(s.mem, c, BucketOf(hash, c), w, true).1 == Acquired(i)
    ensures var c := s.clients[w].at.c;
      var h := BucketOf(hash, c);
      SearchSlot(hash, s, w, true) ==
        Move(s, w, Holding(i)).(
          mem := Acquire(s.mem, c, h, w, true).0, idle := Minus(s.idle, i), chains := MoveToFront(s.chains, i, h),
          home := s.home[i := Some(h)], holder := s.holder[i := Some(w)], last := s.last[i := Some(c)])
  {
    hide Acquire, Minus, MoveToFront;
  }

  lemma KeyedTaken(hash: Hash, home: seq<Option<nat>>, last: seq<Option<string>>, i: nat, c: string)
    requires Keyed(hash, home, last) && i < |home|
    ensures Keyed(hash, home[i := Some(BucketOf(hash, c))], last[i := Some(c)])
  {
  }

  lemma TakenKeeps(hash: Hash, s: Sys, w: nat, i: nat)
    requires Inv(hash, s) && Enabled(s, Search(w, true))
    requires |s.mem.byCall| == BUCKETS && Chosen(hash, s, w) == Ref(i) && i < |s.holder| && s.holder[i] == None
    ensures Inv(hash, SearchSlot(hash, s, w, true))
  {
    hide Acquire, Choose, SearchSlot, Staffed, IdleShape, IndexShape, Claimed, Aged, Minus, MoveToFront;
    SearchTakes(hash, s, w, i);
    assert i in s.idle && Distinct(s.idle) by { ShapeIsDistinct(s.mem, s.idle, s.chains, s.home); }
    hide Shape, Owned;
    KeyedTaken(hash, s.home, s.last, i, s.clients[w].at.c);
    hide Keyed;
    var t := SearchSlot(hash, s, w, true);
    StaffFramed(s, w, Holding(i));
    OwnedTaken(s.clients, s.idle, s.holder, w, t.clients[w], i);
    AgedTaken(s.idle, s.stamp, s.clock, i);
    ClaimedTaken(s.mem.slots, t.mem.slots, s.clients, s.idle, s.holder, w, t.clients[w], i);
  }

  lemma ShapeIsDistinct(m: Mem, idle: seq<nat>, chains: seq<seq<nat>>, home: seq<Option<nat>>)
    requires Shape(m, idle, chains, home)
    ensures Distinct(idle)
  {
  }

  /**
   * The search keeps every invariant exactly when it does not take over a slot
   * that is cleared but not yet put back.
   */
  lemma SearchKeepsIffSafe(hash: Hash, s: Sys, w: nat, opens: bool)
    requires Inv(hash, s) && Enabled(s, Search(w, opens))
    ensures Inv(hash, SearchSlot(hash, s, w, opens)) <==> Safe(hash, s, Search(w, opens))
  {
    if !opens {
      RefusedKeeps(hash, s, w);
    } else {
      ChoiceIsFree(hash, s, w);
      var i := Chosen(hash, s, w).i;
      if s.holder[i] == None { TakenKeeps(hash, s, w, i); } else { StolenBreaks(hash, s, w, i); }
    }
  }

  lemma TwoHolders(clients: seq<Client>, idle: seq<nat>, holder: seq<Option<nat>>, v: nat, w: nat)
    requires v < |clients| && w < |clients| && v != w
    requires SlotOf(clients[v].at).Some? && SlotOf(clients[v].at) == SlotOf(clients[w].at)
    ensures !Owned(clients, idle, holder)
  {
  }

  lemma StolenBreaks(hash: Hash, s: Sys, w: nat, i: nat)
    requires Inv(hash, s) && Enabled(s, Search(w, true)) && |s.mem.byCall| == BUCKETS
    requires Chosen(hash, s, w) == Ref(i) && i < |s.holder| && s.holder[i].Some?
    requires s.mem.head != Null && i < |s.mem.slots| && s.mem.slots[i].client == None
    ensures !Inv(hash, SearchSlot(hash, s, w, true))
  {
    hide Choose, Shape, Claimed, Keyed, Aged, Staffed, UnlinkIdle, Rebucket, Claim;
    var v := s.holder[i].value;
    assert SlotOf(s.clients[v].at) == Some(i);
    hide Owned;
    var t := SearchSlot(hash, s, w, true);
    assert t.clients == s.clients[w := s.clients[w].(at := Holding(i))];
    TwoHolders(t.clients, t.idle, t.holder, v, w);
  }

  // ---- runs ----

  lemma StepKeeps(hash: Hash, s: Sys, step: Step)
    requires Inv(hash, s) && Enabled(s, step) && Safe(hash, s, step)
    ensures Inv(hash, Apply(hash, s, step))
  {
    if LeavesSlotsAlone(step) {
      QuietStepKeeps(hash, s, step);
    } else {
      hide Shape, Owned, Claimed, Keyed, Aged, Staffed, Safe;
      match step
      case Pop => PopKeeps(hash, s);
      case Search(w, opens) => SearchKeepsIffSafe(hash, s, w, opens);
      case Finish(w) => FinishKeeps(hash, s, w);
      case Sever(w) => SeverKeeps(hash, s, w);
      case PutBack(w) => PutBackKeeps(hash, s, w);
      case Shutdown =>
    }
  }

  lemma ListsEveryone(s: seq<nat>, n: nat)
    requires |s| == n && Distinct(s) && forall k | 0 <= k < n :: s[k] < n
    ensures forall i | 0 <= i < n :: i in s
  {
    forall i | 0 <= i < n ensures i in s {
      if i !in s { DistinctBounded(s + [i], n); }
    }
  }

  lemma InitialKeeps(hash: Hash, n: nat)
    requires n >= 1
    ensures Inv(hash, Initial(n))
  {
    OpenedShape(n);
    ListsEveryone(UpTo(n), n);
    ListsEveryone(Down(n), n);
    var s := Initial(n);
    assert Staffed(s.clients, s.stack, s.inHand);
  }

  /** Every step can be taken, and no search takes over a slot that is being released. */
  predicate IsRun(hash: Hash, s: Sys, steps: seq<Step>)
    decreases |steps|
  {
    steps == [] ||
    (Enabled(s, steps[0]) && Safe(hash, s, steps[0]) && IsRun(hash, Apply(hash, s, steps[0]), steps[1..]))
  }

  function After(hash: Hash, s: Sys, steps: seq<Step>): Sys
    requires IsRun(hash, s, steps)
    decreases |steps|
  {
    if steps == [] then s else After(hash, Apply(hash, s, steps[0]), steps[1..])
  }

  lemma {:induction false} RunKeeps(hash: Hash, s: Sys, steps: seq<Step>)
    requires Inv(hash, s) && IsRun(hash, s, steps)
    ensures Inv(hash, After(hash, s, steps))
    decreases |steps|
  {
    if steps != [] {
      hide Inv, Safe;
      StepKeeps(hash, s, steps[0]);
      RunKeeps(hash, Apply(hash, s, steps[0]), steps[1..]);
    }
  }
}
