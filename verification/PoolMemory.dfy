/**
 * The memory of the slot pool: an array of slot records threaded onto an idle
 * list and onto 256 callsign buckets.  A pointer to a record is its index, and a
 * pointer to a pointer is the address of the cell it points at.
 */
module PoolMemory {

  datatype Option<+T> = None | Some(value: T)

  datatype Link = Null | Ref(i: nat)

  /** The address of a link: the list head, a bucket, or a field of a slot. */
  datatype Cell = Head | NextOf(i: nat) | Bucket(h: nat) | NextByCallOf(i: nat)

  datatype Slot = Slot(
    next: Link,
    prevPtr: Cell,
    nextByCall: Link,
    prevByCallPtr: Option<Cell>,
    callsign: string,
    client: Option<nat>)

  datatype Mem = Mem(slots: seq<Slot>, head: Link, tailPtr: Cell, byCall: seq<Link>)

  const BUCKETS: nat := 256

  // ---- loads, stores and the pointer updates of the code ----

  function Set(m: Mem, i: nat, s: Slot): Mem {
    if i < |m.slots| then m.(slots := m.slots[i := s]) else m
  }

  function Store(m: Mem, c: Cell, v: Link): (r: Mem)
    ensures |r.slots| == |m.slots| && |r.byCall| == |m.byCall|
  {
    match c
    case Head => m.(head := v)
    case NextOf(i) => if i < |m.slots| then Set(m, i, m.slots[i].(next := v)) else m
    case Bucket(h) => if h < |m.byCall| then m.(byCall := m.byCall[h := v]) else m
    case NextByCallOf(i) => if i < |m.slots| then Set(m, i, m.slots[i].(nextByCall := v)) else m
  }

  function SetPrev(m: Mem, i: nat, c: Cell): Mem {
    if i < |m.slots| then Set(m, i, m.slots[i].(prevPtr := c)) else m
  }

  function SetPrevByCall(m: Mem, i: nat, c: Option<Cell>): Mem {
    if i < |m.slots| then Set(m, i, m.slots[i].(prevByCallPtr := c)) else m
  }

  /** Take a slot off the idle list. */
  function UnlinkIdle(m: Mem, pc: nat): (r: Mem)
    requires pc < |m.slots|
    ensures |r.slots| == |m.slots| && |r.byCall| == |m.byCall|
  {
    var p := m.slots[pc].prevPtr;
    var m1 := Store(m, p, m.slots[pc].next);
    match m1.slots[pc].next
    case Null => m1.(tailPtr := p)
    case Ref(j) => SetPrev(m1, j, p)
  }

  /** Take a slot out of its bucket, if it is in one. */
  function UnlinkCall(m: Mem, pc: nat): (r: Mem)
    requires pc < |m.slots|
    ensures |r.slots| == |m.slots| && |r.byCall| == |m.byCall|
  {
    match m.slots[pc].prevByCallPtr
    case None => m
    case Some(p) =>
      var m1 := Store(m, p, m.slots[pc].nextByCall);
      match m1.slots[pc].nextByCall
      case Null => m1
      case Ref(j) => SetPrevByCall(m1, j, Some(p))
  }

  /** Put a slot at the front of bucket h. */
  function PushCall(m: Mem, pc: nat, h: nat): Mem
    requires pc < |m.slots| && h < |m.byCall|
  {
    var first := m.byCall[h];
    var m1 := Set(m, pc, m.slots[pc].(prevByCallPtr := Some(Bucket(h)), nextByCall := first));
    var m2 := match first case Null => m1 case Ref(j) => SetPrevByCall(m1, j, Some(NextByCallOf(pc)));
    m2.(byCall := m2.byCall[h := Ref(pc)])
  }

  /** Put a slot at the end of the idle list; its next pointer was cleared before. */
  function AppendIdle(m: Mem, pc: nat): Mem
    requires pc < |m.slots|
  {
    var m1 := SetPrev(m, pc, m.tailPtr);
    Store(m1, m.tailPtr, Ref(pc)).(tailPtr := NextOf(pc))
  }

  // ---- what a well-formed list is ----

  function Nth(s: seq<nat>, k: nat): Link { if k < |s| then Ref(s[k]) else Null }

  /** The cell that points at element k of the idle list; past the end, the tail cell. */
  function IdleCell(idle: seq<nat>, k: nat): Cell
    requires k <= |idle|
  {
    if k == 0 then Head else NextOf(idle[k - 1])
  }

  function CallCell(h: nat, chain: seq<nat>, k: nat): Cell
    requires k <= |chain|
  {
    if k == 0 then Bucket(h) else NextByCallOf(chain[k - 1])
  }

  predicate Distinct(s: seq<nat>) { forall i, j | 0 <= i < j < |s| :: s[i] != s[j] }

  predicate IdleNode(m: Mem, idle: seq<nat>, k: nat)
    requires k < |idle|
  {
    && idle[k] < |m.slots|
    && m.slots[idle[k]].next == Nth(idle, k + 1)
    && m.slots[idle[k]].prevPtr == IdleCell(idle, k)
  }

  /** The idle list holds exactly the given slots in the given order. */
  predicate IdleShape(m: Mem, idle: seq<nat>) {
    && Distinct(idle)
    && m.head == Nth(idle, 0)
    && m.tailPtr == IdleCell(idle, |idle|)
    && forall k | 0 <= k < |idle| :: IdleNode(m, idle, k)
  }

  predicate CallNode(m: Mem, h: nat, chain: seq<nat>, k: nat)
    requires k < |chain|
  {
    && chain[k] < |m.slots|
    && m.slots[chain[k]].nextByCall == Nth(chain, k + 1)
    && m.slots[chain[k]].prevByCallPtr == Some(CallCell(h, chain, k))
  }

  predicate ChainShape(m: Mem, h: nat, chain: seq<nat>) {
    && Distinct(chain)
    && h < |m.byCall| && m.byCall[h] == Nth(chain, 0)
    && forall k | 0 <= k < |chain| :: CallNode(m, h, chain, k)
  }

  /** Slot i is in the bucket recorded as its home, and has a back pointer only if it has a home. */
  predicate HomeNode(m: Mem, chains: seq<seq<nat>>, i: nat, home: Option<nat>)
    requires i < |m.slots|
  {
    match home
    case None => m.slots[i].prevByCallPtr == None
    case Some(h) => h < |chains| && i in chains[h]
  }

  /** Every bucket holds exactly the given slots in order, and home says which bucket each slot is in. */
  predicate IndexShape(m: Mem, chains: seq<seq<nat>>, home: seq<Option<nat>>) {
    && |m.byCall| == |chains| == BUCKETS && |home| == |m.slots|
    && (forall h | 0 <= h < BUCKETS :: ChainShape(m, h, chains[h]))
    && (forall h, k | 0 <= h < BUCKETS && 0 <= k < |chains[h]| ::
          chains[h][k] < |home| && home[chains[h][k]] == Some(h))
    && (forall i | 0 <= i < |m.slots| :: HomeNode(m, chains, i, home[i]))
  }

  function Without(s: seq<nat>, k: nat): seq<nat>
    requires k < |s|
  {
    s[..k] + s[k + 1..]
  }

  // ---- the pointer updates refine sequence updates ----

  /** Everything but the idle list is as it was. */
  predicate OnlyIdleChanged(m: Mem, r: Mem) {
    && |r.slots| == |m.slots| && r.byCall == m.byCall
    && forall i | 0 <= i < |m.slots| ::
         r.slots[i] == m.slots[i].(next := r.slots[i].next, prevPtr := r.slots[i].prevPtr)
  }

  /** Everything but the buckets is as it was. */
  predicate OnlyIndexChanged(m: Mem, r: Mem) {
    && |r.slots| == |m.slots| && r.head == m.head && r.tailPtr == m.tailPtr && |r.byCall| == |m.byCall|
    && forall i | 0 <= i < |m.slots| ::
         r.slots[i] == m.slots[i].(nextByCall := r.slots[i].nextByCall, prevByCallPtr := r.slots[i].prevByCallPtr)
  }

  lemma UnlinkIdleRemoves(m: Mem, idle: seq<nat>, k: nat)
    requires IdleShape(m, idle) && k < |idle|
    ensures idle[k] < |m.slots|
    ensures IdleShape(UnlinkIdle(m, idle[k]), Without(idle, k))
    ensures OnlyIdleChanged(m, UnlinkIdle(m, idle[k]))
  {
    assert IdleNode(m, idle, k);
    if k > 0 { assert IdleNode(m, idle, k - 1); }
    if k + 1 < |idle| { assert IdleNode(m, idle, k + 1); }
    var rest := Without(idle, k);
    forall j | 0 <= j < |rest| ensures IdleNode(UnlinkIdle(m, idle[k]), rest, j) { NodeStays(m, idle, k, j); }
  }

  /** Element j of what is left after element k is unlinked. */
  lemma NodeStays(m: Mem, idle: seq<nat>, k: nat, j: nat)
    requires IdleShape(m, idle) && k < |idle| && j + 1 < |idle| && idle[k] < |m.slots|
    ensures IdleNode(UnlinkIdle(m, idle[k]), Without(idle, k), j)
  {
    assert IdleNode(m, idle, k) && IdleNode(m, idle, if j < k then j else j + 1);
    if k > 0 { assert IdleNode(m, idle, k - 1); }
    if k + 1 < |idle| { assert IdleNode(m, idle, k + 1); }
  }

  lemma AppendIdleAppends(m: Mem, idle: seq<nat>, pc: nat)
    requires IdleShape(m, idle) && pc < |m.slots| && pc !in idle && m.slots[pc].next == Null
    ensures IdleShape(AppendIdle(m, pc), idle + [pc])
    ensures OnlyIdleChanged(m, AppendIdle(m, pc))
  {
    if idle != [] { assert IdleNode(m, idle, |idle| - 1); }
    forall k | 0 <= k < |idle| + 1 ensures IdleNode(AppendIdle(m, pc), idle + [pc], k) {
      if k < |idle| { assert IdleNode(m, idle, k); }
    }
  }

  /** The idle list does not look at anything that changed. */
  predicate SameIdleFields(m: Mem, r: Mem) {
    && |r.slots| == |m.slots| && r.head == m.head && r.tailPtr == m.tailPtr
    && forall i | 0 <= i < |m.slots| :: r.slots[i].next == m.slots[i].next && r.slots[i].prevPtr == m.slots[i].prevPtr
  }

  predicate SameIndexFields(m: Mem, r: Mem) {
    && |r.slots| == |m.slots| && r.byCall == m.byCall
    && forall i | 0 <= i < |m.slots| ::
         r.slots[i].nextByCall == m.slots[i].nextByCall && r.slots[i].prevByCallPtr == m.slots[i].prevByCallPtr
  }

  lemma IdleFramed(m: Mem, r: Mem, idle: seq<nat>)
    requires IdleShape(m, idle) && SameIdleFields(m, r)
    ensures IdleShape(r, idle)
  {
    forall k | 0 <= k < |idle| ensures IdleNode(r, idle, k) { assert IdleNode(m, idle, k); }
  }

  lemma ChainFramed(m: Mem, r: Mem, h: nat, chain: seq<nat>)
    requires ChainShape(m, h, chain)
    requires |r.slots| == |m.slots| && |r.byCall| == |m.byCall| && r.byCall[h] == m.byCall[h]
    requires forall i | i in chain :: i < |m.slots| &&
               r.slots[i].nextByCall == m.slots[i].nextByCall && r.slots[i].prevByCallPtr == m.slots[i].prevByCallPtr
    ensures ChainShape(r, h, chain)
  {
    forall k | 0 <= k < |chain| ensures CallNode(r, h, chain, k) { assert CallNode(m, h, chain, k); }
  }

  lemma UnlinkCallRemoves(m: Mem, h: nat, chain: seq<nat>, k: nat)
    requires ChainShape(m, h, chain) && k < |chain|
    ensures chain[k] < |m.slots|
    ensures ChainShape(UnlinkCall(m, chain[k]), h, Without(chain, k))
    ensures OnlyIndexChanged(m, UnlinkCall(m, chain[k]))
    ensures forall g | 0 <= g < |m.byCall| && g != h :: UnlinkCall(m, chain[k]).byCall[g] == m.byCall[g]
    ensures forall i | 0 <= i < |m.slots| && i !in chain :: UnlinkCall(m, chain[k]).slots[i] == m.slots[i]
  {
    assert CallNode(m, h, chain, k);
    if k > 0 { assert CallNode(m, h, chain, k - 1); }
    if k + 1 < |chain| { assert CallNode(m, h, chain, k + 1); }
    var rest := Without(chain, k);
    forall j | 0 <= j < |rest| ensures CallNode(UnlinkCall(m, chain[k]), h, rest, j) {
      assert CallNode(m, h, chain, if j < k then j else j + 1);
    }
  }

  lemma PushCallPushes(m: Mem, h: nat, chain: seq<nat>, pc: nat)
    requires ChainShape(m, h, chain) && pc < |m.slots| && pc !in chain
    ensures ChainShape(PushCall(m, pc, h), h, [pc] + chain)
    ensures OnlyIndexChanged(m, PushCall(m, pc, h))
    ensures forall g | 0 <= g < |m.byCall| && g != h :: PushCall(m, pc, h).byCall[g] == m.byCall[g]
    ensures forall i | 0 <= i < |m.slots| && i !in chain && i != pc :: PushCall(m, pc, h).slots[i] == m.slots[i]
  {
    if chain != [] { assert CallNode(m, h, chain, 0); }
    var more := [pc] + chain;
    forall k | 0 <= k < |more| ensures CallNode(PushCall(m, pc, h), h, more, k) {
      if k > 0 { assert CallNode(m, h, chain, k - 1); }
    }
  }

  // ---- moving a slot to the front of a bucket ----

  function Minus(s: seq<nat>, x: nat): seq<nat> {
    if s == [] then [] else (if s[0] == x then [] else [s[0]]) + Minus(s[1..], x)
  }

  lemma {:induction false} MinusIsWithout(s: seq<nat>, k: nat)
    requires Distinct(s) && k < |s|
    ensures Minus(s, s[k]) == Without(s, k)
  {
    if k == 0 {
      MinusAbsent(s[1..], s[0]);
    } else {
      MinusIsWithout(s[1..], k - 1);
    }
  }

  lemma {:induction false} MinusAbsent(s: seq<nat>, x: nat)
    requires x !in s
    ensures Minus(s, x) == s
  {
    if s != [] { MinusAbsent(s[1..], x); }
  }

  lemma {:induction false} MinusMembers(s: seq<nat>, x: nat)
    ensures forall y :: y in Minus(s, x) <==> y in s && y != x
  {
    if s != [] { MinusMembers(s[1..], x); }
  }

  /** Slot pc leaves whatever bucket it was in and becomes the first of bucket h. */
  function MoveToFront(chains: seq<seq<nat>>, pc: nat, h: nat): (r: seq<seq<nat>>)
    ensures |r| == |chains|
  {
    seq(|chains|, g requires 0 <= g < |chains| => (if g == h then [pc] else []) + Minus(chains[g], pc))
  }

  function Rebucket(m: Mem, pc: nat, h: nat): Mem
    requires pc < |m.slots| && h < |m.byCall|
  {
    PushCall(UnlinkCall(m, pc), pc, h)
  }

  /** After the removal, every bucket is as it was but without pc. */
  lemma UnlinkCallEverywhere(m: Mem, chains: seq<seq<nat>>, home: seq<Option<nat>>, pc: nat, g: nat)
    requires IndexShape(m, chains, home) && pc < |m.slots| && g < BUCKETS
    ensures ChainShape(UnlinkCall(m, pc), g, Minus(chains[g], pc))
    ensures OnlyIndexChanged(m, UnlinkCall(m, pc))
  {
    assert HomeNode(m, chains, pc, home[pc]);
    if home[pc] == None {
      MinusAbsent(chains[g], pc);
    } else {
      var h := home[pc].value;
      var k :| 0 <= k < |chains[h]| && chains[h][k] == pc;
      UnlinkCallRemoves(m, h, chains[h], k);
      if g == h {
        MinusIsWithout(chains[h], k);
      } else {
        MinusAbsent(chains[g], pc);
        ChainFramed(m, UnlinkCall(m, pc), g, chains[g]);
      }
    }
  }

  lemma RebucketChain(m: Mem, chains: seq<seq<nat>>, home: seq<Option<nat>>, pc: nat, h: nat, g: nat)
    requires IndexShape(m, chains, home) && pc < |m.slots| && h < BUCKETS && g < BUCKETS
    ensures OnlyIndexChanged(m, UnlinkCall(m, pc)) && OnlyIndexChanged(m, Rebucket(m, pc, h))
    ensures ChainShape(Rebucket(m, pc, h), g, MoveToFront(chains, pc, h)[g])
  {
    UnlinkCallEverywhere(m, chains, home, pc, h);
    UnlinkCallEverywhere(m, chains, home, pc, g);
    MinusMembers(chains[h], pc);
    MinusMembers(chains[g], pc);
    var m1 := UnlinkCall(m, pc);
    PushCallPushes(m1, h, Minus(chains[h], pc), pc);
    if g != h {
      assert MoveToFront(chains, pc, h)[g] == Minus(chains[g], pc);
      ChainFramed(m1, Rebucket(m, pc, h), g, Minus(chains[g], pc));
    }
  }

  lemma RebucketMoves(m: Mem, chains: seq<seq<nat>>, home: seq<Option<nat>>, pc: nat, h: nat)
    requires IndexShape(m, chains, home) && pc < |m.slots| && h < BUCKETS
    ensures OnlyIndexChanged(m, UnlinkCall(m, pc)) && OnlyIndexChanged(m, Rebucket(m, pc, h))
    ensures IndexShape(Rebucket(m, pc, h), MoveToFront(chains, pc, h), home[pc := Some(h)])
  {
    RebucketChain(m, chains, home, pc, h, h);
    var m' := Rebucket(m, pc, h);
    var chains' := MoveToFront(chains, pc, h);
    var home' := home[pc := Some(h)];
    forall g | 0 <= g < BUCKETS
      ensures ChainShape(m', g, chains'[g])
      ensures forall k | 0 <= k < |chains'[g]| :: chains'[g][k] < |home'| && home'[chains'[g][k]] == Some(g)
    {
      RebucketChain(m, chains, home, pc, h, g);
      MinusMembers(chains[g], pc);
      forall k | 0 <= k < |chains'[g]| ensures chains'[g][k] < |home'| && home'[chains'[g][k]] == Some(g) {
        assert chains'[g][k] in chains'[g];
      }
    }
    forall i | 0 <= i < |m'.slots| ensures HomeNode(m', chains', i, home'[i]) {
      RebucketHome(m, chains, home, pc, h, i);
    }
  }

  lemma RebucketHome(m: Mem, chains: seq<seq<nat>>, home: seq<Option<nat>>, pc: nat, h: nat, i: nat)
    requires IndexShape(m, chains, home) && pc < |m.slots| && h < BUCKETS && i < |m.slots|
    ensures OnlyIndexChanged(m, UnlinkCall(m, pc)) && OnlyIndexChanged(m, Rebucket(m, pc, h))
    ensures HomeNode(Rebucket(m, pc, h), MoveToFront(chains, pc, h), i, home[pc := Some(h)][i])
  {
    RebucketChain(m, chains, home, pc, h, h);
    assert HomeNode(m, chains, i, home[i]);
    if i == pc {
      assert MoveToFront(chains, pc, h)[h][0] == pc;
    } else if home[i] == None {
      HomelessUntouched(m, chains, home, pc, h, i);
    } else {
      MinusMembers(chains[home[i].value], pc);
    }
  }

  lemma HomelessUntouched(m: Mem, chains: seq<seq<nat>>, home: seq<Option<nat>>, pc: nat, h: nat, i: nat)
    requires IndexShape(m, chains, home) && pc < |m.slots| && h < BUCKETS && i < |m.slots|
    requires i != pc && home[i] == None
    ensures OnlyIndexChanged(m, UnlinkCall(m, pc)) && OnlyIndexChanged(m, Rebucket(m, pc, h))
    ensures Rebucket(m, pc, h).slots[i] == m.slots[i]
  {
    RebucketChain(m, chains, home, pc, h, h);
    assert HomeNode(m, chains, pc, home[pc]);
    if home[pc].Some? {
      var g := home[pc].value;
      var k :| 0 <= k < |chains[g]| && chains[g][k] == pc;
      UnlinkCallRemoves(m, g, chains[g], k);
    }
    UnlinkCallEverywhere(m, chains, home, pc, h);
    MinusMembers(chains[h], pc);
    PushCallPushes(UnlinkCall(m, pc), h, Minus(chains[h], pc), pc);
  }

  lemma IndexFramed(m: Mem, r: Mem, chains: seq<seq<nat>>, home: seq<Option<nat>>)
    requires IndexShape(m, chains, home) && SameIndexFields(m, r)
    ensures IndexShape(r, chains, home)
  {
    forall h | 0 <= h < BUCKETS ensures ChainShape(r, h, chains[h]) {
      forall k | 0 <= k < |chains[h]| ensures CallNode(r, h, chains[h], k) { assert CallNode(m, h, chains[h], k); }
    }
    forall i | 0 <= i < |r.slots| ensures HomeNode(r, chains, i, home[i]) { assert HomeNode(m, chains, i, home[i]); }
  }

  // ---- the search ----

  /** What a reconnect-only accept looks for: a free slot whose stored callsign is c. */
  predicate Matches(s: Slot, c: string) { s.client == None && s.callsign == c }

  /** Follow the bucket from l, at most fuel slots, to the first match. */
  function Walk(m: Mem, l: Link, c: string, fuel: nat): Link
    decreases fuel
  {
    match l
    case Null => Null
    case Ref(i) =>
      if fuel == 0 || i >= |m.slots| then Null
      else if Matches(m.slots[i], c) then l
      else Walk(m, m.slots[i].nextByCall, c, fuel - 1)
  }

  function FirstMatch(slots: seq<Slot>, chain: seq<nat>, c: string): Link {
    if chain == [] then Null
    else if chain[0] < |slots| && Matches(slots[chain[0]], c) then Ref(chain[0])
    else FirstMatch(slots, chain[1..], c)
  }

  lemma {:induction false} WalkFollowsChain(m: Mem, h: nat, chain: seq<nat>, k: nat, c: string, fuel: nat)
    requires ChainShape(m, h, chain) && k <= |chain| <= k + fuel
    ensures Walk(m, Nth(chain, k), c, fuel) == FirstMatch(m.slots, chain[k..], c)
    decreases fuel
  {
    if k < |chain| {
      assert CallNode(m, h, chain, k);
      assert chain[k..][1..] == chain[k + 1..];
      if !Matches(m.slots[chain[k]], c) { WalkFollowsChain(m, h, chain, k + 1, c, fuel - 1); }
    }
  }

  /** The first match is a match, and there is one exactly when some slot of the chain matches. */
  lemma {:induction false} FirstMatchFinds(slots: seq<Slot>, chain: seq<nat>, c: string)
    requires forall i | i in chain :: i < |slots|
    ensures FirstMatch(slots, chain, c).Ref? <==> exists i :: i in chain && Matches(slots[i], c)
    ensures var f := FirstMatch(slots, chain, c); f.Ref? ==> f.i in chain && Matches(slots[f.i], c)
  {
    if chain != [] {
      assert forall i :: i in chain <==> i == chain[0] || i in chain[1..];
      FirstMatchFinds(slots, chain[1..], c);
    }
  }

  lemma {:induction false} DistinctBounded(s: seq<nat>, n: nat)
    requires Distinct(s) && forall i | i in s :: i < n
    ensures |s| <= n
  {
    if n == 0 {
      assert forall k | 0 <= k < |s| :: s[k] in s;
    } else if n - 1 in s {
      var k :| 0 <= k < |s| && s[k] == n - 1;
      var rest := Without(s, k);
      assert forall i | i in rest :: i in s && i != n - 1;
      DistinctBounded(rest, n - 1);
    } else {
      DistinctBounded(s, n - 1);
    }
  }

  /** Following the pointers of bucket h finds the first match of the bucket's sequence. */
  lemma SearchIsFirstMatch(m: Mem, chains: seq<seq<nat>>, home: seq<Option<nat>>, h: nat, c: string)
    requires IndexShape(m, chains, home) && h < BUCKETS
    ensures Walk(m, m.byCall[h], c, |m.slots|) == FirstMatch(m.slots, chains[h], c)
    ensures forall i | i in chains[h] :: i < |m.slots|
  {
    forall i | i in chains[h] ensures i < |m.slots| {
      var k :| 0 <= k < |chains[h]| && chains[h][k] == i;
      assert CallNode(m, h, chains[h], k);
    }
    DistinctBounded(chains[h], |m.slots|);
    WalkFollowsChain(m, h, chains[h], 0, c, |m.slots|);
    assert chains[h][0..] == chains[h];
  }

  // ---- acquiring and releasing a slot ----

  /** The claim made by an accept under the slot's own mutex. */
  function Claim(m: Mem, pc: nat, c: string, conn: Option<nat>): Mem
    requires pc < |m.slots|
  {
    Set(m, pc, m.slots[pc].(callsign := c, client := conn))
  }

  datatype Outcome = PoolEmpty | Refused | Acquired(slot: nat)

  /** The slot the search settles on: the reconnect match, else the head of the idle list. */
  function Choose(m: Mem, c: string, h: nat): Link
    requires h < |m.byCall|
  {
    var found := Walk(m, m.byCall[h], c, |m.slots|);
    if found.Ref? then found else m.head
  }

  /**
   * The pool's critical section for callsign c in bucket h and connection conn;
   * opens says whether the accepted slot could open its ports.
   */
  function Acquire(m: Mem, c: string, h: nat, conn: nat, opens: bool): (Mem, Outcome)
    requires h < |m.byCall|
  {
    if m.head == Null then (m, PoolEmpty)
    else
      var pc := Choose(m, c, h);
      if !pc.Ref? || pc.i >= |m.slots| || m.slots[pc.i].client.Some? then (m, Refused)
      else if !opens then (Claim(m, pc.i, c, None), Refused)
      else
        (Rebucket(UnlinkIdle(Claim(m, pc.i, c, Some(conn)), pc.i), pc.i, h), Acquired(pc.i))
  }

  lemma ClaimKeepsLinks(m: Mem, pc: nat, c: string, conn: Option<nat>)
    requires pc < |m.slots|
    ensures SameIdleFields(m, Claim(m, pc, c, conn)) && SameIndexFields(m, Claim(m, pc, c, conn))
  {
  }

  /** A successful acquisition of a listed slot takes it off the list and moves it to the front of its bucket. */
  lemma TakeRefines(m: Mem, idle: seq<nat>, chains: seq<seq<nat>>, home: seq<Option<nat>>,
                    pc: nat, c: string, h: nat, conn: nat)
    requires IdleShape(m, idle) && IndexShape(m, chains, home) && pc in idle && pc < |m.slots| && h < BUCKETS
    ensures var m1 := UnlinkIdle(Claim(m, pc, c, Some(conn)), pc);
      && |m1.slots| == |m.slots| && |m1.byCall| == BUCKETS
      && var r := Rebucket(m1, pc, h);
      && |r.slots| == |m.slots|
      && IdleShape(r, Minus(idle, pc))
      && IndexShape(r, MoveToFront(chains, pc, h), home[pc := Some(h)])
      && (forall i | 0 <= i < |m.slots| ::
            && r.slots[i].callsign == (if i == pc then c else m.slots[i].callsign)
            && r.slots[i].client == (if i == pc then Some(conn) else m.slots[i].client))
      && (forall i | 0 <= i < |m.slots| && i !in idle :: r.slots[i].next == m.slots[i].next)
  {
    var m0 := Claim(m, pc, c, Some(conn));
    ClaimKeepsLinks(m, pc, c, Some(conn));
    IdleFramed(m, m0, idle);
    IndexFramed(m, m0, chains, home);
    var k :| 0 <= k < |idle| && idle[k] == pc;
    UnlinkIdleRemoves(m0, idle, k);
    MinusIsWithout(idle, k);
    var m1 := UnlinkIdle(m0, pc);
    IndexFramed(m0, m1, chains, home);
    RebucketMoves(m1, chains, home, pc, h);
    IdleFramed(m1, Rebucket(m1, pc, h), Minus(idle, pc));
    OffListUntouched(m0, idle, k);
  }

  /** The critical section, when it settles on a listed slot that opens: the list and the index afterwards. */
  lemma AcquireTakes(m: Mem, idle: seq<nat>, chains: seq<seq<nat>>, home: seq<Option<nat>>,
                     c: string, h: nat, conn: nat)
    requires IdleShape(m, idle) && IndexShape(m, chains, home) && h < BUCKETS && m.head != Null
    requires Choose(m, c, h).Ref? && Choose(m, c, h).i in idle
    requires Choose(m, c, h).i < |m.slots| && m.slots[Choose(m, c, h).i].client == None
    ensures var (r, out) := Acquire(m, c, h, conn, true);
      var i := Choose(m, c, h).i;
      && out == Acquired(i)
      && |r.slots| == |m.slots|
      && IdleShape(r, Minus(idle, i))
      && IndexShape(r, MoveToFront(chains, i, h), home[i := Some(h)])
      && (forall j | 0 <= j < |m.slots| ::
            && r.slots[j].callsign == (if j == i then c else m.slots[j].callsign)
            && r.slots[j].client == (if j == i then Some(conn) else m.slots[j].client))
      && (forall j | 0 <= j < |m.slots| && j !in idle :: r.slots[j].next == m.slots[j].next)
  {
    TakeRefines(m, idle, chains, home, Choose(m, c, h).i, c, h, conn);
  }

  lemma OffListUntouched(m: Mem, idle: seq<nat>, k: nat)
    requires IdleShape(m, idle) && k < |idle|
    ensures idle[k] < |m.slots|
    ensures forall i | 0 <= i < |m.slots| && i !in idle :: UnlinkIdle(m, idle[k]).slots[i] == m.slots[i]
  {
    UnlinkIdleRemoves(m, idle, k);
    assert IdleNode(m, idle, k);
  }

  // ---- the pool as it is opened ----

  function UpTo(n: nat): (s: seq<nat>)
    ensures |s| == n && forall k | 0 <= k < n :: s[k] == k
  {
    seq(n, k => k)
  }

  /** All slots idle in array order, all buckets empty. */
  function Opened(n: nat): (m: Mem)
    requires n >= 1
    ensures |m.slots| == n
  {
    Mem(seq(n, k requires 0 <= k < n => Slot(Nth(UpTo(n), k + 1), IdleCell(UpTo(n), k), Null, None, "", None)),
        Ref(0), NextOf(n - 1), seq(BUCKETS, _ => Null))
  }

  lemma OpenedShape(n: nat)
    requires n >= 1
    ensures IdleShape(Opened(n), UpTo(n))
    ensures IndexShape(Opened(n), seq(BUCKETS, _ => []), seq(n, _ => None))
  {
    forall k | 0 <= k < n ensures IdleNode(Opened(n), UpTo(n), k) { }
  }
}
