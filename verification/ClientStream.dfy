/**
 * The four senders of a slot share the client's stream: the three forwarders and the
 * processing thread each prepare a whole frame, then hold one mutex while it goes out.
 */
module ClientStream {
  import opened Bytes
  import opened Frames
  import opened ProxyConnection
  import opened Forwarding

  datatype Phase =
    | Receiving
    | Prepared(frame: Frame)
    | Sending(frame: Frame, sent: nat)
    | Stopped

  const FREE: int := -1
  const CONTROL: nat := 0
  const DATA: nat := 1
  const TCP: nat := 2
  const PROCESS: nat := 3
  const SENDERS: nat := 4

  datatype Entry = Entry(sender: nat, frame: Frame)

  datatype State = State(
    holder: int,                 // who has the mutex
    phase: seq<Phase>,
    stream: seq<byte>,           // every byte that has gone out to the client
    log: seq<Entry>)             // the sends that returned success, in the order they returned

  /** The frames each sender makes. */
  predicate Makes(i: nat, f: Frame) { Encodable(f) && |f.payload| <= ROOM && Kind(i, f) }

  predicate Kind(i: nat, f: Frame) {
    if i == CONTROL then f.kind == UDP_CONTROL && f.payload != []
    else if i == DATA then f.kind == UDP_DATA && f.payload != []
    else if i == TCP then f == CLOSE_FRAME || (f.kind == TCP_DATA && f.address == NOWHERE && f.payload != [])
    else f == CLOSE_FRAME || (f.kind == TCP_STATUS && f.address == NOWHERE && |f.payload| == 4)
  }

  datatype Step =
    | Prepare(i: nat, frame: Frame)
    | Lock(i: nat)
    | Emit(i: nat, count: nat)       // the system carries more of the frame away
    | Return(i: nat)                 // the send call is done: release the mutex
    | Fail(i: nat, stops: bool)      // the send call failed having taken nothing: release the mutex
    | Stop(i: nat)
    | Restart(i: nat)

  predicate Enabled(s: State, t: Step) {
    && t.i < SENDERS && |s.phase| == SENDERS
    && var p := s.phase[t.i];
       match t
       case Prepare(i, f) => p.Receiving? && Makes(i, f)
       case Lock(_) => p.Prepared? && s.holder == FREE
       case Emit(_, count) => p.Sending? && Encodable(p.frame) && 0 < count && p.sent + count <= |Encode(p.frame)|
       case Return(_) => p.Sending? && Encodable(p.frame) && p.sent == |Encode(p.frame)|
       case Fail(_, _) => p.Sending? && p.sent == 0
       case Stop(_) => p.Receiving?
       case Restart(_) => p.Stopped?
  }

  function Apply(s: State, t: Step): State
    requires Enabled(s, t)
  {
    var i, p := t.i, s.phase[t.i];
    match t
    case Prepare(_, f) => s.(phase := s.phase[i := Prepared(f)])
    case Lock(_) => s.(holder := i, phase := s.phase[i := Sending(p.frame, 0)])
    case Emit(_, count) =>
      s.(stream := s.stream + Encode(p.frame)[p.sent..p.sent + count],
         phase := s.phase[i := Sending(p.frame, p.sent + count)])
    case Return(_) => s.(holder := FREE, phase := s.phase[i := Receiving], log := s.log + [Entry(i, p.frame)])
    case Fail(_, stops) => s.(holder := FREE, phase := s.phase[i := if stops then Stopped else Receiving])
    case Stop(_) => s.(phase := s.phase[i := Stopped])
    case Restart(_) => s.(phase := s.phase[i := Receiving])
  }

  const INITIAL: State := State(FREE, [Receiving, Receiving, Stopped, Receiving], [], [])

  function Sent(log: seq<Entry>): (frames: seq<Frame>)
    ensures |frames| == |log| && forall k | 0 <= k < |log| :: frames[k] == log[k].frame
  {
    if log == [] then [] else Sent(log[..|log| - 1]) + [log[|log| - 1].frame]
  }

  predicate Honest(log: seq<Entry>) { forall k | 0 <= k < |log| :: Makes(log[k].sender, log[k].frame) }

  predicate Legal(phase: seq<Phase>) {
    forall i | 0 <= i < |phase| :: phase[i].Prepared? || phase[i].Sending? ==> Makes(i, phase[i].frame)
  }

  predicate Exclusive(holder: int, phase: seq<Phase>) {
    && FREE <= holder < |phase|
    && forall i | 0 <= i < |phase| :: phase[i].Sending? <==> holder == i
  }

  /** The part of the holder's frame that is already out. */
  function Partial(holder: int, phase: seq<Phase>): seq<byte> {
    if 0 <= holder < |phase| && phase[holder].Sending? && Encodable(phase[holder].frame) &&
       phase[holder].sent <= |Encode(phase[holder].frame)|
    then Encode(phase[holder].frame)[..phase[holder].sent] else []
  }

  predicate InOrder(s: State)
    requires Honest(s.log)
  {
    && s.stream == EncodeAll(Sent(s.log)) + Partial(s.holder, s.phase)
    && (0 <= s.holder < |s.phase| && s.phase[s.holder].Sending? && Encodable(s.phase[s.holder].frame) ==>
          s.phase[s.holder].sent <= |Encode(s.phase[s.holder].frame)|)
  }

  predicate Inv(s: State) {
    && |s.phase| == SENDERS
    && Legal(s.phase)
    && Exclusive(s.holder, s.phase)
    && Honest(s.log)
    && InOrder(s)
  }

  lemma HonestEncodes(log: seq<Entry>)
    requires Honest(log)
    ensures AllEncodable(Sent(log))
  {
    forall k | 0 <= k < |log| ensures Encodable(Sent(log)[k]) { assert Makes(log[k].sender, log[k].frame); }
  }

  lemma EmitKeeps(s: State, t: Step)
    requires Inv(s) && Enabled(s, t) && t.Emit?
    ensures Inv(Apply(s, t))
  {
    hide Kind, EncodeAll, Encode, Sent;
    HonestEncodes(s.log);
    var e, sent := Encode(s.phase[t.i].frame), s.phase[t.i].sent;
    assert e[..sent] + e[sent..sent + t.count] == e[..sent + t.count];
    assert Apply(s, t).stream == EncodeAll(Sent(s.log)) + (e[..sent] + e[sent..sent + t.count]);
  }

  lemma ReturnKeeps(s: State, t: Step)
    requires Inv(s) && Enabled(s, t) && t.Return?
    ensures Inv(Apply(s, t))
  {
    HonestEncodes(s.log);
    var f := s.phase[t.i].frame;
    var log := s.log + [Entry(t.i, f)];
    assert log[..|s.log|] == s.log && Sent(log) == Sent(s.log) + [f];
    hide Kind, EncodeAll, Encode, Sent;
    assert Encode(f)[..|Encode(f)|] == Encode(f);
    EncodeAllAppends(Sent(s.log), f);
  }

  lemma StepKeeps(s: State, t: Step)
    requires Inv(s) && Enabled(s, t)
    ensures Inv(Apply(s, t))
  {
    if t.Emit? {
      EmitKeeps(s, t);
    } else if t.Return? {
      ReturnKeeps(s, t);
    } else {
      hide Kind, EncodeAll, Encode, Sent;
    }
  }

  predicate IsRun(s: State, steps: seq<Step>)
    decreases |steps|
  {
    steps == [] || (Enabled(s, steps[0]) && IsRun(Apply(s, steps[0]), steps[1..]))
  }

  function After(s: State, steps: seq<Step>): State
    requires IsRun(s, steps)
    decreases |steps|
  {
    if steps == [] then s else After(Apply(s, steps[0]), steps[1..])
  }

  lemma {:induction false} RunKeeps(s: State, steps: seq<Step>)
    requires Inv(s) && IsRun(s, steps)
    ensures Inv(After(s, steps))
    decreases |steps|
  {
    hide Inv, Apply, Enabled;
    if steps != [] {
      StepKeeps(s, steps[0]);
      RunKeeps(Apply(s, steps[0]), steps[1..]);
    }
  }

  // ---- what the client reads ----

  lemma ParseNext(f: Frame, rest: seq<byte>)
    requires Encodable(f)
    ensures ParseAll(Encode(f) + rest) == [f] + ParseAll(rest)
  {
    ParseUndoesEncode(f, rest);
    hide Parse, Encode;
  }

  lemma {:induction false} ParseAllSplits(frames: seq<Frame>, tail: seq<byte>)
    requires AllEncodable(frames)
    ensures ParseAll(EncodeAll(frames) + tail) == frames + ParseAll(tail)
  {
    hide Encode, Parse, ParseAll;
    if frames == [] {
      assert EncodeAll(frames) + tail == tail;
    } else {
      var rest := EncodeAll(frames[1..]) + tail;
      assert EncodeAll(frames) + tail == Encode(frames[0]) + rest;
      ParseNext(frames[0], rest);
      ParseAllSplits(frames[1..], tail);
    }
  }

  /** Nothing parses before a frame is complete. */
  lemma PartialFrame(f: Frame, n: nat)
    requires Encodable(f) && n <= |Encode(f)|
    ensures ParseAll(Encode(f)[..n]) == if n < |Encode(f)| then [] else [f]
  {
    if n == |Encode(f)| {
      ParseUndoesEncode(f, []);
      assert Encode(f)[..n] == Encode(f) + [];
      assert Parse([]).Incomplete?;
    } else if n >= HEADER {
      HeaderFields(f, f.payload[..n - HEADER]);
      assert Encode(f)[..n] == Header(f) + f.payload[..n - HEADER];
    }
  }

  /** The frames a client makes out of the stream so far: the successful sends and the one just completed. */
  function Readable(s: State): seq<Frame> {
    Sent(s.log) +
    if 0 <= s.holder < |s.phase| && s.phase[s.holder].Sending? && Encodable(s.phase[s.holder].frame) &&
       s.phase[s.holder].sent == |Encode(s.phase[s.holder].frame)|
    then [s.phase[s.holder].frame] else []
  }

  lemma InvReadable(s: State)
    requires Inv(s)
    ensures ParseAll(s.stream) == Readable(s)
    ensures forall k | 0 <= k < |Readable(s)| :: Encodable(Readable(s)[k]) && |Encode(Readable(s)[k])| <= BUFF
  {
    HonestEncodes(s.log);
    forall k | 0 <= k < |s.log| ensures |Encode(s.log[k].frame)| <= BUFF {
      assert Makes(s.log[k].sender, s.log[k].frame);
    }
    hide EncodeAll, Encode, Sent, Kind;
    ParseAllSplits(Sent(s.log), Partial(s.holder, s.phase));
    if s.holder != FREE { PartialFrame(s.phase[s.holder].frame, s.phase[s.holder].sent); }
    else { assert ParseAll([]) == []; }
  }

  /**
   * However the senders are interleaved, at every moment what the client can read off
   * the stream is exactly the frames sent, whole, in the order the sends happened, and
   * none is longer than the buffer; between sends nothing is left over.
   */
  lemma StreamIsWholeFrames(steps: seq<Step>)
    requires IsRun(INITIAL, steps)
    ensures var s := After(INITIAL, steps);
      && ParseAll(s.stream) == Readable(s)
      && (forall k | 0 <= k < |Readable(s)| :: Encodable(Readable(s)[k]) && |Encode(Readable(s)[k])| <= BUFF)
      && (s.holder == FREE ==> AllEncodable(Sent(s.log)) && s.stream == EncodeAll(Sent(s.log)))
  {
    assert Inv(INITIAL);
    RunKeeps(INITIAL, steps);
    InvReadable(After(INITIAL, steps));
    hide IsRun, After, EncodeAll, Apply;
  }

  // ---- each sender's own order ----

  function By(i: nat, log: seq<Entry>): seq<Frame> {
    if log == [] then [] else
      var last := |log| - 1;
      By(i, log[..last]) + if log[last].sender == i then [log[last].frame] else []
  }

  /** What a sender has under way. */
  function Pending(i: nat, s: State): seq<Frame> {
    if i < |s.phase| && (s.phase[i].Prepared? || s.phase[i].Sending?) then [s.phase[i].frame] else []
  }

  /** The frames sender i prepared, in its own order, less those whose send failed. */
  function Made(i: nat, before: seq<Frame>, steps: seq<Step>): seq<Frame>
    decreases |steps|
  {
    if steps == [] then before else Made(i, Note(i, before, steps[0]), steps[1..])
  }

  function Note(i: nat, before: seq<Frame>, t: Step): seq<Frame> {
    if t.i != i then before
    else match t
      case Prepare(_, f) => before + [f]
      case Fail(_, _) => if before == [] then [] else before[..|before| - 1]
      case _ => before
  }

  lemma NoteKeeps(i: nat, before: seq<Frame>, s: State, t: Step)
    requires Enabled(s, t) && before == By(i, s.log) + Pending(i, s)
    ensures Note(i, before, t) == By(i, Apply(s, t).log) + Pending(i, Apply(s, t))
  {
    ByAfter(i, s, t);
    PendingAfter(i, s, t);
    hide By, Pending, Apply, Enabled;
    if t.Fail? && t.i == i { assert before[..|before| - 1] == By(i, s.log); }
  }

  /** What a step does to what its sender has under way; other senders' steps leave it. */
  lemma PendingAfter(i: nat, s: State, t: Step)
    requires Enabled(s, t)
    ensures t.i != i || t.Lock? || t.Emit? ==> Pending(i, Apply(s, t)) == Pending(i, s)
    ensures t.i == i && t.Prepare? ==> Pending(i, s) == [] && Pending(i, Apply(s, t)) == [t.frame]
    ensures t.i == i && (t.Return? || t.Fail?) ==>
      i < |s.phase| && s.phase[i].Sending? && Pending(i, s) == [s.phase[i].frame] && Pending(i, Apply(s, t)) == []
    ensures t.i == i && (t.Stop? || t.Restart?) ==> Pending(i, s) == [] && Pending(i, Apply(s, t)) == []
  {
    hide Makes, Encode;
  }

  /** Only a send that returns adds to what a sender has on the stream. */
  lemma ByAfter(i: nat, s: State, t: Step)
    requires Enabled(s, t)
    ensures By(i, Apply(s, t).log) == By(i, s.log) + if t.Return? && t.i == i then [s.phase[i].frame] else []
  {
    hide Makes, Encode;
    if t.Return? { assert Apply(s, t).log[..|s.log|] == s.log; }
  }

  lemma {:induction false} OrderFrom(i: nat, before: seq<Frame>, s: State, steps: seq<Step>)
    requires IsRun(s, steps) && before == By(i, s.log) + Pending(i, s)
    ensures Made(i, before, steps) == By(i, After(s, steps).log) + Pending(i, After(s, steps))
    decreases |steps|
  {
    hide Apply, Enabled, By, Pending, Note;
    if steps != [] {
      NoteKeeps(i, before, s, steps[0]);
      OrderFrom(i, Note(i, before, steps[0]), Apply(s, steps[0]), steps[1..]);
    }
  }

  /** Each sender's frames are on the stream in the order it made them, up to the one under way. */
  lemma SenderOrderIsKept(i: nat, steps: seq<Step>)
    requires i < SENDERS && IsRun(INITIAL, steps)
    ensures Made(i, [], steps) == By(i, After(INITIAL, steps).log) + Pending(i, After(INITIAL, steps))
  {
    assert Pending(i, INITIAL) == [];
    OrderFrom(i, [], INITIAL, steps);
  }

  // ---- senders that stop ----

  lemma {:induction false} StoppedRun(s: State, i: nat, steps: seq<Step>)
    requires i < |s.phase| && s.phase[i].Stopped? && IsRun(s, steps) && Restart(i) !in steps
    ensures By(i, After(s, steps).log) == By(i, s.log)
    decreases |steps|
  {
    hide By, Makes, Encode;
    if steps != [] {
      ByAfter(i, s, steps[0]);
      StoppedRun(Apply(s, steps[0]), i, steps[1..]);
    }
  }

  /** In every run from the stop of a sender to its restart, it puts nothing on the stream. */
  lemma StoppedSendsNothing(s: State, t: Step, steps: seq<Step>)
    requires Enabled(s, t) && (t.Stop? || (t.Fail? && t.stops))
    requires IsRun(Apply(s, t), steps) && Restart(t.i) !in steps
    ensures By(t.i, After(Apply(s, t), steps).log) == By(t.i, s.log)
  {
    hide By, Makes, Encode, IsRun, After;
    ByAfter(t.i, s, t);
    StoppedRun(Apply(s, t), t.i, steps);
  }

  /** After a send, a failed one it survives, or a restart, a sender can prepare any frame of its kind. */
  lemma ReadyAgain(s: State, t: Step, f: Frame)
    requires Enabled(s, t) && (t.Return? || (t.Fail? && !t.stops) || t.Restart?) && Makes(t.i, f)
    ensures Enabled(Apply(s, t), Prepare(t.i, f))
  {
    hide Makes, Encode;
  }
}
