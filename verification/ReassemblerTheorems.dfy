/** What the reassembler delivers, against the packets it was given. */
module ReassemblerTheorems {
  import opened Reassembler

  datatype Option<+T> = None | Some(value: T)

  // ---- frames in a list of events --------------------------------------------------------

  predicate Valid(e: Event) { e.Packet? && HeaderOk(e.bytes) }

  /** A packet that may be part of a delivered frame. */
  predicate Good(e: Event, fid: bool) { Valid(e) && !ErrorBit(e.bytes) && Fid(e.bytes) == fid }

  predicate EndsFrame(e: Event) { Valid(e) && Eof(e.bytes) }

  /** The frame id of the latest packet with a header. */
  function LastFid(events: seq<Event>): Option<bool> {
    if events == [] then None
    else if Valid(events[|events| - 1]) then Some(Fid(events[|events| - 1].bytes))
    else LastFid(events[..|events| - 1])
  }

  /** A frame begins at the start, after an end of frame, and where the frame id changes. */
  predicate BeginsAt(events: seq<Event>, i: nat)
    requires i <= |events|
  {
    || i == 0
    || EndsFrame(events[i - 1])
    || (i < |events| && Valid(events[i]) && LastFid(events[..i]) == Some(!Fid(events[i].bytes)))
  }

  /** A frame stops after an end of frame, and before the frame id changes. */
  predicate StopsAt(events: seq<Event>, j: nat)
    requires 0 < j <= |events|
  {
    || EndsFrame(events[j - 1])
    || (j < |events| && Valid(events[j]) && LastFid(events[..j]) == Some(!Fid(events[j].bytes)))
  }

  /** Events `i` to `j` are one whole frame: good packets with one frame id between two boundaries,
      with no boundary inside. */
  predicate IsFrame(events: seq<Event>, i: nat, j: nat, fid: bool)
    requires i < j <= |events|
  {
    && BeginsAt(events, i) && StopsAt(events, j)
    && (forall k :: i <= k < j ==> Good(events[k], fid))
    && (forall k :: i <= k < j - 1 ==> !EndsFrame(events[k]))
  }

  /** The payloads of the packets, one after the other. */
  function Payloads(events: seq<Event>): seq<byte> {
    if events == [] then []
    else
      Payloads(events[..|events| - 1])
      + if Valid(events[|events| - 1]) then Payload(events[|events| - 1].bytes) else []
  }

  // ---- what is being collected -------------------------------------------------------------

  /** A collection that is not faulty holds exactly the payloads since the boundary at `start`. */
  predicate Collecting(s: State, events: seq<Event>, start: nat, capacity: nat) {
    && start <= |events| && |s.current| <= capacity
    && LastFid(events) == (if s.fidKnown then Some(s.fid) else None)
    && (!s.fidKnown ==> s.errored || events == [])
    && (!s.errored ==>
          && BeginsAt(events, start) && s.current == Payloads(events[start..])
          && forall k :: start <= k < |events| ==> Good(events[k], s.fid) && !EndsFrame(events[k]))
  }

  lemma BeginsAtExtends(events: seq<Event>, e: Event, i: nat)
    requires i <= |events| && BeginsAt(events, i)
    ensures BeginsAt(events + [e], i)
  {
    assert (events + [e])[..i] == events[..i];
  }

  /** Where a packet with a header puts the start of its frame. */
  function NewStart(s: State, start: nat, n: nat, bytes: seq<byte>): nat
    requires HeaderOk(bytes)
  {
    if s.fidKnown && Fid(bytes) != s.fid then n else start
  }

  /** After the frame id is noted, the collection is empty or goes on. */
  lemma FidKeepsCollecting(s: State, events: seq<Event>, start: nat, capacity: nat, bytes: seq<byte>)
    requires Collecting(s, events, start, capacity) && HeaderOk(bytes)
    ensures var t := WithFid(Counted(s), bytes);
      var base := NewStart(s, start, |events|, bytes);
      && t.fidKnown && t.fid == Fid(bytes) && |t.current| <= capacity && base <= |events|
      && (!t.errored ==>
            && BeginsAt(events + [Packet(bytes)], base) && t.current == Payloads(events[base..])
            && forall k :: base <= k < |events| ==> Good(events[k], t.fid) && !EndsFrame(events[k]))
  {
    var all := events + [Packet(bytes)];
    assert all[..|events|] == events;
    if !s.errored { BeginsAtExtends(events, Packet(bytes), start); }
    if s.fidKnown && Fid(bytes) != s.fid {
      assert BeginsAt(all, |events|);
      assert events[|events|..] == [];
    }
  }

  lemma PayloadsSnoc(events: seq<Event>, start: nat, e: Event)
    requires start <= |events|
    ensures Payloads((events + [e])[start..])
      == Payloads(events[start..]) + if Valid(e) then Payload(e.bytes) else []
  {
    assert (events + [e])[start..] == events[start..] + [e];
  }

  /** The packet is refused because it does not fit what is left of the capacity. */
  predicate TooLong(s: State, bytes: seq<byte>, capacity: nat)
    requires HeaderOk(bytes)
  {
    !ErrorBit(bytes) && Overflows(WithFid(Counted(s), bytes), bytes, capacity)
  }

  /** What a packet with a header leaves collected, in terms of what was left after its frame id. */
  lemma AddOutcome(s: State, bytes: seq<byte>, capacity: nat)
    requires HeaderOk(bytes)
    ensures var t, r := WithFid(Counted(s), bytes), Add(s, bytes, capacity);
      && r.fidKnown == t.fidKnown && r.fid == t.fid
      && (ErrorBit(bytes) && !Eof(bytes) ==> r.errored && r.current == t.current)
      && (TooLong(s, bytes, capacity) ==> r.errored && r.current == [])
      && (!TooLong(s, bytes, capacity) && Eof(bytes) ==> Idle(r))
      && (!ErrorBit(bytes) && !TooLong(s, bytes, capacity) && !Eof(bytes) ==>
            && r.current == t.current + Payload(bytes) && r.errored == t.errored
            && (|t.current| <= capacity ==> |r.current| <= capacity))
  {
  }

  /** Nothing collected and no fault noted. */
  predicate Idle(s: State) { s.current == [] && !s.errored }

  /** A packet with a header keeps the collection right, from the same start or a new one. */
  lemma PacketKeepsCollecting(s: State, events: seq<Event>, start: nat, capacity: nat, bytes: seq<byte>)
    returns (next: nat)
    requires Collecting(s, events, start, capacity) && HeaderOk(bytes)
    ensures Collecting(Add(s, bytes, capacity), events + [Packet(bytes)], next, capacity)
  {
    var all := events + [Packet(bytes)];
    assert all[..|events|] == events && all[|events|] == Packet(bytes);
    FidKeepsCollecting(s, events, start, capacity, bytes);
    AddOutcome(s, bytes, capacity);
    next := NewStart(s, start, |events|, bytes);
    if !ErrorBit(bytes) && !TooLong(s, bytes, capacity) && !Eof(bytes) {
      CollectOne(WithFid(Counted(s), bytes), Add(s, bytes, capacity), events, next, capacity, bytes);
    } else if Eof(bytes) && !TooLong(s, bytes, capacity) {
      next := |all|;
      assert all[next..] == [];
      BeginsAfterEnd(all);
      hide Add, WithFid, TooLong, ErrorBit, Eof, Fid, Payload, BeginsAt;
    } else {
      hide Add, WithFid, TooLong, ErrorBit, Eof, Fid, Payload, BeginsAt;
    }
  }

  /** A good packet inside a frame is collected. */
  lemma CollectOne(t: State, r: State, events: seq<Event>, base: nat, capacity: nat, bytes: seq<byte>)
    requires HeaderOk(bytes) && !ErrorBit(bytes) && !Eof(bytes) && base <= |events|
    requires t.fidKnown && t.fid == Fid(bytes) && r.fidKnown && r.fid == t.fid
    requires r.errored == t.errored && r.current == t.current + Payload(bytes) && |r.current| <= capacity
    requires !t.errored ==>
      && BeginsAt(events + [Packet(bytes)], base) && t.current == Payloads(events[base..])
      && forall k :: base <= k < |events| ==> Good(events[k], t.fid) && !EndsFrame(events[k])
    ensures Collecting(r, events + [Packet(bytes)], base, capacity)
  {
    var all := events + [Packet(bytes)];
    assert all[..|events|] == events && all[|events|] == Packet(bytes);
    PayloadsSnoc(events, base, Packet(bytes));
    hide BeginsAt, Payloads, Payload;
    if !r.errored {
      forall k | base <= k < |all| ensures Good(all[k], r.fid) && !EndsFrame(all[k]) {
        if k < |events| { assert all[k] == events[k]; }
      }
    }
  }

  lemma BeginsAfterEnd(events: seq<Event>)
    requires events != [] && EndsFrame(events[|events| - 1])
    ensures BeginsAt(events, |events|)
  {
  }

  /** So does everything else. */
  lemma OtherKeepsCollecting(s: State, events: seq<Event>, start: nat, capacity: nat, e: Event)
    requires Collecting(s, events, start, capacity) && !Valid(e)
    ensures Collecting(Step(s, e, capacity), events + [e], start, capacity)
  {
    assert (events + [e])[..|events|] == events;
  }

  lemma {:induction false} AlwaysCollecting(events: seq<Event>, capacity: nat) returns (start: nat)
    ensures Collecting(After(events, capacity), events, start, capacity)
  {
    if events == [] {
      start := 0;
    } else {
      var n := |events| - 1;
      start := AlwaysCollecting(events[..n], capacity);
      var before := After(events[..n], capacity);
      assert events[..n] + [events[n]] == events;
      hide Collecting, Add;
      if Valid(events[n]) {
        start := PacketKeepsCollecting(before, events[..n], start, capacity, events[n].bytes);
      } else {
        OtherKeepsCollecting(before, events[..n], start, capacity, events[n]);
      }
    }
  }

  // ---- soundness ------------------------------------------------------------------------------

  /** Every frame AddPacket hands out is the payloads of one whole frame: all the packets between two
      boundaries, all with one frame id, no error and no fault among them, within the capacity, and
      the frame stops at this packet or just before it. */
  lemma DeliveredIsAFrame(events: seq<Event>, bytes: seq<byte>, capacity: nat)
    returns (i: nat, j: nat, fid: bool)
    requires ResultOf(After(events, capacity), bytes, capacity) == FrameComplete
    ensures i < j <= |events| + 1 && |events| <= j
    ensures IsFrame(events + [Packet(bytes)], i, j, fid)
    ensures var frame := After(events + [Packet(bytes)], capacity).completed;
      frame == Payloads((events + [Packet(bytes)])[i..j]) && |frame| <= capacity
  {
    assert (events + [Packet(bytes)])[..|events|] == events;
    AnswerMeansFrame(After(events, capacity), bytes, capacity);
    var start := AlwaysCollecting(events, capacity);
    hide After;
    i, j, fid := FrameOf(After(events, capacity), events, start, bytes, capacity);
  }

  /** Which frame a packet hands out. */
  lemma FrameOf(s: State, events: seq<Event>, start: nat, bytes: seq<byte>, capacity: nat)
    returns (i: nat, j: nat, fid: bool)
    requires Collecting(s, events, start, capacity) && Add(s, bytes, capacity).completed != []
    ensures i < j <= |events| + 1 && |events| <= j
    ensures IsFrame(events + [Packet(bytes)], i, j, fid)
    ensures var frame := Add(s, bytes, capacity).completed;
      frame == Payloads((events + [Packet(bytes)])[i..j]) && |frame| <= capacity
  {
    HandedOut(s, bytes, capacity);
    if !ErrorBit(bytes) && !TooLong(s, bytes, capacity) && Eof(bytes) {
      FidKeepsCollecting(s, events, start, capacity, bytes);
      i, j, fid := NewStart(s, start, |events|, bytes), |events| + 1, Fid(bytes);
      EndedHere(events, i, Packet(bytes), fid);
      PayloadsSnoc(events, i, Packet(bytes));
      assert (events + [Packet(bytes)])[i..j] == (events + [Packet(bytes)])[i..];
      hide Add, WithFid, TooLong, Payload, Payloads, IsFrame, BeginsAt, LastFid, Counted;
    } else {
      i, j, fid := start, |events|, s.fid;
      NothingAtEnd(events);
      EndedBefore(events, i, Packet(bytes), fid);
      assert (events + [Packet(bytes)])[i..j] == events[start..];
      hide Add, WithFid, TooLong, Payload, Payloads, IsFrame, BeginsAt, Counted;
    }
  }

  lemma NothingAtEnd(events: seq<Event>)
    ensures Payloads(events[|events|..]) == []
  {
    assert events[|events|..] == [];
  }

  /** The last packet ends the frame itself. */
  lemma EndedHere(events: seq<Event>, i: nat, e: Event, fid: bool)
    requires i <= |events| && BeginsAt(events + [e], i) && Good(e, fid) && EndsFrame(e)
    requires forall k :: i <= k < |events| ==> Good(events[k], fid) && !EndsFrame(events[k])
    ensures IsFrame(events + [e], i, |events| + 1, fid)
  {
    hide BeginsAt;
  }

  /** The frame id of the last packet ends the frame before it. */
  lemma EndedBefore(events: seq<Event>, i: nat, e: Event, fid: bool)
    requires i < |events| && BeginsAt(events, i) && Valid(e) && LastFid(events) == Some(!Fid(e.bytes))
    requires forall k :: i <= k < |events| ==> Good(events[k], fid) && !EndsFrame(events[k])
    ensures IsFrame(events + [e], i, |events|, fid)
  {
    BeginsAtExtends(events, e, i);
    assert (events + [e])[..|events|] == events;
    hide BeginsAt, LastFid;
  }

  /** A packet hands out what it ended itself, or else what its frame id ended. */
  lemma HandedOut(s: State, bytes: seq<byte>, capacity: nat)
    requires |s.current| <= capacity && Add(s, bytes, capacity).completed != []
    ensures HeaderOk(bytes)
    ensures var t, frame := WithFid(Counted(s), bytes), Add(s, bytes, capacity).completed;
      if !ErrorBit(bytes) && !TooLong(s, bytes, capacity) && Eof(bytes)
      then frame == t.current + Payload(bytes) && !t.errored && |frame| <= capacity
      else frame == s.current && EndsPrevious(s, bytes)
  {
  }

  /** The packet's frame id ends the frame collected so far. */
  predicate EndsPrevious(s: State, bytes: seq<byte>)
    requires HeaderOk(bytes)
  {
    s.fidKnown && Fid(bytes) != s.fid && s.current != [] && !s.errored
  }

  // ---- the answer --------------------------------------------------------------------------------

  /** What is left collected once the packet's frame id is noted. */
  function LeftBy(s: State, bytes: seq<byte>): seq<byte>
    requires HeaderOk(bytes)
  {
    if s.fidKnown && Fid(bytes) != s.fid then [] else s.current
  }

  predicate FitsBehind(s: State, bytes: seq<byte>, capacity: nat)
    requires HeaderOk(bytes)
  {
    |LeftBy(s, bytes)| + |Payload(bytes)| <= capacity
  }

  /** The packet ends a frame itself, and that frame is not empty and not faulty. */
  predicate EndsOwn(s: State, bytes: seq<byte>)
    requires HeaderOk(bytes)
  {
    && Eof(bytes) && LeftBy(s, bytes) + Payload(bytes) != []
    && (s.errored ==> s.fidKnown && Fid(bytes) != s.fid && s.current != [])
  }

  /** The answer to every packet, in terms of its bytes, of what is collected, and of the capacity. A
      header is invalid by its first byte alone; a frame is complete when the packet ends its own or,
      failing that, the one before; and otherwise an error bit, an overflow, or nothing is reported. */
  lemma AnswerIsExact(s: State, bytes: seq<byte>, capacity: nat)
    requires |s.current| <= capacity
    ensures var result := ResultOf(s, bytes, capacity);
      && (result == InvalidHeader <==> |bytes| < 2 || bytes[0] < 2 || bytes[0] > |bytes|)
      && (HeaderOk(bytes) ==>
            && (result == FrameComplete <==>
                  if !ErrorBit(bytes) && FitsBehind(s, bytes, capacity) && Eof(bytes)
                  then EndsOwn(s, bytes) else EndsPrevious(s, bytes))
            && (result == PayloadError <==> ErrorBit(bytes) && !EndsPrevious(s, bytes))
            && (result == Overflow <==>
                  !ErrorBit(bytes) && !FitsBehind(s, bytes, capacity) && !EndsPrevious(s, bytes))
            && (result == Accepted <==>
                  && !ErrorBit(bytes) && FitsBehind(s, bytes, capacity)
                  && if Eof(bytes) then !EndsOwn(s, bytes) else !EndsPrevious(s, bytes)))
  {
  }

  /** The answer tells whether there is a completed frame. */
  lemma AnswerMeansFrame(s: State, bytes: seq<byte>, capacity: nat)
    ensures ResultOf(s, bytes, capacity) == FrameComplete <==> Add(s, bytes, capacity).completed != []
  {
  }

  // ---- completeness -----------------------------------------------------------------------------

  /** Feeding packets from a given state. */
  function Feed(s: State, packets: seq<seq<byte>>, capacity: nat): State {
    if packets == [] then s
    else Add(Feed(s, packets[..|packets| - 1], capacity), packets[|packets| - 1], capacity)
  }

  /** The frames handed out on the way. */
  function Delivered(s: State, packets: seq<seq<byte>>, capacity: nat): seq<seq<byte>> {
    if packets == [] then []
    else
      var n := |packets| - 1;
      Delivered(s, packets[..n], capacity) + HandedOver(Feed(s, packets[..n], capacity), packets[n], capacity)
  }

  /** A caller takes the completed frame when, and only when, it is told that there is one. */
  function HandedOver(s: State, bytes: seq<byte>, capacity: nat): seq<seq<byte>> {
    if ResultOf(s, bytes, capacity) == FrameComplete then [Add(s, bytes, capacity).completed] else []
  }

  function Content(packets: seq<seq<byte>>): seq<byte> {
    if packets == [] then []
    else
      var last := packets[|packets| - 1];
      Content(packets[..|packets| - 1]) + if HeaderOk(last) then Payload(last) else []
  }

  /** A frame as a well-behaved device sends it. */
  predicate CleanFrame(packets: seq<seq<byte>>, capacity: nat) {
    && packets != [] && HeaderOk(packets[0])
    && (forall i :: 0 <= i < |packets| ==>
          && HeaderOk(packets[i]) && !ErrorBit(packets[i])
          && Fid(packets[i]) == Fid(packets[0])
          && (Eof(packets[i]) <==> i == |packets| - 1))
    && 0 < |Content(packets)| <= capacity
  }

  lemma {:induction false} ContentGrows(packets: seq<seq<byte>>, k: nat)
    requires k <= |packets|
    ensures |Content(packets[..k])| <= |Content(packets)|
    decreases |packets|
  {
    if k == |packets| {
      assert packets[..k] == packets;
    } else {
      assert packets[..|packets| - 1][..k] == packets[..k];
      ContentGrows(packets[..|packets| - 1], k);
    }
  }

  /** A packet inside a clean frame is collected and hands out nothing. */
  lemma InnerPacket(t: State, bytes: seq<byte>, capacity: nat)
    requires HeaderOk(bytes) && !ErrorBit(bytes) && !Eof(bytes)
    requires t.current == [] || (t.fidKnown && t.fid == Fid(bytes))
    requires |t.current + Payload(bytes)| <= capacity
    ensures var r := Add(t, bytes, capacity);
      && r.current == t.current + Payload(bytes) && r.errored == t.errored && r.completed == []
      && r.fidKnown && r.fid == Fid(bytes)
      && ResultOf(t, bytes, capacity) == Accepted
  {
  }

  /** The first packets of a clean frame are collected and nothing is handed out. */
  lemma {:induction false} CleanPrefix(s: State, packets: seq<seq<byte>>, k: nat, capacity: nat)
    requires s.current == [] && CleanFrame(packets, capacity) && k < |packets|
    ensures var t := Feed(s, packets[..k], capacity);
      && t.current == Content(packets[..k]) && t.errored == s.errored
      && (k > 0 ==> t.fidKnown && t.fid == Fid(packets[0]))
      && Delivered(s, packets[..k], capacity) == []
  {
    if k > 0 {
      CleanPrefix(s, packets, k - 1, capacity);
      assert packets[..k][..k - 1] == packets[..k - 1];
      ContentGrows(packets, k);
      InnerPacket(Feed(s, packets[..k - 1], capacity), packets[k - 1], capacity);
      hide Add, ResultOf, ErrorBit, Eof, Fid, Payload;
    }
  }

  /** The last packet of a clean frame hands out what was collected, unless a fault was noted. */
  lemma LastPacket(t: State, last: seq<byte>, capacity: nat)
    requires HeaderOk(last) && !ErrorBit(last) && Eof(last)
    requires t.current == [] || (t.fidKnown && t.fid == Fid(last))
    requires 0 < |t.current + Payload(last)| <= capacity
    ensures var r := Add(t, last, capacity);
      && Idle(r) && HandedOver(t, last, capacity) == if t.errored then [] else [t.current + Payload(last)]
  {
  }

  /** A clean frame is handed out once, whole, by its last packet if it starts on an idle
      reassembler, and is lost if it starts after a fault; either way the next one starts idle. */
  lemma CleanFrameOutcome(s: State, packets: seq<seq<byte>>, capacity: nat)
    requires s.current == [] && CleanFrame(packets, capacity)
    ensures Delivered(s, packets, capacity) == if s.errored then [] else [Content(packets)]
    ensures Idle(Feed(s, packets, capacity))
  {
    var n := |packets| - 1;
    CleanPrefix(s, packets, n, capacity);
    LastPacket(Feed(s, packets[..n], capacity), packets[n], capacity);
    hide Add, ResultOf, HandedOver, ErrorBit, Eof, Fid;
  }

  function Flat(frames: seq<seq<seq<byte>>>): seq<seq<byte>> {
    if frames == [] then [] else Flat(frames[..|frames| - 1]) + frames[|frames| - 1]
  }

  lemma {:induction false} FeedConcat(s: State, a: seq<seq<byte>>, b: seq<seq<byte>>, capacity: nat)
    ensures Feed(s, a + b, capacity) == Feed(Feed(s, a, capacity), b, capacity)
  {
    hide Add;
    if b == [] {
      assert a + b == a;
    } else {
      var n := |b| - 1;
      assert (a + b)[..|a| + n] == a + b[..n];
      FeedConcat(s, a, b[..n], capacity);
    }
  }

  lemma Associative<T>(x: seq<T>, y: seq<T>, z: seq<T>)
    ensures (x + y) + z == x + (y + z)
  {
  }

  lemma {:induction false} DeliveredConcat(s: State, a: seq<seq<byte>>, b: seq<seq<byte>>, capacity: nat)
    ensures Delivered(s, a + b, capacity)
      == Delivered(s, a, capacity) + Delivered(Feed(s, a, capacity), b, capacity)
  {
    hide Add, HandedOver, ResultOf, Feed;
    if b == [] {
      assert a + b == a;
    } else {
      var n := |b| - 1;
      assert (a + b)[..|a| + n] == a + b[..n];
      DeliveredConcat(s, a, b[..n], capacity);
      FeedConcat(s, a, b[..n], capacity);
      var mid := Feed(s, a, capacity);
      Associative(Delivered(s, a, capacity), Delivered(mid, b[..n], capacity),
                  HandedOver(Feed(mid, b[..n], capacity), b[n], capacity));
    }
  }

  function Contents(frames: seq<seq<seq<byte>>>): seq<seq<byte>> {
    if frames == [] then [] else Contents(frames[..|frames| - 1]) + [Content(frames[|frames| - 1])]
  }

  /** On a clean stream every frame is delivered exactly once and in order. */
  lemma {:induction false} CleanStreamIsDelivered(s: State, frames: seq<seq<seq<byte>>>, capacity: nat)
    requires Idle(s)
    requires forall i :: 0 <= i < |frames| ==> CleanFrame(frames[i], capacity)
    ensures Delivered(s, Flat(frames), capacity) == Contents(frames)
    ensures Idle(Feed(s, Flat(frames), capacity))
  {
    if frames != [] {
      var n := |frames| - 1;
      CleanStreamIsDelivered(s, frames[..n], capacity);
      OneMoreFrame(s, Flat(frames[..n]), frames[n], capacity);
      hide Feed, Delivered, CleanFrame, Content, Idle;
    }
  }

  lemma OneMoreFrame(s: State, before: seq<seq<byte>>, frame: seq<seq<byte>>, capacity: nat)
    requires Idle(Feed(s, before, capacity)) && CleanFrame(frame, capacity)
    ensures Delivered(s, before + frame, capacity) == Delivered(s, before, capacity) + [Content(frame)]
    ensures Idle(Feed(s, before + frame, capacity))
  {
    FeedConcat(s, before, frame, capacity);
    DeliveredConcat(s, before, frame, capacity);
    CleanFrameOutcome(Feed(s, before, capacity), frame, capacity);
    hide Feed, Delivered, CleanFrame, Content;
  }

  // ---- the corner cases, exactly ------------------------------------------------------------------

  /** An end of frame leaves the reassembler idle, and so the next clean frame is delivered, if and
      only if its packet fitted. */
  lemma EndOfFrameResynchronises(s: State, bytes: seq<byte>, next: seq<seq<byte>>, capacity: nat)
    requires HeaderOk(bytes) && Eof(bytes) && CleanFrame(next, capacity)
    ensures Idle(Add(s, bytes, capacity)) <==> !TooLong(s, bytes, capacity)
    ensures Delivered(Add(s, bytes, capacity), next, capacity)
      == if TooLong(s, bytes, capacity) then [] else [Content(next)]
  {
    AddOutcome(s, bytes, capacity);
    CleanFrameOutcome(Add(s, bytes, capacity), next, capacity);
    hide Add, TooLong, CleanFrame, Delivered;
  }

  /** How many frames a packet completes. */
  function Completes(s: State, bytes: seq<byte>, capacity: nat): int {
    Add(s, bytes, capacity).stats.completedFrames - s.stats.completedFrames
  }

  /** A completed frame is handed out except in one case: a packet that ends the frame before it and
      is itself a whole frame replaces the one before. */
  lemma CompletedButNotDelivered(s: State, bytes: seq<byte>, capacity: nat)
    requires |s.current| <= capacity && HeaderOk(bytes)
    ensures var handedOut := if ResultOf(s, bytes, capacity) == FrameComplete then 1 else 0;
      && Completes(s, bytes, capacity) >= handedOut
      && (Completes(s, bytes, capacity) > handedOut
          <==> EndsPrevious(s, bytes) && Eof(bytes) && !ErrorBit(bytes) && !TooLong(s, bytes, capacity))
  {
    var t := WithFid(Counted(s), bytes);
    assert EndsPrevious(s, bytes) <==> t.completed != [];
  }

  // ---- the counters -------------------------------------------------------------------------------

  function One(b: bool): nat { if b then 1 else 0 }

  /** What a packet adds to every counter, in terms of its bytes, of what is collected, and of the
      capacity: each kind of packet is counted once, payload only when it is kept, and a frame for
      every whole one that the packet ends. */
  lemma CountersAreExact(s: State, bytes: seq<byte>, capacity: nat)
    requires |s.current| <= capacity
    ensures var a, b := s.stats, Add(s, bytes, capacity).stats;
      && b.packets == a.packets + 1
      && b.transportErrors == a.transportErrors
      && b.invalidHeaders == a.invalidHeaders + One(!HeaderOk(bytes))
      && (!HeaderOk(bytes) ==> b == a.(packets := b.packets, invalidHeaders := b.invalidHeaders))
      && (HeaderOk(bytes) ==>
            var kept := !ErrorBit(bytes) && FitsBehind(s, bytes, capacity);
            && b.fidToggles == a.fidToggles + One(s.fidKnown && Fid(bytes) != s.fid)
            && b.errorPackets == a.errorPackets + One(ErrorBit(bytes))
            && b.overflows == a.overflows + One(!ErrorBit(bytes) && !kept)
            && b.payloadBytes == a.payloadBytes + (if kept then |Payload(bytes)| else 0)
            && b.eofPackets == a.eofPackets + One(Eof(bytes) && (ErrorBit(bytes) || kept))
            && b.completedFrames
               == a.completedFrames + One(EndsPrevious(s, bytes)) + One(kept && EndsOwn(s, bytes)))
  {
    hide WithFid, WithError, WithPayload, ErrorBit, Eof, Fid, Payload, FitsBehind, EndsPrevious, EndsOwn, Complete;
    if HeaderOk(bytes) {
      var t := WithFid(Counted(s), bytes);
      FidCounters(s, bytes);
      if ErrorBit(bytes) {
        ErrorCounters(t, Eof(bytes));
      } else {
        PayloadCounters(s, bytes, capacity);
      }
    }
  }

  /** Noting the frame id counts a change of it, and the frame that the change ends. */
  lemma FidCounters(s: State, bytes: seq<byte>)
    requires HeaderOk(bytes)
    ensures var t := WithFid(Counted(s), bytes);
      t.stats == s.stats.(packets := s.stats.packets + 1,
                          fidToggles := s.stats.fidToggles + One(s.fidKnown && Fid(bytes) != s.fid),
                          completedFrames := s.stats.completedFrames + One(EndsPrevious(s, bytes)))
  {
    hide Fid;
  }

  lemma ErrorCounters(t: State, eof: bool)
    ensures WithError(t, eof).stats
      == t.stats.(errorPackets := t.stats.errorPackets + 1, eofPackets := t.stats.eofPackets + One(eof))
  {
  }

  lemma PayloadCounters(s: State, bytes: seq<byte>, capacity: nat)
    requires HeaderOk(bytes) && |s.current| <= capacity
    ensures var t := WithFid(Counted(s), bytes);
      var kept := FitsBehind(s, bytes, capacity);
      WithPayload(t, bytes, capacity).stats
      == t.stats.(overflows := t.stats.overflows + One(!kept),
                  payloadBytes := t.stats.payloadBytes + (if kept then |Payload(bytes)| else 0),
                  eofPackets := t.stats.eofPackets + One(kept && Eof(bytes)),
                  completedFrames := t.stats.completedFrames + One(kept && EndsOwn(s, bytes)))
  {
    LeftAfterFid(s, bytes);
    hide WithFid, Payload, Fid, Eof;
  }

  lemma LeftAfterFid(s: State, bytes: seq<byte>)
    requires HeaderOk(bytes)
    ensures var t := WithFid(Counted(s), bytes);
      && t.current == LeftBy(s, bytes)
      && t.errored == (s.errored && !(s.fidKnown && Fid(bytes) != s.fid && s.current != []))
  {
    hide Fid;
  }

  lemma PacketCounters(s: State, bytes: seq<byte>, capacity: nat)
    ensures var r := Add(s, bytes, capacity).stats;
      r.packets == s.stats.packets + 1 && r.transportErrors == s.stats.transportErrors
  {
    hide ErrorBit, Eof, Fid, Payload, Overflows;
  }

  /** Every event is counted once, as a packet or as a transport fault. */
  lemma {:induction false} EventsAreCounted(events: seq<Event>, capacity: nat)
    ensures var stats := After(events, capacity).stats; stats.packets + stats.transportErrors == |events|
  {
    if events != [] {
      hide Add;
      EventsAreCounted(events[..|events| - 1], capacity);
      var s, e := After(events[..|events| - 1], capacity), events[|events| - 1];
      if e.Packet? { PacketCounters(s, e.bytes, capacity); }
    }
  }
}
