/** The UVC payload reassembler (UvcCore.cpp): packets with a two-byte header are collected into
    frames, which end with an end-of-frame bit or with a change of the frame id bit
    (USB Video Class 1.1, section 2.4.3.3). */
module Reassembler {

  type byte = b: int | 0 <= b < 256

  const MAX_FRAME_BYTES: nat := 0x400_0000

  datatype PacketResult = Accepted | FrameComplete | InvalidHeader | PayloadError | Overflow

  datatype Stats = Stats(
    packets: nat,
    payloadBytes: nat,
    completedFrames: nat,
    transportErrors: nat,
    errorPackets: nat,
    invalidHeaders: nat,
    overflows: nat,
    fidToggles: nat,
    eofPackets: nat)

  /** What the caller feeds in: a packet, or word of a transport fault. */
  datatype Event = Packet(bytes: seq<byte>) | Fault

  datatype State = State(
    fidKnown: bool,
    fid: bool,
    errored: bool,
    current: seq<byte>,
    completed: seq<byte>,
    stats: Stats)

  const INITIAL := State(false, false, false, [], [], Stats(0, 0, 0, 0, 0, 0, 0, 0, 0))

  // ---- the header ------------------------------------------------------------------------

  predicate HeaderOk(bytes: seq<byte>) { |bytes| >= 2 && 2 <= bytes[0] <= |bytes| }

  function Fid(bytes: seq<byte>): bool
    requires HeaderOk(bytes)
  {
    bytes[1] % 2 == 1
  }

  predicate Eof(bytes: seq<byte>)
    requires HeaderOk(bytes)
  {
    bytes[1] / 2 % 2 == 1
  }

  predicate ErrorBit(bytes: seq<byte>)
    requires HeaderOk(bytes)
  {
    bytes[1] / 64 % 2 == 1
  }

  /** The three bits are those the header's flag byte is masked with. */
  lemma HeaderBits(bytes: seq<byte>)
    requires HeaderOk(bytes)
    ensures Fid(bytes) <==> (bytes[1] as bv8) & 0x01 != 0
    ensures Eof(bytes) <==> (bytes[1] as bv8) & 0x02 != 0
    ensures ErrorBit(bytes) <==> (bytes[1] as bv8) & 0x40 != 0
  {
  }

  function Payload(bytes: seq<byte>): seq<byte>
    requires HeaderOk(bytes)
  {
    bytes[bytes[0]..]
  }

  // ---- one event ----------------------------------------------------------------------------

  /** _Complete: what was collected becomes the completed frame unless it is empty or faulty. */
  function Complete(s: State): State {
    if s.current != [] && !s.errored then
      s.(completed := s.current, current := [], errored := false,
         stats := s.stats.(completedFrames := s.stats.completedFrames + 1))
    else
      s.(completed := [], current := [], errored := false)
  }

  function WithFid(s: State, bytes: seq<byte>): State
    requires HeaderOk(bytes)
  {
    if !s.fidKnown then s.(fidKnown := true, fid := Fid(bytes))
    else if Fid(bytes) != s.fid then
      var counted := s.(stats := s.stats.(fidToggles := s.stats.fidToggles + 1));
      (if s.current != [] then Complete(counted) else counted).(fid := Fid(bytes))
    else s
  }

  predicate Overflows(s: State, bytes: seq<byte>, capacity: nat)
    requires HeaderOk(bytes)
  {
    |Payload(bytes)| > capacity - if |s.current| < capacity then |s.current| else capacity
  }

  function WithError(s: State, eof: bool): State {
    var counted := s.(stats := s.stats.(errorPackets := s.stats.errorPackets + 1), errored := true);
    if !eof then counted
    else
      var ended := counted.(stats := counted.stats.(eofPackets := counted.stats.eofPackets + 1));
      if s.completed != [] then ended.(current := [], errored := false) else Complete(ended)
  }

  function WithPayload(s: State, bytes: seq<byte>, capacity: nat): State
    requires HeaderOk(bytes)
  {
    if Overflows(s, bytes, capacity) then
      s.(stats := s.stats.(overflows := s.stats.overflows + 1), current := [], errored := true)
    else
      var filled := s.(current := s.current + Payload(bytes),
                       stats := s.stats.(payloadBytes := s.stats.payloadBytes + |Payload(bytes)|));
      if Eof(bytes)
      then Complete(filled.(stats := filled.stats.(eofPackets := filled.stats.eofPackets + 1)))
      else filled
  }

  function Counted(s: State): State {
    s.(stats := s.stats.(packets := s.stats.packets + 1), completed := [])
  }

  /** AddPacket. */
  function Add(s: State, bytes: seq<byte>, capacity: nat): State {
    var counted := Counted(s);
    if !HeaderOk(bytes) then
      counted.(stats := counted.stats.(invalidHeaders := counted.stats.invalidHeaders + 1), errored := true)
    else
      var known := WithFid(counted, bytes);
      if ErrorBit(bytes) then WithError(known, Eof(bytes)) else WithPayload(known, bytes, capacity)
  }

  /** What AddPacket returns. */
  function ResultOf(s: State, bytes: seq<byte>, capacity: nat): PacketResult {
    if !HeaderOk(bytes) then InvalidHeader
    else if Add(s, bytes, capacity).completed != [] then FrameComplete
    else if ErrorBit(bytes) then PayloadError
    else if Overflows(WithFid(Counted(s), bytes), bytes, capacity) then Overflow
    else Accepted
  }

  function Step(s: State, event: Event, capacity: nat): State {
    match event
    case Packet(bytes) => Add(s, bytes, capacity)
    case Fault =>
      s.(stats := s.stats.(transportErrors := s.stats.transportErrors + 1), errored := true)
  }

  /** The state after a list of events. */
  function After(events: seq<Event>, capacity: nat): State {
    if events == [] then INITIAL
    else Step(After(events[..|events| - 1], capacity), events[|events| - 1], capacity)
  }

  // ---- the class ---------------------------------------------------------------------------

  class PayloadReassembler {
    const capacity: nat
    var fidKnown: bool
    var fid: bool
    var frameErrored: bool
    var current: seq<byte>
    var completed: seq<byte>
    var stats: Stats

    function View(): State
      reads this
    {
      State(fidKnown, fid, frameErrored, current, completed, stats)
    }

    constructor (requested: nat)
      ensures View() == INITIAL
      ensures capacity == if requested < MAX_FRAME_BYTES then requested else MAX_FRAME_BYTES
    {
      capacity := if requested < MAX_FRAME_BYTES then requested else MAX_FRAME_BYTES;
      fidKnown, fid, frameErrored, current, completed := false, false, false, [], [];
      stats := INITIAL.stats;
    }

    method CompleteFrame()
      modifies this
      ensures View() == Complete(old(View()))
    {
      if current != [] && !frameErrored {
        completed := current;
        stats := stats.(completedFrames := stats.completedFrames + 1);
      } else {
        completed := [];
      }
      current := [];
      frameErrored := false;
    }

    method AddPacket(bytes: seq<byte>) returns (result: PacketResult)
      modifies this
      ensures View() == Add(old(View()), bytes, capacity)
      ensures result == ResultOf(old(View()), bytes, capacity)
      ensures result == FrameComplete <==> completed != []
      ensures result == InvalidHeader <==> |bytes| < 2 || bytes[0] < 2 || bytes[0] > |bytes|
    {
      hide WithFid, WithError, WithPayload, Overflows;
      stats := stats.(packets := stats.packets + 1);
      completed := [];
      assert View() == Counted(old(View()));
      assert completed == [];
      if |bytes| < 2 || bytes[0] < 2 || bytes[0] > |bytes| {
        stats := stats.(invalidHeaders := stats.invalidHeaders + 1);
        frameErrored := true;
        return InvalidHeader;
      }
      var ended := NoteFid(bytes);
      if ErrorBit(bytes) {
        AddError(Eof(bytes), ended);
        return if ended then FrameComplete else PayloadError;
      }
      result := AddPayload(bytes, ended);
    }

    /** `ended` is true when the change of the frame id completed a frame. */
    method NoteFid(bytes: seq<byte>) returns (ended: bool)
      requires HeaderOk(bytes) && completed == []
      modifies this
      ensures View() == WithFid(old(View()), bytes) && ended == (completed != [])
    {
      ended := false;
      if !fidKnown {
        fidKnown := true;
        fid := Fid(bytes);
      } else if Fid(bytes) != fid {
        stats := stats.(fidToggles := stats.fidToggles + 1);
        if current != [] {
          CompleteFrame();
          ended := completed != [];
        }
        fid := Fid(bytes);
      }
    }

    method AddError(eof: bool, ended: bool)
      requires ended == (completed != [])
      modifies this
      ensures View() == WithError(old(View()), eof) && ended == (completed != [])
    {
      stats := stats.(errorPackets := stats.errorPackets + 1);
      frameErrored := true;
      if eof {
        stats := stats.(eofPackets := stats.eofPackets + 1);
        if ended {
          current := [];
          frameErrored := false;
        } else {
          CompleteFrame();
        }
      }
    }

    method AddPayload(bytes: seq<byte>, ended: bool) returns (result: PacketResult)
      requires HeaderOk(bytes) && ended == (completed != [])
      modifies this
      ensures View() == WithPayload(old(View()), bytes, capacity)
      ensures result == if completed != [] then FrameComplete
                        else if Overflows(old(View()), bytes, capacity) then Overflow else Accepted
    {
      var payload := bytes[bytes[0]..];
      if |payload| > capacity - (if |current| < capacity then |current| else capacity) {
        stats := stats.(overflows := stats.overflows + 1);
        current := [];
        frameErrored := true;
        return if ended then FrameComplete else Overflow;
      }
      current := current + payload;
      stats := stats.(payloadBytes := stats.payloadBytes + |payload|);
      var whole := ended;
      if Eof(bytes) {
        stats := stats.(eofPackets := stats.eofPackets + 1);
        CompleteFrame();
        whole := completed != [];
      }
      return if whole then FrameComplete else Accepted;
    }

    method NoteTransportError()
      modifies this
      ensures View() == Step(old(View()), Fault, capacity)
    {
      stats := stats.(transportErrors := stats.transportErrors + 1);
      frameErrored := true;
    }

    method Reset()
      modifies this
      ensures View() == INITIAL
    {
      fidKnown, fid, frameErrored, current, completed := false, false, false, [], [];
      stats := INITIAL.stats;
    }
  }
}
