/** The ADMA2 descriptor table builder (Adma2.h) and what a controller reads from its tables
    (SD Host Controller Simplified Specification 3.00, section 1.13). */
module Adma2 {

  const MAX_SEGMENT: nat := 65536
  const ADDRESS_LIMIT: nat := 0x1_0000_0000
  const TRANSFER: nat := 0x21       // valid, transfer
  const TRANSFER_END: nat := 0x23   // valid, end, transfer

  datatype Option<+T> = None | Some(value: T)

  datatype Descriptor = Descriptor(attributes: nat, length: nat, address: nat)

  datatype Segment = Segment(address: nat, bytes: nat)

  // ---- what a controller does with a table ---------------------------------------------------

  predicate IsTransfer(d: Descriptor) { d.attributes % 2 == 1 && d.attributes / 16 % 4 == 2 }

  predicate IsEnd(d: Descriptor) { d.attributes / 2 % 2 == 1 }

  /** A length field of zero stands for 65536 bytes. */
  function LengthOf(d: Descriptor): nat { if d.length == 0 then MAX_SEGMENT else d.length }

  /** The addresses of `n` bytes from `a` on. */
  function Range(a: nat, n: nat): seq<nat> { seq(n, i requires 0 <= i < n => a + i) }

  /** The memory a table walks over, byte by byte, up to the first descriptor with the End attribute;
      None when a descriptor is not a transfer or the table has no end. */
  function Walk(table: seq<Descriptor>): Option<seq<nat>> {
    if table == [] || !IsTransfer(table[0]) then None
    else
      var first := Range(table[0].address, LengthOf(table[0]));
      if IsEnd(table[0]) then Some(first)
      else
        var rest := Walk(table[1..]);
        if rest.None? then None else Some(first + rest.value)
  }

  /** The memory a scatter list names. */
  function Memory(segments: seq<Segment>): seq<nat> {
    if segments == [] then []
    else
      Memory(segments[..|segments| - 1])
      + Range(segments[|segments| - 1].address, segments[|segments| - 1].bytes)
  }

  // ---- what the builder produces ---------------------------------------------------------------

  /** The descriptors of one segment. */
  function Chunks(a: nat, n: nat): seq<Descriptor>
    decreases n
  {
    if n == 0 then []
    else if n <= MAX_SEGMENT then [Descriptor(TRANSFER, n % MAX_SEGMENT, a)]
    else [Descriptor(TRANSFER, 0, a)] + Chunks(a + MAX_SEGMENT, n - MAX_SEGMENT)
  }

  predicate Addressable(s: Segment) { s.address % 4 == 0 && s.address + s.bytes <= ADDRESS_LIMIT }

  datatype Table = Table(entries: seq<Descriptor>, overflow: bool)

  /** AddSegment: as many descriptors as fit are written even when they do not all fit. */
  function Add(t: Table, s: Segment, capacity: nat): Table
    requires |t.entries| <= capacity
  {
    if s.bytes == 0 then t
    else if !Addressable(s) then t.(overflow := true)
    else
      var chunks, room := Chunks(s.address, s.bytes), capacity - |t.entries|;
      if |chunks| <= room then t.(entries := t.entries + chunks)
      else Table(t.entries + chunks[..room], true)
  }

  /** How many descriptors a segment takes. */
  function Pieces(n: nat): nat { (n + MAX_SEGMENT - 1) / MAX_SEGMENT }

  /** The whole segment goes into the table. */
  predicate Fits(t: Table, s: Segment, capacity: nat) {
    s.bytes == 0 || (Addressable(s) && |t.entries| + Pieces(s.bytes) <= capacity)
  }

  lemma {:induction false} ChunksCount(a: nat, n: nat)
    ensures |Chunks(a, n)| == Pieces(n)
    decreases n
  {
    if n > MAX_SEGMENT { ChunksCount(a + MAX_SEGMENT, n - MAX_SEGMENT); }
  }

  /** Finalize; None when there is nothing to transfer or something did not fit. */
  function Finalized(t: Table): Option<seq<Descriptor>> {
    if t.overflow || t.entries == [] then None
    else
      var last := |t.entries| - 1;
      Some(t.entries[last := t.entries[last].(attributes := TRANSFER_END)])
  }

  function AddAll(segments: seq<Segment>, capacity: nat): (t: Table)
    ensures |t.entries| <= capacity
  {
    if segments == [] then Table([], false)
    else Add(AddAll(segments[..|segments| - 1], capacity), segments[|segments| - 1], capacity)
  }

  // ---- the class -----------------------------------------------------------------------------

  class Adma2Builder {
    const table: array<Descriptor>
    const capacity: nat
    var count: nat
    var overflow: bool

    ghost predicate Valid()
      reads this
    {
      count <= capacity <= table.Length
    }

    ghost function View(): Table
      requires Valid()
      reads this, table
    {
      Table(table[..count], overflow)
    }

    constructor (table: array<Descriptor>, capacity: nat)
      requires capacity <= table.Length
      ensures Valid() && this.table == table && this.capacity == capacity
      ensures View() == Table([], false)
    {
      this.table, this.capacity := table, capacity;
      count, overflow := 0, false;
    }

    /** Nothing beyond the last descriptor counted is written. */
    method AddSegment(physicalAddress: nat, bytes: nat) returns (ok: bool)
      requires Valid() && physicalAddress < ADDRESS_LIMIT && bytes < ADDRESS_LIMIT
      modifies this, table
      ensures Valid() && View() == Add(old(View()), Segment(physicalAddress, bytes), capacity)
      ensures ok <==> Fits(old(View()), Segment(physicalAddress, bytes), capacity)
      ensures forall i :: count <= i < table.Length ==> table[i] == old(table[i])
    {
      if bytes == 0 { return true; }
      if physicalAddress % 4 != 0 || physicalAddress + bytes > ADDRESS_LIMIT {
        overflow := true;
        return false;
      }
      ChunksCount(physicalAddress, bytes);
      ok := AppendChunks(physicalAddress, bytes);
    }

    /** The splitting loop. */
    method AppendChunks(physicalAddress: nat, bytes: nat) returns (ok: bool)
      requires Valid()
      modifies this`count, this`overflow, table
      ensures Valid()
      ensures var chunks := Chunks(physicalAddress, bytes);
        var room := capacity - old(count);
        && (ok <==> |chunks| <= room)
        && table[..count] == old(table[..count]) + (if ok then chunks else chunks[..room])
        && overflow == (old(overflow) || !ok)
      ensures forall i :: count <= i < table.Length ==> table[i] == old(table[i])
    {
      hide Chunks;
      ghost var chunks := Chunks(physicalAddress, bytes);
      ghost var written: seq<Descriptor> := [];
      var offset: nat, left: nat := 0, bytes;
      assert [] + chunks == chunks;
      while left > 0
        invariant Valid() && count == old(count) + |written| && overflow == old(overflow)
        invariant table[..count] == old(table[..count]) + written
        invariant written + Chunks(physicalAddress + offset, left) == chunks && offset + left == bytes
        invariant forall i :: count <= i < table.Length ==> table[i] == old(table[i])
        decreases left
      {
        FirstChunk(physicalAddress + offset, left);
        if count >= capacity {
          overflow := true;
          assert written == chunks[..|written|];
          return false;
        }
        var chunk := if left > MAX_SEGMENT then MAX_SEGMENT else left;
        var descriptor := Descriptor(TRANSFER, chunk % MAX_SEGMENT, physicalAddress + offset);
        Write(descriptor);
        Associative(written, [descriptor], Chunks(physicalAddress + offset + chunk, left - chunk));
        Associative(old(table[..count]), written, [descriptor]);
        written := written + [descriptor];
        offset := offset + chunk;
        left := left - chunk;
      }
      NoChunks(physicalAddress + offset);
      assert written == chunks;
      return true;
    }

    method Write(descriptor: Descriptor)
      requires Valid() && count < capacity
      modifies this`count, table
      ensures Valid() && count == old(count) + 1
      ensures table[..count] == old(table[..count]) + [descriptor]
      ensures forall i :: count <= i < table.Length ==> table[i] == old(table[i])
    {
      table[count] := descriptor;
      count := count + 1;
    }

    method Finalize() returns (ok: bool)
      requires Valid()
      modifies table
      ensures Valid() && ok == Finalized(old(View())).Some?
      ensures ok ==> table[..count] == Finalized(old(View())).value
      ensures !ok ==> table[..] == old(table[..])
      ensures forall i :: count <= i < table.Length ==> table[i] == old(table[i])
    {
      if overflow || count == 0 { return false; }
      table[count - 1] := table[count - 1].(attributes := TRANSFER_END);
      return true;
    }
  }

  /** The first step of splitting. */
  lemma FirstChunk(a: nat, n: nat)
    requires n > 0
    ensures var chunk := if n > MAX_SEGMENT then MAX_SEGMENT else n;
      Chunks(a, n) == [Descriptor(TRANSFER, chunk % MAX_SEGMENT, a)] + Chunks(a + chunk, n - chunk)
  {
  }

  lemma NoChunks(a: nat)
    ensures Chunks(a, 0) == []
  {
  }

  lemma Associative<T>(x: seq<T>, y: seq<T>, z: seq<T>)
    ensures (x + y) + z == x + (y + z)
  {
  }
}
