/** A finished table means exactly the scatter list it was built from (Adma2.h), and which lists can be
    built and staged for a transfer (Adma2Disk.cpp). */
module Adma2Theorems {
  import opened Adma2

  // ---- what descriptors cover ------------------------------------------------------------------

  /** The memory of all descriptors, whether or not one has the End attribute. */
  function Covered(table: seq<Descriptor>): seq<nat> {
    if table == [] then [] else Range(table[0].address, LengthOf(table[0])) + Covered(table[1..])
  }

  lemma {:induction false} CoveredConcat(a: seq<Descriptor>, b: seq<Descriptor>)
    ensures Covered(a + b) == Covered(a) + Covered(b)
  {
    hide Range, LengthOf;
    if a == [] {
      assert a + b == b;
    } else {
      assert (a + b)[1..] == a[1..] + b;
      CoveredConcat(a[1..], b);
      Associative(Range(a[0].address, LengthOf(a[0])), Covered(a[1..]), Covered(b));
    }
  }

  lemma RangeSplit(a: nat, n: nat, k: nat)
    requires k <= n
    ensures Range(a, n) == Range(a, k) + Range(a + k, n - k)
  {
  }

  /** A descriptor as the builder writes it: aligned, below 4 GiB to its end, not yet the last. */
  predicate Plain(d: Descriptor) {
    && d.attributes == TRANSFER && d.length < MAX_SEGMENT
    && d.address % 4 == 0 && d.address + LengthOf(d) <= ADDRESS_LIMIT
  }

  predicate AllPlain(table: seq<Descriptor>) { forall i :: 0 <= i < |table| ==> Plain(table[i]) }

  /** The chunks of a segment cover it, byte for byte. */
  lemma {:induction false} ChunksCover(a: nat, n: nat)
    requires a % 4 == 0 && a + n <= ADDRESS_LIMIT
    ensures Covered(Chunks(a, n)) == Range(a, n) && AllPlain(Chunks(a, n))
    decreases n
  {
    if n > MAX_SEGMENT {
      ChunksCover(a + MAX_SEGMENT, n - MAX_SEGMENT);
      RangeSplit(a, n, MAX_SEGMENT);
      assert Chunks(a, n)[1..] == Chunks(a + MAX_SEGMENT, n - MAX_SEGMENT);
    } else if n > 0 {
      assert Chunks(a, n)[1..] == [];
      assert Covered([]) == [];
      assert Range(a, n) + [] == Range(a, n);
    }
  }

  // ---- adding segments -----------------------------------------------------------------------

  /** How many descriptors a scatter list takes. */
  function TotalPieces(segments: seq<Segment>): nat {
    if segments == [] then 0
    else TotalPieces(segments[..|segments| - 1]) + Pieces(segments[|segments| - 1].bytes)
  }

  predicate AllAddressable(segments: seq<Segment>) {
    forall i :: 0 <= i < |segments| && segments[i].bytes > 0 ==> Addressable(segments[i])
  }

  /** A table without overflow holds exactly the segments added, and there is no overflow exactly when
      every segment with bytes is addressable and they all fit. */
  lemma {:induction false} AddAllExactly(segments: seq<Segment>, capacity: nat)
    ensures var t := AddAll(segments, capacity);
      && (!t.overflow <==> AllAddressable(segments) && TotalPieces(segments) <= capacity)
      && (!t.overflow ==>
            && |t.entries| == TotalPieces(segments) && AllPlain(t.entries)
            && Covered(t.entries) == Memory(segments))
  {
    if segments == [] { return; }
    var n := |segments| - 1;
    var s := segments[n];
    var before := AddAll(segments[..n], capacity);
    AddAllExactly(segments[..n], capacity);
    ChunksCount(s.address, s.bytes);
    AddressableSplit(segments);
    if s.bytes > 0 && Addressable(s) {
      ChunksCover(s.address, s.bytes);
      CoveredConcat(before.entries, Chunks(s.address, s.bytes));
    }
    NoBytes(s.address);
    hide Chunks, Covered, Range, Plain;
  }

  lemma NoBytes(a: nat)
    ensures Range(a, 0) == [] && Pieces(0) == 0
  {
  }

  lemma AddressableSplit(segments: seq<Segment>)
    requires segments != []
    ensures AllAddressable(segments) <==>
      && AllAddressable(segments[..|segments| - 1])
      && (segments[|segments| - 1].bytes > 0 ==> Addressable(segments[|segments| - 1]))
  {
    if AllAddressable(segments[..|segments| - 1]) {
      forall i | 0 <= i < |segments| - 1 && segments[i].bytes > 0 ensures Addressable(segments[i]) {
        assert segments[..|segments| - 1][i] == segments[i];
      }
    }
  }

  // ---- the finished table -----------------------------------------------------------------------

  /** The lists a table can be built from. */
  predicate Buildable(segments: seq<Segment>, capacity: nat) {
    AllAddressable(segments) && 0 < TotalPieces(segments) <= capacity
  }

  /** Building succeeds exactly when the segments with bytes are aligned, end by 4 GiB, are not none
      and take no more descriptors than there are. */
  lemma BuildsExactly(segments: seq<Segment>, capacity: nat)
    ensures Finalized(AddAll(segments, capacity)).Some? <==> Buildable(segments, capacity)
  {
    AddAllExactly(segments, capacity);
    hide AddAll, Covered, Memory, AllPlain;
  }

  /** A controller that walks descriptors of which only the last has the End attribute reads all of
      them. */
  lemma {:induction false} WalkReadsAll(table: seq<Descriptor>)
    requires table != [] && forall i :: 0 <= i < |table| ==> IsTransfer(table[i])
    requires forall i :: 0 <= i < |table| ==> (IsEnd(table[i]) <==> i == |table| - 1)
    ensures Walk(table) == Some(Covered(table))
  {
    hide Range, LengthOf, IsTransfer, IsEnd;
    if |table| == 1 {
      var only := Range(table[0].address, LengthOf(table[0]));
      assert table[1..] == [] && Covered([]) == [] && only + [] == only;
    } else {
      WalkReadsAll(table[1..]);
    }
  }

  lemma {:induction false} CoveredIgnoresAttributes(a: seq<Descriptor>, b: seq<Descriptor>)
    requires |a| == |b|
    requires forall i :: 0 <= i < |a| ==> a[i].address == b[i].address && a[i].length == b[i].length
    ensures Covered(a) == Covered(b)
  {
    hide Range;
    if a != [] { CoveredIgnoresAttributes(a[1..], b[1..]); }
  }

  /** What a controller reads from a finished table is the memory the scatter list names, byte for byte
      and in order. Only the last descriptor ends the table, every address is aligned and every
      descriptor ends by 4 GiB. */
  lemma TableMeansItsSegments(segments: seq<Segment>, capacity: nat, table: seq<Descriptor>)
    requires Finalized(AddAll(segments, capacity)) == Some(table)
    ensures Walk(table) == Some(Memory(segments))
    ensures |table| == TotalPieces(segments) <= capacity
    ensures forall i :: 0 <= i < |table| ==>
      && (IsEnd(table[i]) <==> i == |table| - 1)
      && table[i].address % 4 == 0 && table[i].address + LengthOf(table[i]) <= ADDRESS_LIMIT
  {
    AddAllExactly(segments, capacity);
    var entries := AddAll(segments, capacity).entries;
    hide AddAll, Walk, Covered, Memory, TotalPieces;
    forall i | 0 <= i < |table|
      ensures IsTransfer(table[i]) && (IsEnd(table[i]) <==> i == |table| - 1)
      ensures table[i].address == entries[i].address && table[i].length == entries[i].length
    {
      assert Plain(entries[i]);
    }
    WalkReadsAll(table);
    CoveredIgnoresAttributes(table, entries);
  }

  // ---- the disk --------------------------------------------------------------------------------

  const MAX_DESCRIPTORS: nat := 128
  const MAX_TRANSFER: nat := 524_288
  const UINT32_MAX: nat := 0xFFFF_FFFF

  datatype Status = B_OK | B_BAD_VALUE | B_BAD_ADDRESS | B_BUFFER_OVERFLOW

  /** What Transfer hands to the command engine: the command's argument and block count, and the table
      with its number of entries. */
  datatype Staged = Staged(argument: nat, blocks: nat, entries: nat)

  function TotalBytes(vecs: seq<Segment>): nat {
    if vecs == [] then 0 else TotalBytes(vecs[..|vecs| - 1]) + vecs[|vecs| - 1].bytes
  }

  /** A range whose address and length have 32 bits. */
  predicate InRange(s: Segment) { s.address < ADDRESS_LIMIT && s.bytes <= UINT32_MAX }

  /** The loop over the list gets past these ranges. */
  predicate Taken(vecs: seq<Segment>) {
    (forall i :: 0 <= i < |vecs| ==> InRange(vecs[i])) && !AddAll(vecs, MAX_DESCRIPTORS).overflow
  }

  /** The range at which the loop stops. */
  predicate StopsAt(vecs: seq<Segment>, i: nat)
    requires i < |vecs|
  {
    Taken(vecs[..i]) && !Taken(vecs[..i + 1])
  }

  lemma TakenPrefix(vecs: seq<Segment>, i: nat)
    requires i <= |vecs| && Taken(vecs)
    ensures Taken(vecs[..i])
  {
    hide AddAll;
    if AddAll(vecs[..i], MAX_DESCRIPTORS).overflow { PrefixOverflows(vecs, i, MAX_DESCRIPTORS); }
  }

  lemma TakenUpTo(vecs: seq<Segment>, i: nat, j: nat)
    requires i <= j <= |vecs| && Taken(vecs[..j])
    ensures Taken(vecs[..i])
  {
    hide Taken;
    TakenPrefix(vecs[..j], i);
    assert vecs[..j][..i] == vecs[..i];
  }

  /** There is one such range at most, and none in a list that is taken whole. */
  lemma StopsOnce(vecs: seq<Segment>, i: nat, j: nat)
    requires i < |vecs| && j <= |vecs| && StopsAt(vecs, i) && Taken(vecs[..j])
    ensures j <= i
  {
    hide Taken;
    if i < j { TakenUpTo(vecs, i + 1, j); }
  }

  /** The status of a list that cannot be built: that of the range the loop stops at, or, if there is
      none, that of a list without bytes. */
  ghost predicate ListFails(vecs: seq<Segment>, status: Status) {
    && (forall i :: 0 <= i < |vecs| && StopsAt(vecs, i) ==>
          status == if InRange(vecs[i]) then B_BUFFER_OVERFLOW else B_BAD_ADDRESS)
    && (Taken(vecs) ==> status == B_BAD_VALUE)
  }

  /** The position and the length are whole sectors, and there is something to transfer. */
  predicate WholeSectors(position: int, total: nat, sectorSize: nat)
    requires sectorSize > 0
  {
    0 < total && total % sectorSize == 0 && 0 <= position && position % sectorSize == 0
  }

  /** The command's argument has 32 bits and its block count 16. */
  predicate InCommand(position: int, total: nat, sectorSize: nat, sectors: bool)
    requires sectorSize > 0
  {
    (if sectors then position / sectorSize else position) <= UINT32_MAX && 0 < total / sectorSize <= 65535
  }

  /** The lists a table is built from. */
  predicate Listable(vecs: seq<Segment>) {
    (forall i :: 0 <= i < |vecs| ==> InRange(vecs[i])) && Buildable(vecs, MAX_DESCRIPTORS)
  }

  /** The scatter lists and positions that reach the command engine. */
  predicate Stageable(position: int, vecs: seq<Segment>, sectorSize: nat, sectors: bool)
    requires sectorSize > 0
  {
    && 0 < |vecs| <= MAX_DESCRIPTORS
    && Listable(vecs)
    && WholeSectors(position, TotalBytes(vecs), sectorSize) && TotalBytes(vecs) <= MAX_TRANSFER
    && InCommand(position, TotalBytes(vecs), sectorSize, sectors)
  }

  lemma {:induction false} MemorySize(vecs: seq<Segment>)
    ensures |Memory(vecs)| == TotalBytes(vecs)
  {
    if vecs != [] { MemorySize(vecs[..|vecs| - 1]); }
  }

  lemma {:induction false} PrefixOverflows(vecs: seq<Segment>, i: nat, capacity: nat)
    requires i <= |vecs| && AddAll(vecs[..i], capacity).overflow
    ensures AddAll(vecs, capacity).overflow
    decreases |vecs|
  {
    if i == |vecs| {
      assert vecs[..i] == vecs;
    } else {
      assert vecs[..|vecs| - 1][..i] == vecs[..i];
      PrefixOverflows(vecs[..|vecs| - 1], i, capacity);
    }
  }

  /** Transfer up to the command: a transfer is staged exactly when the list and the position allow it,
      and then the table reads or writes the whole list, as many bytes as the blocks hold. */
  method Stage(table: array<Descriptor>, position: int, vecs: seq<Segment>, sectorSize: nat, sectors: bool)
    returns (status: Status, staged: Staged)
    requires table.Length == MAX_DESCRIPTORS && 0 < sectorSize <= 65535
    modifies table
    ensures status == B_OK <==> Stageable(position, vecs, sectorSize, sectors)
    ensures status != B_OK && 0 < |vecs| <= MAX_DESCRIPTORS && !Listable(vecs) ==> ListFails(vecs, status)
    ensures status != B_OK && (0 < |vecs| <= MAX_DESCRIPTORS ==> Listable(vecs)) ==>
      status == if 0 < |vecs| <= MAX_DESCRIPTORS && WholeSectors(position, TotalBytes(vecs), sectorSize)
                   && TotalBytes(vecs) > MAX_TRANSFER
                then B_BUFFER_OVERFLOW else B_BAD_VALUE
    ensures status == B_OK ==>
      && staged.entries <= MAX_DESCRIPTORS && Walk(table[..staged.entries]) == Some(Memory(vecs))
      && staged.blocks * sectorSize == |Memory(vecs)|
      && staged.argument == (if sectors then position / sectorSize else position)
  {
    staged := Staged(0, 0, 0);
    if |vecs| == 0 || |vecs| > MAX_DESCRIPTORS { return B_BAD_VALUE, staged; }
    var entries, total;
    status, entries, total := Build(table, vecs);
    if status != B_OK { return; }
    MemorySize(vecs);
    TableMeansItsSegments(vecs, MAX_DESCRIPTORS, table[..entries]);
    hide AddAll, Listable, ListFails, Walk, Memory, TotalBytes, WholeSectors, InCommand;
    status, staged := Geometry(position, total, entries, sectorSize, sectors);
  }

  /** The checks behind the table. */
  method Geometry(position: int, total: nat, entries: nat, sectorSize: nat, sectors: bool)
    returns (status: Status, staged: Staged)
    requires 0 < sectorSize <= 65535
    ensures status == B_OK <==> WholeSectors(position, total, sectorSize) && total <= MAX_TRANSFER
                                && InCommand(position, total, sectorSize, sectors)
    ensures status != B_OK ==>
      status == if WholeSectors(position, total, sectorSize) && total > MAX_TRANSFER
                then B_BUFFER_OVERFLOW else B_BAD_VALUE
    ensures status == B_OK ==>
      && staged.entries == entries && staged.blocks * sectorSize == total
      && staged.argument == (if sectors then position / sectorSize else position)
  {
    staged := Staged(0, 0, 0);
    if total == 0 || total % sectorSize != 0 || position < 0 || position % sectorSize != 0 {
      return B_BAD_VALUE, staged;
    }
    if total > MAX_TRANSFER { return B_BUFFER_OVERFLOW, staged; }
    var argument := if sectors then position / sectorSize else position;
    if argument > UINT32_MAX { return B_BAD_VALUE, staged; }
    var blocks := total / sectorSize;
    if blocks == 0 || blocks > 65535 { return B_BAD_VALUE, staged; }
    return B_OK, Staged(argument, blocks, entries);
  }

  /** The loop over the scatter list. */
  method Build(table: array<Descriptor>, vecs: seq<Segment>) returns (status: Status, entries: nat, total: nat)
    requires table.Length == MAX_DESCRIPTORS
    modifies table
    ensures status == B_OK <==> Listable(vecs)
    ensures status != B_OK ==> ListFails(vecs, status)
    ensures status == B_OK ==>
      && entries <= MAX_DESCRIPTORS && total == TotalBytes(vecs)
      && Finalized(AddAll(vecs, MAX_DESCRIPTORS)) == Some(table[..entries])
  {
    hide Add, Finalized, ListFails, Listable, Taken;
    entries, total := 0, 0;
    var builder := new Adma2Builder(table, MAX_DESCRIPTORS);
    NothingTaken();
    for i := 0 to |vecs|
      invariant builder.Valid() && builder.table == table && builder.capacity == MAX_DESCRIPTORS && fresh(builder)
      invariant builder.View() == AddAll(vecs[..i], MAX_DESCRIPTORS) && total == TotalBytes(vecs[..i])
      invariant Taken(vecs[..i])
    {
      assert vecs[..i + 1][..i] == vecs[..i];
      TakenNext(vecs, i);
      if vecs[i].address >= ADDRESS_LIMIT || vecs[i].bytes > UINT32_MAX {
        LoopFails(vecs, i, B_BAD_ADDRESS);
        return B_BAD_ADDRESS, entries, total;
      }
      ghost var before := builder.View();
      var ok := builder.AddSegment(vecs[i].address, vecs[i].bytes);
      UnfitOverflows(before, vecs[i], MAX_DESCRIPTORS);
      if !ok {
        LoopFails(vecs, i, B_BUFFER_OVERFLOW);
        return B_BUFFER_OVERFLOW, entries, total;
      }
      total := total + vecs[i].bytes;
    }
    assert vecs[..|vecs|] == vecs;
    TakenWhole(vecs);
    var done := builder.Finalize();
    if !done { return B_BAD_VALUE, entries, total; }
    return B_OK, builder.count, total;
  }

  lemma NothingTaken()
    ensures Taken([])
  {
  }

  lemma TakenNext(vecs: seq<Segment>, i: nat)
    requires i < |vecs| && Taken(vecs[..i])
    ensures !AddAll(vecs[..i], MAX_DESCRIPTORS).overflow
    ensures Taken(vecs[..i + 1]) <==> InRange(vecs[i]) && !AddAll(vecs[..i + 1], MAX_DESCRIPTORS).overflow
  {
    hide AddAll;
    assert vecs[..i + 1][i] == vecs[i];
    assert forall k :: 0 <= k < i ==> vecs[..i][k] == vecs[..i + 1][k];
  }

  lemma LoopFails(vecs: seq<Segment>, i: nat, status: Status)
    requires i < |vecs| && Taken(vecs[..i]) && !Taken(vecs[..i + 1])
    requires status == if InRange(vecs[i]) then B_BUFFER_OVERFLOW else B_BAD_ADDRESS
    ensures ListFails(vecs, status) && !Listable(vecs)
  {
    hide Taken, Listable;
    forall j | 0 <= j < |vecs| && StopsAt(vecs, j) ensures j == i {
      StopsOnce(vecs, i, j);
      StopsOnce(vecs, j, i);
    }
    if Taken(vecs) { TakenPrefix(vecs, i + 1); }
    ListableIsTaken(vecs);
  }

  lemma ListableIsTaken(vecs: seq<Segment>)
    ensures Listable(vecs) <==> Taken(vecs) && Finalized(AddAll(vecs, MAX_DESCRIPTORS)).Some?
  {
    BuildsExactly(vecs, MAX_DESCRIPTORS);
    hide AddAll, Buildable;
  }

  lemma TakenWhole(vecs: seq<Segment>)
    requires Taken(vecs)
    ensures Listable(vecs) <==> Finalized(AddAll(vecs, MAX_DESCRIPTORS)).Some?
    ensures ListFails(vecs, B_BAD_VALUE)
  {
    hide Taken, Finalized, Listable;
    ListableIsTaken(vecs);
    forall j | 0 <= j < |vecs| ensures !StopsAt(vecs, j) { TakenPrefix(vecs, j + 1); }
  }

  lemma UnfitOverflows(t: Table, s: Segment, capacity: nat)
    requires |t.entries| <= capacity
    ensures Add(t, s, capacity).overflow <==> t.overflow || !Fits(t, s, capacity)
  {
    ChunksCount(s.address, s.bytes);
  }
}
