/** ParseFirmware (Firmware.cpp) as loops over offsets, and as a function that also returns what was
    recognised. */
module Firmware {
  import opened FirmwareFormat

  datatype Status =
    | Ok | NullData | TooSmall | BadSignature | SizeMismatch | Truncated | BadBlockType | BadBlockSize
    | UnalignedDestination | DestinationRange
    | Refused(code: nat)    // what a visitor may answer

  datatype Option<+T> = None | Some(value: T)

  /** What the visitor answers to its n-th call. */
  type Visitor = nat -> Status

  predicate CheckedRange(offset: nat, length: nat, total: nat) {
    offset <= total && length <= total - offset
  }

  datatype BlockRead = BlockRead(status: Status, block: Block)
  datatype BlocksRead = BlocksRead(status: Status, blocks: seq<Block>, visited: seq<Block>, offset: nat)
  datatype ModuleRead = ModuleRead(status: Status, mod: Module, visited: seq<Block>, offset: nat)
  datatype ModulesRead = ModulesRead(status: Status, modules: seq<Module>, visited: seq<Block>, offset: nat)

  const NO_BLOCK := Block(0, 0, [], [])
  const NO_MODULE := Module([], [], [])

  /** The checks on one block, in order. */
  function ReadBlock(data: seq<byte>, offset: nat, end: nat, limits: Limits): BlockRead
    requires end <= |data|
  {
    if !CheckedRange(offset, BLOCK_HEADER, end) then BlockRead(Truncated, NO_BLOCK)
    else
      var kind, size, destination := Read32(data, offset), Read32(data, offset + 4), Read32(data, offset + 8);
      if size == 0 then BlockRead(BadBlockSize, NO_BLOCK)
      else if !KnownKind(kind) then BlockRead(BadBlockType, NO_BLOCK)
      else if !CheckedRange(offset + BLOCK_HEADER, size, end) then BlockRead(Truncated, NO_BLOCK)
      else if kind != CUSTOM && !CheckedRange(destination, size, MemorySize(kind, limits)) then
        BlockRead(DestinationRange, NO_BLOCK)
      else if kind != CUSTOM && destination % 4 != 0 then BlockRead(UnalignedDestination, NO_BLOCK)
      else
        BlockRead(Ok, Block(kind, destination, data[offset + 12..offset + 16],
                            data[offset + 16..offset + 16 + size]))
  }

  /** A block whose header was checked is visited, unless it is a custom one, and passed. */
  function Passed(r: BlocksRead, read: BlockRead, visitor: Visitor, before: nat): BlocksRead {
    if read.status != Ok then r.(status := read.status)
    else
      var next := r.offset + BLOCK_HEADER + |read.block.data|;
      if read.block.kind == CUSTOM then BlocksRead(Ok, r.blocks + [read.block], r.visited, next)
      else
        var answer := visitor(before + |r.visited|);
        BlocksRead(answer, r.blocks + [read.block], r.visited + [read.block], next)
  }

  /** One more block after those already read. */
  function NextBlock(data: seq<byte>, r: BlocksRead, end: nat, limits: Limits, visitor: Visitor, before: nat): BlocksRead
    requires end <= |data|
  {
    Passed(r, ReadBlock(data, r.offset, end, limits), visitor, before)
  }

  /** The first `n` blocks of a module; `before` blocks of earlier modules were visited. */
  function ReadBlocks(data: seq<byte>, start: nat, end: nat, n: nat, limits: Limits, visitor: Visitor,
                      before: nat): BlocksRead
    requires end <= |data|
  {
    if n == 0 then BlocksRead(Ok, [], [], start)
    else
      var r := ReadBlocks(data, start, end, n - 1, limits, visitor, before);
      if r.status != Ok then r else NextBlock(data, r, end, limits, visitor, before)
  }

  function ReadModule(data: seq<byte>, offset: nat, limits: Limits, visitor: Visitor, before: nat): ModuleRead {
    if !CheckedRange(offset, MODULE_HEADER, |data|) then ModuleRead(Truncated, NO_MODULE, [], offset)
    else
      var size, count := Read32(data, offset + 4), Read32(data, offset + 8);
      if !CheckedRange(offset + MODULE_HEADER, size, |data|) then ModuleRead(Truncated, NO_MODULE, [], offset)
      else
        var end := offset + MODULE_HEADER + size;
        var r := ReadBlocks(data, offset + MODULE_HEADER, end, count, limits, visitor, before);
        if r.status != Ok then ModuleRead(r.status, NO_MODULE, r.visited, offset)
        else if r.offset != end then ModuleRead(SizeMismatch, NO_MODULE, r.visited, offset)
        else
          ModuleRead(Ok, Module(data[offset..offset + 4], data[offset + 12..offset + 20], r.blocks),
                     r.visited, end)
  }

  function NextModule(data: seq<byte>, r: ModulesRead, limits: Limits, visitor: Visitor): ModulesRead {
    var m := ReadModule(data, r.offset, limits, visitor, |r.visited|);
    if m.status != Ok then r.(status := m.status, visited := r.visited + m.visited)
    else ModulesRead(Ok, r.modules + [m.mod], r.visited + m.visited, m.offset)
  }

  function ReadModules(data: seq<byte>, n: nat, limits: Limits, visitor: Visitor): ModulesRead {
    if n == 0 then ModulesRead(Ok, [], [], FILE_HEADER)
    else
      var r := ReadModules(data, n - 1, limits, visitor);
      if r.status != Ok then r else NextModule(data, r, limits, visitor)
  }

  datatype Parse = Parse(status: Status, image: Image, visited: seq<Block>)

  const NO_IMAGE := Image([], [])

  /** ParseFirmware as a function of the image. */
  function ParseImage(source: Option<seq<byte>>, limits: Limits, visitor: Visitor): Parse {
    if source.None? then Parse(NullData, NO_IMAGE, [])
    else
      var data := source.value;
      if |data| < FILE_HEADER then Parse(TooSmall, NO_IMAGE, [])
      else if data[..4] != SIGNATURE then Parse(BadSignature, NO_IMAGE, [])
      else if Read32(data, 4) != |data| - FILE_HEADER then Parse(SizeMismatch, NO_IMAGE, [])
      else
        var r := ReadModules(data, Read32(data, 8), limits, visitor);
        if r.status != Ok then Parse(r.status, NO_IMAGE, r.visited)
        else if r.offset != |data| then Parse(SizeMismatch, NO_IMAGE, r.visited)
        else Parse(Ok, Image(data[12..32], r.modules), r.visited)
  }

  // ---- the loops -----------------------------------------------------------------------------

  /** The two nested loops of ParseFirmware. `visited` is what the visitor was called with. */
  method ParseFirmware(source: Option<seq<byte>>, limits: Limits, visitor: Visitor)
    returns (status: Status, visited: seq<Block>)
    ensures status == ParseImage(source, limits, visitor).status
    ensures visited == ParseImage(source, limits, visitor).visited
  {
    visited := [];
    if source.None? { return NullData, visited; }
    var data := source.value;
    if |data| < FILE_HEADER { return TooSmall, visited; }
    if data[..4] != SIGNATURE { return BadSignature, visited; }
    var fileSize, moduleCount := Read32(data, 4), Read32(data, 8);
    if fileSize != |data| - FILE_HEADER { return SizeMismatch, visited; }

    var offset := FILE_HEADER;
    ghost var modules: seq<Module> := [];
    for index := 0 to moduleCount
      invariant ReadModules(data, index, limits, visitor) == ModulesRead(Ok, modules, visited, offset)
    {
      ghost var read := ReadModule(data, offset, limits, visitor, |visited|);
      Stays(data, index + 1, moduleCount, limits, visitor);
      var next, more;
      status, next, more := WalkModule(data, offset, limits, visitor, |visited|);
      visited := visited + more;
      if status != Ok { return; }
      modules := modules + [read.mod];
      offset := next;
    }
    status := if offset == |data| then Ok else SizeMismatch;
  }

  /** A failure ends the loop: later iterations would change nothing. */
  lemma {:induction false} Stays(data: seq<byte>, i: nat, n: nat, limits: Limits, visitor: Visitor)
    requires i <= n
    ensures ReadModules(data, i, limits, visitor).status != Ok ==>
      ReadModules(data, n, limits, visitor) == ReadModules(data, i, limits, visitor)
    decreases n
  {
    if i < n { Stays(data, i, n - 1, limits, visitor); }
  }

  method WalkModule(data: seq<byte>, offset: nat, limits: Limits, visitor: Visitor, before: nat)
    returns (status: Status, next: nat, visited: seq<Block>)
    ensures var r := ReadModule(data, offset, limits, visitor, before);
      status == r.status && visited == r.visited && (status == Ok ==> next == r.offset)
  {
    visited, next := [], offset;
    if !CheckedRange(offset, MODULE_HEADER, |data|) { return Truncated, next, visited; }
    var size, count := Read32(data, offset + 4), Read32(data, offset + 8);
    if !CheckedRange(offset + MODULE_HEADER, size, |data|) { return Truncated, next, visited; }
    var end := offset + MODULE_HEADER + size;
    var r := WalkBlocks(data, offset + MODULE_HEADER, end, count, limits, visitor, before);
    visited := r.visited;
    if r.status != Ok { return r.status, next, visited; }
    if r.offset != end { return SizeMismatch, next, visited; }
    return Ok, end, visited;
  }

  /** The inner loop; it stops at the first failure. */
  method WalkBlocks(data: seq<byte>, start: nat, end: nat, count: nat, limits: Limits, visitor: Visitor, before: nat)
    returns (r: BlocksRead)
    requires end <= |data|
    ensures r == ReadBlocks(data, start, end, count, limits, visitor, before)
  {
    r := BlocksRead(Ok, [], [], start);
    var index := 0;
    while index < count && r.status == Ok
      invariant index <= count && r == ReadBlocks(data, start, end, index, limits, visitor, before)
    {
      var read := CheckBlock(data, r.offset, end, limits);
      r := PassBlock(r, read, visitor, before);
      index := index + 1;
      hide NextBlock;
    }
    BlocksStay(data, start, end, index, count, limits, visitor, before);
    hide ReadBlocks;
  }

  /** What the loop body does with a block once its header is checked. */
  method PassBlock(r: BlocksRead, read: BlockRead, visitor: Visitor, before: nat) returns (next: BlocksRead)
    ensures next == Passed(r, read, visitor, before)
  {
    if read.status != Ok { return r.(status := read.status); }
    var block := read.block;
    var visited, status := r.visited, Ok;
    if block.kind != CUSTOM {
      status := visitor(before + |visited|);
      visited := visited + [block];
    }
    return BlocksRead(status, r.blocks + [block], visited, r.offset + BLOCK_HEADER + |block.data|);
  }

  method CheckBlock(data: seq<byte>, at: nat, end: nat, limits: Limits) returns (read: BlockRead)
    requires end <= |data|
    ensures read == ReadBlock(data, at, end, limits)
  {
    if !CheckedRange(at, BLOCK_HEADER, end) { return BlockRead(Truncated, NO_BLOCK); }
    var kind, size, destination := Read32(data, at), Read32(data, at + 4), Read32(data, at + 8);
    if size == 0 { return BlockRead(BadBlockSize, NO_BLOCK); }
    if !KnownKind(kind) { return BlockRead(BadBlockType, NO_BLOCK); }
    var payload := at + BLOCK_HEADER;
    if !CheckedRange(payload, size, end) { return BlockRead(Truncated, NO_BLOCK); }
    if kind != CUSTOM && !CheckedRange(destination, size, MemorySize(kind, limits)) {
      return BlockRead(DestinationRange, NO_BLOCK);
    }
    if kind != CUSTOM && destination % 4 != 0 { return BlockRead(UnalignedDestination, NO_BLOCK); }
    return BlockRead(Ok, Block(kind, destination, data[at + 12..payload], data[payload..payload + size]));
  }

  lemma {:induction false} BlocksStay(data: seq<byte>, start: nat, end: nat, i: nat, n: nat, limits: Limits,
                                      visitor: Visitor, before: nat)
    requires end <= |data| && i <= n
    ensures var r := ReadBlocks(data, start, end, i, limits, visitor, before);
      r.status != Ok ==> ReadBlocks(data, start, end, n, limits, visitor, before) == r
    decreases n
  {
    if i < n { BlocksStay(data, start, end, i, n - 1, limits, visitor, before); }
  }
}
