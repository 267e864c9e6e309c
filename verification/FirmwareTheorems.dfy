/** ParseFirmware accepts exactly the serialized images, and what it visits. */
module FirmwareTheorems {
  import opened FirmwareFormat
  import opened Firmware

  // ---- headers ------------------------------------------------------------------------------

  /** Four consecutive fields. */
  lemma AtFields(data: seq<byte>, offset: nat, a: seq<byte>, b: seq<byte>, c: seq<byte>, d: seq<byte>)
    ensures At(data, offset, a + b + c + d)
      <==> && At(data, offset, a) && At(data, offset + |a|, b)
           && At(data, offset + |a| + |b|, c) && At(data, offset + |a| + |b| + |c|, d)
  {
    hide At;
    AtConcat(data, offset, a, b);
    AtConcat(data, offset, a + b, c);
    AtConcat(data, offset, a + b + c, d);
  }

  lemma AtFiller(data: seq<byte>, i: nat, filler: seq<byte>)
    requires i + |filler| <= |data|
    ensures At(data, i, filler) <==> data[i..i + |filler|] == filler
  {
  }

  lemma AtBlockHeader(data: seq<byte>, at: nat, kind: nat, size: nat, destination: nat, filler: seq<byte>)
    requires kind < WORD && size < WORD && destination < WORD && |filler| == 4 && at + 16 <= |data|
    ensures At(data, at, BlockHeader(kind, size, destination, filler))
      <==> && Read32(data, at) == kind && Read32(data, at + 4) == size && Read32(data, at + 8) == destination
           && data[at + 12..at + 16] == filler
  {
    hide At, Write32, Read32;
    AtFields(data, at, Write32(kind), Write32(size), Write32(destination), filler);
    AtWord(data, at, kind);
    AtWord(data, at + 4, size);
    AtWord(data, at + 8, destination);
    AtFiller(data, at + 12, filler);
  }

  lemma AtModuleHeader(data: seq<byte>, at: nat, tag: seq<byte>, size: nat, count: nat, filler: seq<byte>)
    requires |tag| == 4 && size < WORD && count < WORD && |filler| == 8 && at + 20 <= |data|
    ensures At(data, at, ModuleHeader(tag, size, count, filler))
      <==> && data[at..at + 4] == tag && Read32(data, at + 4) == size && Read32(data, at + 8) == count
           && data[at + 12..at + 20] == filler
  {
    hide At, Write32, Read32;
    AtFields(data, at, tag, Write32(size), Write32(count), filler);
    AtFiller(data, at, tag);
    AtWord(data, at + 4, size);
    AtWord(data, at + 8, count);
    AtFiller(data, at + 12, filler);
  }

  lemma AtFileHeader(data: seq<byte>, size: nat, count: nat, filler: seq<byte>)
    requires size < WORD && count < WORD && |filler| == 20 && 32 <= |data|
    ensures At(data, 0, FileHeader(size, count, filler))
      <==> && data[..4] == SIGNATURE && Read32(data, 4) == size && Read32(data, 8) == count
           && data[12..32] == filler
  {
    hide At, Write32, Read32;
    AtFields(data, 0, SIGNATURE, Write32(size), Write32(count), filler);
    AtFiller(data, 0, SIGNATURE);
    assert data[0..4] == data[..4];
    AtWord(data, 4, size);
    AtWord(data, 8, count);
    AtFiller(data, 12, filler);
  }

  // ---- blocks --------------------------------------------------------------------------------

  /** A block is read where, and only where, a valid one stands. */
  lemma BlockIsThere(data: seq<byte>, offset: nat, end: nat, b: Block, limits: Limits)
    requires end <= |data|
    ensures ReadBlock(data, offset, end, limits) == BlockRead(Ok, b)
      <==> && ValidBlock(b, limits) && offset + 16 + |b.data| <= end
           && At(data, offset, BlockBytes(b, limits))
  {
    hide At, Write32, Read32, BlockHeader;
    if offset + 16 + |b.data| <= end {
      AtFiller(data, offset + 16, b.data);
      if ValidBlock(b, limits) {
        var header := BlockHeader(b.kind, |b.data|, b.destination, b.filler);
        AtConcat(data, offset, header, b.data);
        AtBlockHeader(data, offset, b.kind, |b.data|, b.destination, b.filler);
      }
    }
  }

  predicate AllValid(blocks: seq<Block>, limits: Limits) {
    forall i :: 0 <= i < |blocks| ==> ValidBlock(blocks[i], limits)
  }

  lemma Snoc(blocks: seq<Block>, b: Block, limits: Limits)
    requires AllValid(blocks, limits) && ValidBlock(b, limits)
    ensures AllValid(blocks + [b], limits)
    ensures BlocksBytes(blocks + [b], limits) == BlocksBytes(blocks, limits) + BlockBytes(b, limits)
    ensures ForMemory(blocks + [b]) == ForMemory(blocks) + if b.kind != CUSTOM then [b] else []
  {
    hide BlockBytes, ValidBlock;
    assert (blocks + [b])[..|blocks|] == blocks;
  }

  /** The bytes from `start` to the offset reached are those of the blocks, and those that go to a
      memory have been visited. */
  predicate Recognised(data: seq<byte>, start: nat, end: nat, r: BlocksRead, limits: Limits) {
    && AllValid(r.blocks, limits) && r.offset <= end
    && At(data, start, BlocksBytes(r.blocks, limits)) && r.offset == start + |BlocksBytes(r.blocks, limits)|
    && r.visited == ForMemory(r.blocks)
  }

  lemma NextRecognised(data: seq<byte>, start: nat, end: nat, r: BlocksRead, limits: Limits, visitor: Visitor, before: nat)
    requires end <= |data| && Recognised(data, start, end, r, limits)
    ensures var next := NextBlock(data, r, end, limits, visitor, before);
      && Recognised(data, start, end, next, limits)
      && |r.blocks| <= |next.blocks| <= |r.blocks| + 1 && (next.status == Ok ==> |next.blocks| == |r.blocks| + 1)
  {
    hide At, ReadBlock, BlockBytes, BlocksBytes, ForMemory, ValidBlock;
    var read := ReadBlock(data, r.offset, end, limits);
    if read.status == Ok {
      BlockIsThere(data, r.offset, end, read.block, limits);
      Snoc(r.blocks, read.block, limits);
      AtConcat(data, start, BlocksBytes(r.blocks, limits), BlockBytes(read.block, limits));
    }
  }

  lemma NoBlocks(data: seq<byte>, start: nat, end: nat, limits: Limits)
    requires start <= end <= |data|
    ensures Recognised(data, start, end, BlocksRead(Ok, [], [], start), limits)
  {
  }

  /** Whether or not a failure has ended it, the inner loop has passed exactly the bytes of the blocks
      it recognised. */
  lemma {:induction false} BlocksSound(data: seq<byte>, start: nat, end: nat, n: nat, limits: Limits,
                                       visitor: Visitor, before: nat)
    requires start <= end <= |data|
    ensures var r := ReadBlocks(data, start, end, n, limits, visitor, before);
      && Recognised(data, start, end, r, limits)
      && |r.blocks| <= n && (r.status == Ok ==> |r.blocks| == n)
  {
    hide ReadBlock, Recognised, NextBlock;
    if n == 0 {
      NoBlocks(data, start, end, limits);
      return;
    }
    BlocksSound(data, start, end, n - 1, limits, visitor, before);
    NextRecognised(data, start, end, ReadBlocks(data, start, end, n - 1, limits, visitor, before), limits, visitor, before);
  }

  ghost predicate Accepting(visitor: Visitor) { forall n: nat :: visitor(n) == Ok }

  /** What the loop returns after recognising `blocks`. */
  function AllRead(blocks: seq<Block>, start: nat, limits: Limits): BlocksRead
    requires AllValid(blocks, limits)
  {
    BlocksRead(Ok, blocks, ForMemory(blocks), start + |BlocksBytes(blocks, limits)|)
  }

  lemma NextComplete(data: seq<byte>, end: nat, init: seq<Block>, b: Block, start: nat, limits: Limits,
                     visitor: Visitor, before: nat)
    requires Accepting(visitor) && AllValid(init, limits) && ValidBlock(b, limits)
    requires AllRead(init, start, limits).offset + 16 + |b.data| <= end <= |data|
    requires At(data, AllRead(init, start, limits).offset, BlockBytes(b, limits))
    ensures AllValid(init + [b], limits)
    ensures NextBlock(data, AllRead(init, start, limits), end, limits, visitor, before)
      == AllRead(init + [b], start, limits)
  {
    hide At, ReadBlock, BlockBytes, BlocksBytes, ForMemory, ValidBlock;
    Snoc(init, b, limits);
    BlockIsThere(data, AllRead(init, start, limits).offset, end, b, limits);
  }

  lemma NothingRead(start: nat, limits: Limits)
    ensures AllRead([], start, limits) == BlocksRead(Ok, [], [], start)
  {
  }

  /** The loop recognises serialized blocks one by one. */
  lemma {:induction false} BlocksComplete(data: seq<byte>, start: nat, end: nat, blocks: seq<Block>,
                                          limits: Limits, visitor: Visitor, before: nat)
    requires Accepting(visitor) && AllValid(blocks, limits)
    requires At(data, start, BlocksBytes(blocks, limits))
    requires start + |BlocksBytes(blocks, limits)| <= end <= |data|
    ensures ReadBlocks(data, start, end, |blocks|, limits, visitor, before) == AllRead(blocks, start, limits)
  {
    hide At, NextBlock, BlockBytes, BlocksBytes, ForMemory, ValidBlock, Accepting;
    if blocks == [] {
      NothingRead(start, limits);
      return;
    }
    var n := |blocks| - 1;
    var init, b := blocks[..n], blocks[n];
    assert blocks == init + [b];
    Snoc(init, b, limits);
    AtConcat(data, start, BlocksBytes(init, limits), BlockBytes(b, limits));
    BlocksComplete(data, start, end, init, limits, visitor, before);
    NextComplete(data, end, init, b, start, limits, visitor, before);
  }

  // ---- modules ---------------------------------------------------------------------------------

  /** A module that is read has a header, and its blocks fill the rest exactly. */
  lemma ModuleParts(data: seq<byte>, offset: nat, limits: Limits, visitor: Visitor, before: nat)
    requires offset + 20 <= |data|
    ensures var m := ReadModule(data, offset, limits, visitor, before);
      var count, end := Read32(data, offset + 8), offset + 20 + Read32(data, offset + 4);
      if end > |data| then m.status != Ok
      else
        var r := ReadBlocks(data, offset + 20, end, count, limits, visitor, before);
        && (m.status == Ok <==> r.status == Ok && r.offset == end)
        && (m.status == Ok ==>
              m == ModuleRead(Ok, Module(data[offset..offset + 4], data[offset + 12..offset + 20], r.blocks),
                              r.visited, end))
  {
    hide Read32, ReadBlocks;
  }

  lemma ModuleSound(data: seq<byte>, offset: nat, limits: Limits, visitor: Visitor, before: nat)
    requires offset + 20 <= |data| && ReadModule(data, offset, limits, visitor, before).status == Ok
    ensures var r := ReadModule(data, offset, limits, visitor, before);
      && ValidModule(r.mod, limits) && At(data, offset, ModuleBytes(r.mod, limits))
      && r.offset == offset + |ModuleBytes(r.mod, limits)| <= |data|
      && r.visited == ForMemory(r.mod.blocks)
  {
    hide At, ReadModule, ReadBlocks, ModuleHeader, Read32, BlocksBytes, ForMemory, ValidBlock;
    ModuleParts(data, offset, limits, visitor, before);
    var size, count := Read32(data, offset + 4), Read32(data, offset + 8);
    var start, end := offset + 20, offset + 20 + size;
    BlocksSound(data, start, end, count, limits, visitor, before);
    var r := ReadBlocks(data, start, end, count, limits, visitor, before);
    var tag, filler := data[offset..offset + 4], data[offset + 12..offset + 20];
    AtModuleHeader(data, offset, tag, size, count, filler);
    AtConcat(data, offset, ModuleHeader(tag, size, count, filler), BlocksBytes(r.blocks, limits));
  }

  lemma ModuleComplete(data: seq<byte>, offset: nat, m: Module, limits: Limits, visitor: Visitor, before: nat)
    requires Accepting(visitor) && ValidModule(m, limits)
    requires offset + |ModuleBytes(m, limits)| <= |data| && At(data, offset, ModuleBytes(m, limits))
    ensures ReadModule(data, offset, limits, visitor, before)
      == ModuleRead(Ok, m, ForMemory(m.blocks), offset + |ModuleBytes(m, limits)|)
  {
    hide At, ReadModule, ReadBlocks, ModuleHeader, Read32, BlocksBytes, ForMemory, ValidBlock, Accepting;
    var payload := BlocksBytes(m.blocks, limits);
    AtConcat(data, offset, ModuleHeader(m.tag, |payload|, |m.blocks|, m.filler), payload);
    AtModuleHeader(data, offset, m.tag, |payload|, |m.blocks|, m.filler);
    BlocksComplete(data, offset + 20, offset + 20 + |payload|, m.blocks, limits, visitor, before);
    ModuleParts(data, offset, limits, visitor, before);
  }

  predicate AllModulesValid(modules: seq<Module>, limits: Limits) {
    forall i :: 0 <= i < |modules| ==> ValidModule(modules[i], limits)
  }

  lemma SnocModule(modules: seq<Module>, m: Module, limits: Limits)
    requires AllModulesValid(modules, limits) && ValidModule(m, limits)
    ensures AllModulesValid(modules + [m], limits)
    ensures ModulesBytes(modules + [m], limits) == ModulesBytes(modules, limits) + ModuleBytes(m, limits)
    ensures ForMemoryOfAll(modules + [m]) == ForMemoryOfAll(modules) + ForMemory(m.blocks)
  {
    hide ModuleBytes, ForMemory, ValidModule;
    assert (modules + [m])[..|modules|] == modules;
  }

  /** The outer loop has passed exactly the bytes of the modules it recognised. */
  predicate ModulesRecognised(data: seq<byte>, r: ModulesRead, limits: Limits) {
    && AllModulesValid(r.modules, limits) && r.offset <= |data|
    && At(data, FILE_HEADER, ModulesBytes(r.modules, limits))
    && r.offset == FILE_HEADER + |ModulesBytes(r.modules, limits)|
    && (r.status == Ok ==> r.visited == ForMemoryOfAll(r.modules))
  }

  lemma NextModuleSound(data: seq<byte>, r: ModulesRead, limits: Limits, visitor: Visitor)
    requires r.status == Ok && ModulesRecognised(data, r, limits)
    ensures var next := NextModule(data, r, limits, visitor);
      ModulesRecognised(data, next, limits) && (next.status == Ok ==> |next.modules| == |r.modules| + 1)
  {
    hide At, ModuleBytes, ModulesBytes, ForMemory, ForMemoryOfAll, ValidModule;
    var read := ReadModule(data, r.offset, limits, visitor, |r.visited|);
    if read.status == Ok {
      assert r.offset + 20 <= |data|;
      ModuleSound(data, r.offset, limits, visitor, |r.visited|);
      SnocModule(r.modules, read.mod, limits);
      AtConcat(data, FILE_HEADER, ModulesBytes(r.modules, limits), ModuleBytes(read.mod, limits));
    }
  }

  lemma NoModules(data: seq<byte>, limits: Limits)
    requires FILE_HEADER <= |data|
    ensures ModulesRecognised(data, ModulesRead(Ok, [], [], FILE_HEADER), limits)
  {
  }

  lemma {:induction false} ModulesSound(data: seq<byte>, n: nat, limits: Limits, visitor: Visitor)
    requires FILE_HEADER <= |data|
    ensures var r := ReadModules(data, n, limits, visitor);
      ModulesRecognised(data, r, limits) && (r.status == Ok ==> |r.modules| == n)
  {
    hide ModulesRecognised, NextModule;
    if n == 0 {
      NoModules(data, limits);
      return;
    }
    ModulesSound(data, n - 1, limits, visitor);
    var r := ReadModules(data, n - 1, limits, visitor);
    if r.status == Ok { NextModuleSound(data, r, limits, visitor); }
  }

  function AllModulesRead(modules: seq<Module>, limits: Limits): ModulesRead
    requires AllModulesValid(modules, limits)
  {
    ModulesRead(Ok, modules, ForMemoryOfAll(modules), FILE_HEADER + |ModulesBytes(modules, limits)|)
  }

  lemma {:induction false} ModulesComplete(data: seq<byte>, modules: seq<Module>, limits: Limits, visitor: Visitor)
    requires Accepting(visitor) && AllModulesValid(modules, limits)
    requires FILE_HEADER + |ModulesBytes(modules, limits)| <= |data|
    requires At(data, FILE_HEADER, ModulesBytes(modules, limits))
    ensures ReadModules(data, |modules|, limits, visitor) == AllModulesRead(modules, limits)
  {
    if modules == [] { return; }
    hide At, ReadModule, ModuleBytes, ModulesBytes, ForMemory, ForMemoryOfAll, ValidModule;
    var n := |modules| - 1;
    var init, m := modules[..n], modules[n];
    assert modules == init + [m];
    SnocModule(init, m, limits);
    AtConcat(data, FILE_HEADER, ModulesBytes(init, limits), ModuleBytes(m, limits));
    ModulesComplete(data, init, limits, visitor);
    var r := AllModulesRead(init, limits);
    ModuleComplete(data, r.offset, m, limits, visitor, |r.visited|);
  }

  // ---- the image -------------------------------------------------------------------------------

  lemma AtWhole(data: seq<byte>, bytes: seq<byte>)
    ensures data == bytes <==> At(data, 0, bytes) && |data| == |bytes|
  {
    assert data[0..|data|] == data;
  }

  /** An accepted image is the serialization of what was recognised, and exactly its blocks for a
      memory were visited, in file order. */
  lemma AcceptedIsSerialized(data: seq<byte>, limits: Limits, visitor: Visitor)
    requires ParseImage(Some(data), limits, visitor).status == Ok
    ensures var r := ParseImage(Some(data), limits, visitor);
      && ValidImage(r.image, limits) && ImageBytes(r.image, limits) == data
      && r.visited == ForMemoryOfAll(r.image.modules)
  {
    hide At, ReadModules, Read32, FileHeader, ModulesBytes, ForMemoryOfAll, ValidModule;
    var size, count, filler := Read32(data, 4), Read32(data, 8), data[12..32];
    ModulesSound(data, count, limits, visitor);
    var payload := ModulesBytes(ReadModules(data, count, limits, visitor).modules, limits);
    AtFileHeader(data, size, count, filler);
    AtConcat(data, 0, FileHeader(size, count, filler), payload);
    AtWhole(data, FileHeader(size, count, filler) + payload);
  }

  /** Parsing a serialized image gives back the image, whatever it is. */
  lemma SerializedIsAccepted(image: Image, limits: Limits, visitor: Visitor)
    requires Accepting(visitor) && ValidImage(image, limits)
    ensures ParseImage(Some(ImageBytes(image, limits)), limits, visitor)
      == Parse(Ok, image, ForMemoryOfAll(image.modules))
  {
    hide At, ReadModules, Read32, FileHeader, ModulesBytes, ForMemoryOfAll, ValidModule;
    var data, payload := ImageBytes(image, limits), ModulesBytes(image.modules, limits);
    AtWhole(data, data);
    AtConcat(data, 0, FileHeader(|payload|, |image.modules|, image.filler), payload);
    AtFileHeader(data, |payload|, |image.modules|, image.filler);
    ModulesComplete(data, image.modules, limits, visitor);
  }

  /** With a visitor that refuses nothing, an image is accepted if and only if it is the serialization
      of some list of modules within the limits. */
  lemma AcceptsExactlySerializations(data: seq<byte>, limits: Limits, visitor: Visitor)
    requires Accepting(visitor)
    ensures ParseImage(Some(data), limits, visitor).status == Ok
      <==> exists image :: ValidImage(image, limits) && ImageBytes(image, limits) == data
  {
    hide ParseImage, ImageBytes, ValidImage;
    if ParseImage(Some(data), limits, visitor).status == Ok {
      AcceptedIsSerialized(data, limits, visitor);
    }
    forall image | ValidImage(image, limits) && ImageBytes(image, limits) == data
      ensures ParseImage(Some(data), limits, visitor).status == Ok
    {
      SerializedIsAccepted(image, limits, visitor);
    }
  }

  // ---- what is visited, accepted or not ------------------------------------------------------------

  /** A block that goes to a memory, stands whole in the image, lies in the range of its memory and is
      aligned there. */
  ghost predicate Real(data: seq<byte>, b: Block, limits: Limits) {
    && ValidBlock(b, limits) && b.kind != CUSTOM
    && exists at: nat :: At(data, at, BlockBytes(b, limits))
  }

  ghost predicate AllReal(data: seq<byte>, blocks: seq<Block>, limits: Limits) {
    forall i :: 0 <= i < |blocks| ==> Real(data, blocks[i], limits)
  }

  lemma {:induction false} BlocksReal(data: seq<byte>, start: nat, blocks: seq<Block>, limits: Limits)
    requires AllValid(blocks, limits) && At(data, start, BlocksBytes(blocks, limits))
    ensures AllReal(data, ForMemory(blocks), limits)
  {
    hide At, BlockBytes, BlocksBytes, ValidBlock;
    if blocks == [] { return; }
    var n := |blocks| - 1;
    var init, b := blocks[..n], blocks[n];
    assert blocks == init + [b];
    Snoc(init, b, limits);
    AtConcat(data, start, BlocksBytes(init, limits), BlockBytes(b, limits));
    BlocksReal(data, start, init, limits);
  }

  lemma ModuleReal(data: seq<byte>, offset: nat, limits: Limits, visitor: Visitor, before: nat)
    ensures AllReal(data, ReadModule(data, offset, limits, visitor, before).visited, limits)
  {
    hide At, ReadBlocks, Read32, BlocksBytes, ForMemory, Real;
    if CheckedRange(offset, MODULE_HEADER, |data|) {
      var size, count := Read32(data, offset + 4), Read32(data, offset + 8);
      if CheckedRange(offset + MODULE_HEADER, size, |data|) {
        var start, end := offset + 20, offset + 20 + size;
        BlocksSound(data, start, end, count, limits, visitor, before);
        BlocksReal(data, start, ReadBlocks(data, start, end, count, limits, visitor, before).blocks, limits);
      }
    }
  }

  lemma {:induction false} ModulesReal(data: seq<byte>, n: nat, limits: Limits, visitor: Visitor)
    ensures AllReal(data, ReadModules(data, n, limits, visitor).visited, limits)
  {
    hide ReadModule, Real;
    if n > 0 {
      ModulesReal(data, n - 1, limits, visitor);
      var r := ReadModules(data, n - 1, limits, visitor);
      ModuleReal(data, r.offset, limits, visitor, |r.visited|);
    }
  }

  /** Whatever the image and the visitor, every block visited is a real one. */
  lemma VisitedAreReal(source: Option<seq<byte>>, limits: Limits, visitor: Visitor)
    requires source.Some?
    ensures AllReal(source.value, ParseImage(source, limits, visitor).visited, limits)
  {
    hide ReadModules, Real;
    if |source.value| >= FILE_HEADER { ModulesReal(source.value, Read32(source.value, 8), limits, visitor); }
  }

  /** Whole modules stand behind the file header, and the blocks of the one the parse stopped in behind
      its module header; the visited blocks are theirs, in this order and each once. */
  ghost predicate InFileOrder(data: seq<byte>, visited: seq<Block>, modules: seq<Module>, partial: seq<Block>,
                              limits: Limits)
  {
    && AllModulesValid(modules, limits) && AllValid(partial, limits)
    && (modules != [] ==> At(data, FILE_HEADER, ModulesBytes(modules, limits)))
    && (partial != [] ==>
          At(data, FILE_HEADER + |ModulesBytes(modules, limits)| + MODULE_HEADER, BlocksBytes(partial, limits)))
    && visited == ForMemoryOfAll(modules) + ForMemory(partial)
  }

  /** The blocks of a module that ends the parse, up to the failure. */
  lemma FailedModule(data: seq<byte>, offset: nat, limits: Limits, visitor: Visitor, before: nat)
    returns (partial: seq<Block>)
    ensures AllValid(partial, limits)
    ensures ReadModule(data, offset, limits, visitor, before).visited == ForMemory(partial)
    ensures partial != [] ==> At(data, offset + MODULE_HEADER, BlocksBytes(partial, limits))
  {
    hide At, ReadBlocks, Read32, BlocksBytes, ValidBlock;
    partial := [];
    if CheckedRange(offset, MODULE_HEADER, |data|) {
      var size, count := Read32(data, offset + 4), Read32(data, offset + 8);
      if CheckedRange(offset + MODULE_HEADER, size, |data|) {
        var start, end := offset + MODULE_HEADER, offset + MODULE_HEADER + size;
        BlocksSound(data, start, end, count, limits, visitor, before);
        partial := ReadBlocks(data, start, end, count, limits, visitor, before).blocks;
      }
    }
  }

  lemma {:induction false} ModulesInFileOrder(data: seq<byte>, n: nat, limits: Limits, visitor: Visitor)
    returns (partial: seq<Block>)
    requires FILE_HEADER <= |data|
    ensures var r := ReadModules(data, n, limits, visitor);
      InFileOrder(data, r.visited, r.modules, partial, limits) && (r.status == Ok ==> partial == [])
  {
    hide At, ReadModule, ModuleBytes, ModulesBytes, BlocksBytes, ForMemoryOfAll, ValidModule;
    ModulesSound(data, n, limits, visitor);
    partial := [];
    if ReadModules(data, n, limits, visitor).status != Ok {
      var r := ReadModules(data, n - 1, limits, visitor);
      if r.status != Ok {
        partial := ModulesInFileOrder(data, n - 1, limits, visitor);
      } else {
        ModulesSound(data, n - 1, limits, visitor);
        partial := FailedModule(data, r.offset, limits, visitor, |r.visited|);
      }
    }
  }

  /** Whatever the image and the visitor, and whether the image is accepted, refused or malformed, the
      visitor is shown the blocks for a memory from the front of the file, in file order, without a
      gap and each once: those of some whole modules that follow the file header, and of the first
      blocks of the next module. */
  lemma VisitedInFileOrder(data: seq<byte>, limits: Limits, visitor: Visitor)
    returns (modules: seq<Module>, partial: seq<Block>)
    ensures var r := ParseImage(Some(data), limits, visitor);
      && InFileOrder(data, r.visited, modules, partial, limits)
      && (r.status == Ok ==> modules == r.image.modules && partial == [])
  {
    hide At, ReadModules, Read32, ModulesBytes, BlocksBytes, ValidModule, ValidBlock;
    modules, partial := [], [];
    if |data| >= FILE_HEADER && data[..4] == SIGNATURE && Read32(data, 4) == |data| - FILE_HEADER {
      var count := Read32(data, 8);
      modules := ReadModules(data, count, limits, visitor).modules;
      partial := ModulesInFileOrder(data, count, limits, visitor);
    }
  }

  /** The parse ended with the visitor's answer to the last block it was shown, after blocks that any
      visitor is shown. */
  predicate StoppedBy(visitor: Visitor, before: nat, status: Status, visited: seq<Block>, all: seq<Block>) {
    visited != [] && visited <= all && status != Ok && status == visitor(before + |visited| - 1)
  }

  /** A visitor that refuses stops the parse; until then it has seen what any visitor sees. */
  lemma {:induction false} BlocksPrefix(data: seq<byte>, start: nat, end: nat, n: nat, limits: Limits,
                                        visitor: Visitor, accepting: Visitor, before: nat)
    requires end <= |data| && Accepting(accepting)
    ensures var r, all := ReadBlocks(data, start, end, n, limits, visitor, before),
                          ReadBlocks(data, start, end, n, limits, accepting, before);
      r == all || StoppedBy(visitor, before, r.status, r.visited, all.visited)
  {
    hide NextBlock, Accepting;
    if n > 0 {
      BlocksPrefix(data, start, end, n - 1, limits, visitor, accepting, before);
      var all := ReadBlocks(data, start, end, n - 1, limits, accepting, before);
      var r := ReadBlocks(data, start, end, n - 1, limits, visitor, before);
      NextPrefix(data, end, all, limits, visitor, accepting, before);
      if r != all && all.status == Ok { StoppedEarlier(data, end, r, all, limits, visitor, accepting, before); }
    }
  }

  lemma NextPrefix(data: seq<byte>, end: nat, r: BlocksRead, limits: Limits, visitor: Visitor, accepting: Visitor,
                   before: nat)
    requires end <= |data| && Accepting(accepting)
    ensures var next, all := NextBlock(data, r, end, limits, visitor, before),
                             NextBlock(data, r, end, limits, accepting, before);
      next == all || StoppedBy(visitor, before, next.status, next.visited, all.visited)
  {
    hide ReadBlock;
  }

  lemma StoppedEarlier(data: seq<byte>, end: nat, r: BlocksRead, all: BlocksRead, limits: Limits, visitor: Visitor,
                       accepting: Visitor, before: nat)
    requires end <= |data| && StoppedBy(visitor, before, r.status, r.visited, all.visited)
    ensures StoppedBy(visitor, before, r.status, r.visited,
                      NextBlock(data, all, end, limits, accepting, before).visited)
  {
    hide ReadBlock;
  }

  lemma ModulePrefix(data: seq<byte>, offset: nat, limits: Limits, visitor: Visitor, accepting: Visitor, before: nat)
    requires Accepting(accepting)
    ensures var r, all := ReadModule(data, offset, limits, visitor, before),
                          ReadModule(data, offset, limits, accepting, before);
      r == all || StoppedBy(visitor, before, r.status, r.visited, all.visited)
  {
    hide ReadBlocks, Read32;
    if CheckedRange(offset, MODULE_HEADER, |data|) {
      var size, count := Read32(data, offset + 4), Read32(data, offset + 8);
      if CheckedRange(offset + MODULE_HEADER, size, |data|) {
        BlocksPrefix(data, offset + 20, offset + 20 + size, count, limits, visitor, accepting, before);
      }
    }
  }

  lemma {:induction false} ModulesPrefix(data: seq<byte>, n: nat, limits: Limits, visitor: Visitor, accepting: Visitor)
    requires Accepting(accepting)
    ensures var r, all := ReadModules(data, n, limits, visitor), ReadModules(data, n, limits, accepting);
      r == all || StoppedBy(visitor, 0, r.status, r.visited, all.visited)
  {
    hide ReadModule, Accepting;
    if n > 0 {
      ModulesPrefix(data, n - 1, limits, visitor, accepting);
      var all := ReadModules(data, n - 1, limits, accepting);
      ModulePrefix(data, all.offset, limits, visitor, accepting, |all.visited|);
    }
  }

  /** A visitor that may refuse is shown what an accepting one is shown, with the same outcome, unless
      it refuses: then the parse ends with its answer to the last block of a prefix. */
  lemma VisitedIsAPrefix(source: Option<seq<byte>>, limits: Limits, visitor: Visitor, accepting: Visitor)
    requires Accepting(accepting)
    ensures var r, all := ParseImage(source, limits, visitor), ParseImage(source, limits, accepting);
      r == all || StoppedBy(visitor, 0, r.status, r.visited, all.visited)
  {
    hide ReadModules, Accepting;
    if source.Some? && |source.value| >= FILE_HEADER {
      ModulesPrefix(source.value, Read32(source.value, 8), limits, visitor, accepting);
    }
  }

  // ---- why an image is refused --------------------------------------------------------------------

  /** The defect that `status` stands for is what is wrong at `at`, in the order in which defects take
      precedence. */
  predicate BlockDefect(data: seq<byte>, at: nat, end: nat, limits: Limits, status: Status)
    requires end <= |data|
  {
    if at + BLOCK_HEADER > end then status == Truncated
    else
      var kind, size, destination := Read32(data, at), Read32(data, at + 4), Read32(data, at + 8);
      match status
      case BadBlockSize => size == 0
      case BadBlockType => size > 0 && kind !in {IRAM, DRAM, DDR, CUSTOM}
      case Truncated => size > 0 && KnownKind(kind) && at + BLOCK_HEADER + size > end
      case DestinationRange =>
        && size > 0 && KnownKind(kind) && at + BLOCK_HEADER + size <= end
        && kind != CUSTOM && destination + size > MemorySize(kind, limits)
      case UnalignedDestination =>
        && size > 0 && KnownKind(kind) && at + BLOCK_HEADER + size <= end
        && kind != CUSTOM && destination + size <= MemorySize(kind, limits) && destination % 4 != 0
      case _ => false
  }

  /** What is wrong with the module at `at`, of which the first `partial` blocks are right. */
  predicate ModuleDefect(data: seq<byte>, at: nat, partial: seq<Block>, limits: Limits, status: Status)
    requires AllValid(partial, limits)
  {
    if at + MODULE_HEADER > |data| || at + MODULE_HEADER + Read32(data, at + 4) > |data| then
      status == Truncated && partial == []
    else
      var end, count := at + MODULE_HEADER + Read32(data, at + 4), Read32(data, at + 8);
      var next := at + MODULE_HEADER + |BlocksBytes(partial, limits)|;
      && |partial| <= count && next <= end
      && if |partial| == count then status == SizeMismatch && next < end
         else BlockDefect(data, next, end, limits, status)
  }

  lemma BlockRefusal(data: seq<byte>, at: nat, end: nat, limits: Limits)
    requires end <= |data| && ReadBlock(data, at, end, limits).status != Ok
    ensures BlockDefect(data, at, end, limits, ReadBlock(data, at, end, limits).status)
  {
    hide Read32;
  }

  lemma {:induction false} BlocksStopAtDefect(data: seq<byte>, start: nat, end: nat, n: nat, limits: Limits,
                                              visitor: Visitor, before: nat)
    requires start <= end <= |data| && Accepting(visitor)
    ensures var r := ReadBlocks(data, start, end, n, limits, visitor, before);
      r.status != Ok ==> |r.blocks| < n && BlockDefect(data, r.offset, end, limits, r.status)
  {
    hide ReadBlock, BlockDefect;
    if n > 0 {
      BlocksStopAtDefect(data, start, end, n - 1, limits, visitor, before);
      var r := ReadBlocks(data, start, end, n - 1, limits, visitor, before);
      BlocksSound(data, start, end, n - 1, limits, visitor, before);
      if r.status == Ok && ReadBlock(data, r.offset, end, limits).status != Ok {
        BlockRefusal(data, r.offset, end, limits);
      }
    }
  }

  /** The module that ends the parse, and what is wrong with it. */
  lemma FailedModuleDefect(data: seq<byte>, offset: nat, limits: Limits, visitor: Visitor, before: nat)
    returns (partial: seq<Block>)
    requires Accepting(visitor) && ReadModule(data, offset, limits, visitor, before).status != Ok
    ensures AllValid(partial, limits)
    ensures ReadModule(data, offset, limits, visitor, before).visited == ForMemory(partial)
    ensures partial != [] ==> At(data, offset + MODULE_HEADER, BlocksBytes(partial, limits))
    ensures ModuleDefect(data, offset, partial, limits, ReadModule(data, offset, limits, visitor, before).status)
  {
    hide At, ReadBlocks, Read32, BlocksBytes, ValidBlock, BlockDefect, Accepting;
    partial := [];
    if CheckedRange(offset, MODULE_HEADER, |data|) {
      var size, count := Read32(data, offset + 4), Read32(data, offset + 8);
      if CheckedRange(offset + MODULE_HEADER, size, |data|) {
        var start, end := offset + MODULE_HEADER, offset + MODULE_HEADER + size;
        BlocksSound(data, start, end, count, limits, visitor, before);
        BlocksStopAtDefect(data, start, end, count, limits, visitor, before);
        partial := ReadBlocks(data, start, end, count, limits, visitor, before).blocks;
      }
    }
  }

  lemma {:induction false} ModulesStopAtDefect(data: seq<byte>, n: nat, limits: Limits, visitor: Visitor)
    returns (partial: seq<Block>)
    requires FILE_HEADER <= |data| && Accepting(visitor)
    ensures var r := ReadModules(data, n, limits, visitor);
      && InFileOrder(data, r.visited, r.modules, partial, limits)
      && (r.status == Ok ==> partial == [] && |r.modules| == n)
      && (r.status != Ok ==>
            && |r.modules| < n
            && ModuleDefect(data, FILE_HEADER + |ModulesBytes(r.modules, limits)|, partial, limits, r.status))
  {
    hide At, ReadModule, ModuleBytes, ModulesBytes, BlocksBytes, ForMemoryOfAll, ValidModule, ModuleDefect, Accepting;
    ModulesSound(data, n, limits, visitor);
    partial := [];
    if ReadModules(data, n, limits, visitor).status != Ok {
      var r := ReadModules(data, n - 1, limits, visitor);
      if r.status != Ok {
        partial := ModulesStopAtDefect(data, n - 1, limits, visitor);
      } else {
        ModulesSound(data, n - 1, limits, visitor);
        partial := FailedModuleDefect(data, r.offset, limits, visitor, |r.visited|);
      }
    }
  }

  /** Why an image is refused, in terms of its bytes. Behind the checks of its file header, the status
      is that of the first defect: all modules and blocks before it stand as they should, and they are
      the ones that were visited. */
  lemma RefusalNamesTheFirstDefect(data: seq<byte>, limits: Limits, visitor: Visitor)
    returns (modules: seq<Module>, partial: seq<Block>)
    requires Accepting(visitor)
    ensures var r := ParseImage(Some(data), limits, visitor);
      && InFileOrder(data, r.visited, modules, partial, limits)
      && (r.status == TooSmall <==> |data| < FILE_HEADER)
      && (r.status == BadSignature <==> |data| >= FILE_HEADER && data[..4] != SIGNATURE)
      && (|data| >= FILE_HEADER && data[..4] == SIGNATURE && r.status != Ok ==>
            if Read32(data, 4) != |data| - FILE_HEADER then r.status == SizeMismatch
            else if |modules| == Read32(data, 8) then
              r.status == SizeMismatch && partial == [] && FILE_HEADER + |ModulesBytes(modules, limits)| < |data|
            else
              && |modules| < Read32(data, 8)
              && ModuleDefect(data, FILE_HEADER + |ModulesBytes(modules, limits)|, partial, limits, r.status))
  {
    hide At, ReadModules, Read32, ModulesBytes, BlocksBytes, ValidModule, ValidBlock, BlockDefect, Accepting;
    modules, partial := [], [];
    if |data| >= FILE_HEADER && data[..4] == SIGNATURE && Read32(data, 4) == |data| - FILE_HEADER {
      var count := Read32(data, 8);
      modules := ReadModules(data, count, limits, visitor).modules;
      partial := ModulesStopAtDefect(data, count, limits, visitor);
      ModulesSound(data, count, limits, visitor);
      if ReadModules(data, count, limits, visitor).status != Ok {
        OnlyHeaderStatuses(data, FILE_HEADER + |ModulesBytes(modules, limits)|, partial, limits,
                           ReadModules(data, count, limits, visitor).status);
      }
    }
  }

  lemma OnlyHeaderStatuses(data: seq<byte>, at: nat, partial: seq<Block>, limits: Limits, status: Status)
    requires AllValid(partial, limits) && ModuleDefect(data, at, partial, limits, status)
    ensures status != TooSmall && status != BadSignature && status != NullData
  {
    hide Read32, BlocksBytes, ValidBlock;
  }
}
