/** The `$SST` firmware image as a grammar: an image is a header and a list of modules, a module a
    header and a list of blocks (Firmware.cpp). Header bytes the parser does not look at are kept. */
module FirmwareFormat {

  type byte = b: int | 0 <= b < 256

  const FILE_HEADER: nat := 32
  const MODULE_HEADER: nat := 20
  const BLOCK_HEADER: nat := 16
  const WORD: nat := 0x1_0000_0000

  const IRAM: nat := 1
  const DRAM: nat := 2
  const DDR: nat := 5
  const CUSTOM: nat := 7

  datatype Limits = Limits(iram: nat, dram: nat, ddr: nat)

  datatype Block = Block(kind: nat, destination: nat, filler: seq<byte>, data: seq<byte>)
  datatype Module = Module(tag: seq<byte>, filler: seq<byte>, blocks: seq<Block>)
  datatype Image = Image(filler: seq<byte>, modules: seq<Module>)

  const SIGNATURE: seq<byte> := [0x24, 0x53, 0x53, 0x54]

  function Write32(v: nat): (r: seq<byte>)
    requires v < WORD
    ensures |r| == 4
  {
    [v % 256, v / 256 % 256, v / 65536 % 256, v / 16777216]
  }

  function Read32(data: seq<byte>, at: nat): (v: nat)
    requires at + 4 <= |data|
    ensures v < WORD
  {
    data[at] as int + data[at + 1] as int * 256 + data[at + 2] as int * 65536 + data[at + 3] as int * 16777216
  }

  /** The size of the memory a block goes to; a custom block has none. */
  function MemorySize(kind: nat, limits: Limits): nat {
    if kind == IRAM then limits.iram
    else if kind == DRAM then limits.dram
    else if kind == DDR then limits.ddr
    else 0
  }

  predicate KnownKind(kind: nat) { kind == IRAM || kind == DRAM || kind == DDR || kind == CUSTOM }

  predicate ValidBlock(b: Block, limits: Limits) {
    && KnownKind(b.kind) && b.destination < WORD && |b.filler| == 4 && 0 < |b.data| < WORD
    && (b.kind != CUSTOM ==>
          b.destination + |b.data| <= MemorySize(b.kind, limits) && b.destination % 4 == 0)
  }

  /** A block is custom, or lies aligned in the one memory that it names. */
  lemma ValidBlockMeans(b: Block, limits: Limits)
    ensures var end := b.destination + |b.data|;
      ValidBlock(b, limits) <==>
        && b.destination < WORD && |b.filler| == 4 && 0 < |b.data| < WORD
        && (|| b.kind == CUSTOM
            || (b.destination % 4 == 0
                && (|| (b.kind == IRAM && end <= limits.iram)
                    || (b.kind == DRAM && end <= limits.dram)
                    || (b.kind == DDR && end <= limits.ddr))))
  {
  }

  function BlockHeader(kind: nat, size: nat, destination: nat, filler: seq<byte>): (r: seq<byte>)
    requires kind < WORD && size < WORD && destination < WORD && |filler| == 4
    ensures |r| == BLOCK_HEADER
  {
    Write32(kind) + Write32(size) + Write32(destination) + filler
  }

  function BlockBytes(b: Block, limits: Limits): (r: seq<byte>)
    requires ValidBlock(b, limits)
    ensures |r| == BLOCK_HEADER + |b.data|
  {
    BlockHeader(b.kind, |b.data|, b.destination, b.filler) + b.data
  }

  function BlocksBytes(blocks: seq<Block>, limits: Limits): seq<byte>
    requires forall i :: 0 <= i < |blocks| ==> ValidBlock(blocks[i], limits)
  {
    if blocks == [] then []
    else BlocksBytes(blocks[..|blocks| - 1], limits) + BlockBytes(blocks[|blocks| - 1], limits)
  }

  predicate ValidModule(m: Module, limits: Limits) {
    && |m.tag| == 4 && |m.filler| == 8 && |m.blocks| < WORD
    && (forall i :: 0 <= i < |m.blocks| ==> ValidBlock(m.blocks[i], limits))
    && |BlocksBytes(m.blocks, limits)| < WORD
  }

  function ModuleHeader(tag: seq<byte>, size: nat, count: nat, filler: seq<byte>): (r: seq<byte>)
    requires |tag| == 4 && size < WORD && count < WORD && |filler| == 8
    ensures |r| == MODULE_HEADER
  {
    tag + Write32(size) + Write32(count) + filler
  }

  function ModuleBytes(m: Module, limits: Limits): (r: seq<byte>)
    requires ValidModule(m, limits)
    ensures |r| == MODULE_HEADER + |BlocksBytes(m.blocks, limits)|
  {
    var payload := BlocksBytes(m.blocks, limits);
    ModuleHeader(m.tag, |payload|, |m.blocks|, m.filler) + payload
  }

  function ModulesBytes(modules: seq<Module>, limits: Limits): seq<byte>
    requires forall i :: 0 <= i < |modules| ==> ValidModule(modules[i], limits)
  {
    if modules == [] then []
    else ModulesBytes(modules[..|modules| - 1], limits) + ModuleBytes(modules[|modules| - 1], limits)
  }

  predicate ValidImage(image: Image, limits: Limits) {
    && |image.filler| == 20 && |image.modules| < WORD
    && (forall i :: 0 <= i < |image.modules| ==> ValidModule(image.modules[i], limits))
    && |ModulesBytes(image.modules, limits)| < WORD
  }

  function FileHeader(size: nat, count: nat, filler: seq<byte>): (r: seq<byte>)
    requires size < WORD && count < WORD && |filler| == 20
    ensures |r| == FILE_HEADER
  {
    SIGNATURE + Write32(size) + Write32(count) + filler
  }

  function ImageBytes(image: Image, limits: Limits): (r: seq<byte>)
    requires ValidImage(image, limits)
    ensures |r| == FILE_HEADER + |ModulesBytes(image.modules, limits)|
  {
    var payload := ModulesBytes(image.modules, limits);
    FileHeader(|payload|, |image.modules|, image.filler) + payload
  }

  /** The blocks that go to a memory of the DSP, in file order. */
  function ForMemory(blocks: seq<Block>): seq<Block> {
    if blocks == [] then []
    else
      var last := blocks[|blocks| - 1];
      ForMemory(blocks[..|blocks| - 1]) + if last.kind != CUSTOM then [last] else []
  }

  function ForMemoryOfAll(modules: seq<Module>): seq<Block> {
    if modules == [] then []
    else ForMemoryOfAll(modules[..|modules| - 1]) + ForMemory(modules[|modules| - 1].blocks)
  }

  // ---- what stands where -------------------------------------------------------------------

  predicate At(data: seq<byte>, offset: nat, bytes: seq<byte>) {
    offset + |bytes| <= |data| && data[offset..offset + |bytes|] == bytes
  }

  /** Two strings follow each other exactly when their concatenation stands there. */
  lemma AtConcat(data: seq<byte>, offset: nat, x: seq<byte>, y: seq<byte>)
    ensures At(data, offset, x + y) <==> At(data, offset, x) && At(data, offset + |x|, y)
  {
    if At(data, offset, x + y) {
      var slice := data[offset..offset + |x + y|];
      assert slice[..|x|] == x && slice[|x|..] == y;
      assert data[offset..offset + |x|] == slice[..|x|];
      assert data[offset + |x|..offset + |x| + |y|] == slice[|x|..];
    }
    if At(data, offset, x) && At(data, offset + |x|, y) {
      assert data[offset..offset + |x + y|] == x + y;
    }
  }

  /** A word stands where it is read. */
  lemma AtWord(data: seq<byte>, at: nat, v: nat)
    requires v < WORD && at + 4 <= |data|
    ensures At(data, at, Write32(v)) <==> Read32(data, at) == v
  {
    WriteRead(data, at);
    if At(data, at, Write32(v)) {
      var w := data[at..at + 4];
      assert w[0] == data[at] && w[1] == data[at + 1] && w[2] == data[at + 2] && w[3] == data[at + 3];
      Digits(v);
    }
  }

  lemma Digits(v: nat)
    requires v < WORD
    ensures v == v % 256 + v / 256 % 256 * 256 + v / 65536 % 256 * 65536 + v / 16777216 * 16777216
  {
    var a := v / 256;
    var b := a / 256;
    assert b == v / 65536 && b / 256 == v / 16777216;
  }

  lemma WriteRead(data: seq<byte>, at: nat)
    requires at + 4 <= |data|
    ensures Write32(Read32(data, at)) == data[at..at + 4]
  {
    var v := Read32(data, at);
    var b0: int, b1: int, b2: int, b3: int := data[at], data[at + 1], data[at + 2], data[at + 3];
    var hi := b1 + b2 * 256 + b3 * 65536;
    assert v == b0 + hi * 256;
    assert v % 256 == data[at] && v / 256 == hi;
    var top := b2 + b3 * 256;
    assert hi == b1 + top * 256;
    assert hi % 256 == data[at + 1] && hi / 256 == top;
    assert v / 65536 == top && v / 16777216 == data[at + 3];
  }
}
