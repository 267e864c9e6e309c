/** Byte requests on a sector device through one staging buffer (SdmaDisk.cpp, Disk.cpp).

    The engine, the copy to and from the requester's memory, and the media state may fail or
    change at every point; a failed write may have transferred any of its sectors. */
module StagedDisk {
  import opened StagedRequest

  newtype Byte = x: int | 0 <= x < 256

  const STAGING_SIZE: nat := 512 * 1024
  const UINT32_MAX: nat := 0xffff_ffff
  const INT64_MAX: nat := 0x7fff_ffff_ffff_ffff

  datatype Status = B_OK | B_BAD_VALUE | B_DEV_NO_MEDIA | B_ERROR | B_NO_INIT | B_NO_MEMORY | B_CANCELED

  /** What an arriving request meets: whether the request thread exists, the media word when it comes and
      when it is to be queued, whether there is memory for its node, the answer of locking its buffer,
      and whether the disk is being stopped. */
  datatype Arrival = Arrival(
    initialised: bool,
    wordAtEntry: int,
    haveMemory: bool,
    locked: Status,
    stopping: bool,
    wordAtQueueing: int)
  {
    predicate Online() { wordAtEntry % 2 == 1 }

    /** The request is queued. */
    predicate Admits() {
      initialised && Online() && haveMemory && locked == B_OK && !stopping && wordAtQueueing == wordAtEntry
    }

    /** The answer names the first obstacle. */
    predicate Refuses(answer: Status) {
      && (!initialised ==> answer == B_NO_INIT)
      && (initialised && !Online() ==> answer == B_DEV_NO_MEDIA)
      && (initialised && Online() && !haveMemory ==> answer == B_NO_MEMORY)
      && (initialised && Online() && haveMemory && locked != B_OK ==> answer == locked)
      && (initialised && Online() && haveMemory && locked == B_OK ==>
            answer == if stopping then B_CANCELED else B_DEV_NO_MEDIA)
    }
  }

  /** What the driver asks of its surroundings while a request is served, and the answer. */
  datatype Look =
    | MediaLook(changed: bool)
    | Command(ok: bool)
    | CardStatus(error: bool)
    | Copy(ok: bool)

  predicate IsObstacle(look: Look) {
    look == MediaLook(true) || look == Command(false) || look == CardStatus(true) || look == Copy(false)
  }

  predicate Extends(before: seq<Look>, after: seq<Look>) {
    |before| <= |after| && after[..|before|] == before
  }

  /** No obstacle was met since. */
  predicate Clear(before: seq<Look>, after: seq<Look>) {
    Extends(before, after) && forall i :: |before| <= i < |after| ==> !IsObstacle(after[i])
  }

  /** The latest answer is one obstacle, and it is the only one since. */
  predicate StoppedBy(before: seq<Look>, after: seq<Look>, obstacle: Look) {
    |before| < |after| && Clear(before, after[..|after| - 1]) && after[|after| - 1] == obstacle && IsObstacle(obstacle)
  }

  /** A status says exactly which obstacle was met, if any. */
  predicate Explained(status: Status, before: seq<Look>, after: seq<Look>) {
    && (status == B_OK || status == B_BAD_VALUE || status == B_DEV_NO_MEDIA || status == B_ERROR)
    && (status == B_OK || status == B_BAD_VALUE <==> Clear(before, after))
    && (status == B_DEV_NO_MEDIA <==> StoppedBy(before, after, MediaLook(true)))
    && (status == B_ERROR <==>
          || StoppedBy(before, after, Command(false)) || StoppedBy(before, after, CardStatus(true))
          || StoppedBy(before, after, Copy(false)))
  }

  lemma ClearJoin(before: seq<Look>, middle: seq<Look>, after: seq<Look>)
    requires Clear(before, middle) && Extends(middle, after)
    ensures Extends(before, after) && (Clear(before, after) <==> Clear(middle, after))
  {
    assert forall i :: 0 <= i < |middle| ==> after[i] == middle[i];
  }

  lemma StoppedJoin(before: seq<Look>, middle: seq<Look>, after: seq<Look>, obstacle: Look)
    requires Clear(before, middle) && Extends(middle, after)
    ensures StoppedBy(before, after, obstacle) <==> StoppedBy(middle, after, obstacle)
  {
    if |middle| < |after| {
      assert after[..|after| - 1][..|middle|] == middle;
      ClearJoin(before, middle, after[..|after| - 1]);
    }
    assert forall i :: 0 <= i < |middle| ==> after[i] == middle[i];
  }

  /** A part that met no obstacle explains nothing away. */
  lemma ExplainedJoin(status: Status, before: seq<Look>, middle: seq<Look>, after: seq<Look>)
    requires Clear(before, middle) && Extends(middle, after) && Explained(status, middle, after)
    ensures Explained(status, before, after)
  {
    hide Clear, StoppedBy;
    ClearJoin(before, middle, after);
    StoppedJoin(before, middle, after, MediaLook(true));
    StoppedJoin(before, middle, after, Command(false));
    StoppedJoin(before, middle, after, CardStatus(true));
    StoppedJoin(before, middle, after, Copy(false));
  }

  /** What one answer explains. */
  lemma ExplainedOnce(before: seq<Look>, look: Look)
    ensures Extends(before, before + [look])
    ensures IsObstacle(look) ==>
      Explained(if look == MediaLook(true) then B_DEV_NO_MEDIA else B_ERROR, before, before + [look])
    ensures !IsObstacle(look) ==> Explained(B_OK, before, before + [look]) && Clear(before, before + [look])
  {
    var after := before + [look];
    assert after[..|before|] == before;
    assert after[|before|] == look;
  }

  lemma ExplainedIsClear(before: seq<Look>, after: seq<Look>)
    requires Explained(B_OK, before, after)
    ensures Clear(before, after)
  {
  }

  /** A status other than those two means that an obstacle was met, and these mean that none was. */
  lemma OnlyClearIsFine(status: Status, before: seq<Look>, after: seq<Look>)
    requires Explained(status, before, after)
    ensures Clear(before, after) <==> status == B_OK || status == B_BAD_VALUE
  {
  }

  lemma ClearIsExplained(before: seq<Look>, after: seq<Look>)
    requires Clear(before, after)
    ensures Explained(B_OK, before, after)
  {
    assert forall i :: |before| <= i < |after| ==> !IsObstacle(after[i]);
  }

  lemma SameLooks(before: seq<Look>)
    ensures Extends(before, before)
  {
  }

  lemma NothingLooked(before: seq<Look>)
    ensures Explained(B_OK, before, before) && Explained(B_BAD_VALUE, before, before) && Clear(before, before)
  {
  }

  class IoRequest {
    const offset: nat
    const length: nat
    const isWrite: bool
    const buffer: array<Byte>
    var transferred: nat

    constructor (offset: nat, isWrite: bool, buffer: array<Byte>)
      ensures this.offset == offset && this.isWrite == isWrite && this.buffer == buffer
      ensures length == buffer.Length && transferred == 0
    {
      this.offset, this.isWrite, this.buffer := offset, isWrite, buffer;
      length, transferred := buffer.Length, 0;
    }

    ghost predicate Valid()
      reads this
    {
      buffer.Length == length && transferred <= length
    }

    function RemainingBytes(): nat
      requires Valid()
      reads this
    {
      length - transferred
    }
  }

  /** The card: `media` is its whole content. The block-size register is 16 bits wide. */
  class Card {
    const sectorSize: nat
    const sectorCount: nat
    const sectorAddressing: bool
    const media: array<Byte>

    constructor (sectorSize: nat, sectorCount: nat, sectorAddressing: bool, media: array<Byte>)
      requires 0 < sectorSize < 0x1_0000 && media.Length == sectorCount * sectorSize
      ensures Valid() && this.media == media && this.sectorSize == sectorSize
      ensures this.sectorCount == sectorCount && this.sectorAddressing == sectorAddressing
    {
      this.sectorSize, this.sectorCount := sectorSize, sectorCount;
      this.sectorAddressing, this.media := sectorAddressing, media;
    }

    predicate Valid() {
      0 < sectorSize < 0x1_0000 && media.Length == sectorCount * sectorSize
    }

    /** Every sector has a 32-bit command argument, and every byte a 63-bit offset. */
    predicate Addressable() {
      media.Length <= INT64_MAX && (if sectorAddressing then sectorCount else media.Length) <= UINT32_MAX + 1
    }

    /** The byte at which a command argument points. */
    function Addressed(argument: nat): nat {
      if sectorAddressing then argument * sectorSize else argument
    }
  }

  // ---- what a request means ----------------------------------------------------------

  /** The content after the first `done` bytes of a write have landed. */
  predicate Written(media: seq<Byte>, before: seq<Byte>, offset: nat, data: seq<Byte>, done: nat)
    requires done <= |data|
  {
    && |media| == |before|
    && forall i :: 0 <= i < |media| ==>
         media[i] == if offset <= i < offset + done then data[i - offset] else before[i]
  }

  /** A write that stopped half-way: no byte outside the request has changed, the first `done` bytes
      have landed, and every later byte is either the old or the new one. */
  predicate PartlyWritten(media: seq<Byte>, before: seq<Byte>, offset: nat, data: seq<Byte>, done: nat)
    requires done <= |data|
  {
    && |media| == |before|
    && (forall i :: 0 <= i < |media| && !(offset <= i < offset + |data|) ==> media[i] == before[i])
    && (forall i :: 0 <= i < |media| && offset <= i < offset + done ==> media[i] == data[i - offset])
    && (forall i :: 0 <= i < |media| && offset + done <= i < offset + |data| ==>
          media[i] == before[i] || media[i] == data[i - offset])
  }

  /** The first `done` bytes of a read have arrived. */
  predicate Arrived(data: seq<Byte>, media: seq<Byte>, offset: nat, done: nat)
    requires done <= |data| && offset + |data| <= |media|
  {
    forall i :: 0 <= i < done ==> data[i] == media[offset + i]
  }

  /** What a write of `count` bytes at `position` may have done to the medium. */
  predicate Landed(after: seq<Byte>, before: seq<Byte>, data: seq<Byte>, position: nat, count: nat, complete: bool)
    requires count <= |data|
  {
    && |after| == |before|
    && forall i :: 0 <= i < |before| ==>
         if position <= i < position + count
         then after[i] == data[i - position] || (!complete && after[i] == before[i])
         else after[i] == before[i]
  }

  /** `staged` starts with the window as it must look on the medium once the chunk is written. */
  predicate Merged(staged: seq<Byte>, media: seq<Byte>, data: seq<Byte>, done: nat, chunk: Chunk)
    requires done + chunk.requestBytes <= |data| && chunk.mediaBytes <= |staged|
    requires chunk.mediaOffset + chunk.mediaBytes <= |media|
  {
    forall k :: 0 <= k < chunk.mediaBytes ==>
      staged[k] == if chunk.bufferOffset <= k < chunk.bufferOffset + chunk.requestBytes
                   then data[done + (k - chunk.bufferOffset)] else media[chunk.mediaOffset + k]
  }

  /** Disk::ValidateRequest: the product and the comparisons are 64-bit. */
  function ValidateRequest(offset: int, length: nat, sectorCount: nat, sectorSize: nat): Status {
    var deviceSize := (sectorCount * sectorSize) % 0x1_0000_0000_0000_0000;
    if offset < 0 || offset > deviceSize || length > deviceSize - offset then B_BAD_VALUE else B_OK
  }

  /** On a device whose size fits in 64 bits, exactly the requests that lie on it are accepted. */
  lemma AcceptedExactlyOnDevice(offset: int, length: nat, sectorCount: nat, sectorSize: nat)
    requires sectorCount * sectorSize < 0x1_0000_0000_0000_0000
    ensures ValidateRequest(offset, length, sectorCount, sectorSize) == B_OK
       <==> 0 <= offset && offset + length <= sectorCount * sectorSize
  {
    var size := sectorCount * sectorSize;
    assert size >= 0 by { Multiply(sectorCount, sectorSize); }
    assert size % 0x1_0000_0000_0000_0000 == size;
  }

  // ---- the driver --------------------------------------------------------------------

  class SdmaDisk {
    const card: Card
    const staging: array<Byte>
    /** What was asked and answered so far. */
    ghost var looks: seq<Look>

    constructor (card: Card, staging: array<Byte>)
      requires card.Valid() && staging.Length == STAGING_SIZE && staging != card.media
      ensures Valid() && this.card == card && this.staging == staging
    {
      this.card, this.staging := card, staging;
    }

    predicate Valid() {
      card.Valid() && staging.Length == STAGING_SIZE && staging != card.media
    }

    /** The request lies on the device and its memory is not the driver's. */
    ghost predicate Accepted(request: IoRequest)
      reads request
    {
      && Valid() && request.Valid()
      && request.offset + request.length <= card.media.Length
      && request.buffer != staging && request.buffer != card.media
    }

    /** The media state was the captured one at the latest look. */
    ghost predicate JustChecked()
      reads this
    {
      looks != [] && looks[|looks| - 1] == MediaLook(false)
    }

    /** Someone may have changed the media state since it was captured. */
    method MediaChanged() returns (changed: bool)
      modifies this`looks
      ensures looks == old(looks) + [MediaLook(changed)]
    {
      changed := *;
      looks := looks + [MediaLook(changed)];
    }

    /** The command engine and the card. A failed read leaves anything in the window of the staging
        buffer, a failed write any mixture of old and new bytes in the window of the medium. No command
        is sent unless the latest look at the media state, right before it, found it unchanged. */
    method ExecuteData(argument: nat, blocks: nat, isWrite: bool) returns (ok: bool)
      requires Valid() && blocks * card.sectorSize <= STAGING_SIZE
      requires card.Addressed(argument) + blocks * card.sectorSize <= card.media.Length
      requires JustChecked()
      modifies card.media, staging, this`looks
      ensures looks == old(looks) + [Command(ok)]
      ensures isWrite ==> staging[..] == old(staging[..])
      ensures isWrite ==> Landed(card.media[..], old(card.media[..]), staging[..],
                                 card.Addressed(argument), blocks * card.sectorSize, ok)
      ensures !isWrite ==> card.media[..] == old(card.media[..])
      ensures !isWrite && ok ==> forall k :: 0 <= k < blocks * card.sectorSize ==>
                staging[k] == card.media[card.Addressed(argument) + k]
    {
      ok := *;
      var position, count := card.Addressed(argument), blocks * card.sectorSize;
      if isWrite {
        var landed: set<int> := *;
        forall k | 0 <= k < count && (ok || k in landed) {
          card.media[position + k] := staging[k];
        }
      } else {
        var noise: int -> Byte := *;
        forall k | 0 <= k < count {
          staging[k] := if ok then card.media[position + k] else noise(k);
        }
      }
      looks := looks + [Command(ok)];
    }

    /** The card's own status in the response to a command that went through. */
    method R1HasError() returns (error: bool)
      modifies this`looks
      ensures looks == old(looks) + [CardStatus(error)]
    {
      error := *;
      looks := looks + [CardStatus(error)];
    }

    /** Copying to or from the requester's memory. */
    method CopyWorks() returns (ok: bool)
      modifies this`looks
      ensures looks == old(looks) + [Copy(ok)]
    {
      ok := *;
      looks := looks + [Copy(ok)];
    }

    /** The geometry a transfer must have to be expressible as one command. */
    predicate Transferable(position: nat, byteCount: nat)
      requires Valid()
    {
      var blocks := byteCount / card.sectorSize;
      var argument := if card.sectorAddressing then position / card.sectorSize else position;
      && byteCount != 0 && byteCount <= STAGING_SIZE
      && byteCount % card.sectorSize == 0 && position % card.sectorSize == 0
      && 0 < blocks <= 65535 && argument <= UINT32_MAX
    }

    method TransferStaging(position: nat, byteCount: nat, isWrite: bool) returns (status: Status)
      requires Valid() && position + byteCount <= card.media.Length && JustChecked()
      modifies card.media, staging, this`looks
      ensures status == B_BAD_VALUE <==> !Transferable(position, byteCount)
      ensures Extends(old(looks), looks) && Explained(status, old(looks), looks)
      ensures status == B_BAD_VALUE || !isWrite ==> card.media[..] == old(card.media[..])
      ensures isWrite ==> staging[..] == old(staging[..])
      ensures isWrite && byteCount <= STAGING_SIZE ==>
                Landed(card.media[..], old(card.media[..]), staging[..], position, byteCount, status == B_OK)
      ensures !isWrite && status == B_OK ==>
                && byteCount <= STAGING_SIZE
                && forall k :: 0 <= k < byteCount ==> staging[k] == card.media[position + k]
    {
      NothingLooked(looks);
      if byteCount == 0 || byteCount > STAGING_SIZE || byteCount % card.sectorSize != 0
         || position % card.sectorSize != 0 {
        return B_BAD_VALUE;
      }
      var blocks := byteCount / card.sectorSize;
      if blocks == 0 || blocks > 65535 {
        return B_BAD_VALUE;
      }
      var block := position / card.sectorSize;
      var argument := if card.sectorAddressing then block else position;
      if argument > UINT32_MAX {
        return B_BAD_VALUE;
      }
      Quotient(byteCount, card.sectorSize);
      Quotient(position, card.sectorSize);
      assert blocks * card.sectorSize == byteCount && card.Addressed(argument) == position;
      status := B_ERROR;
      ghost var before := looks;
      var ok := ExecuteData(argument, blocks, isWrite);
      ghost var sent := looks;
      ExplainedOnce(before, Command(ok));
      if ok {
        var cardError := R1HasError();
        ExplainedOnce(sent, CardStatus(cardError));
        if !cardError { status := B_OK; }
        ExplainedJoin(status, before, sent, looks);
        ClearJoin(before, sent, looks);
      }
    }

    /** Copies the next bytes of the request into the staging buffer, or fails leaving anything there. */
    method CopyRequestToStaging(request: IoRequest, stagingOffset: nat, bytes: nat) returns (status: Status)
      requires Accepted(request) && stagingOffset + bytes <= STAGING_SIZE
      requires request.transferred + bytes <= request.length
      modifies staging, this`looks
      ensures status != B_BAD_VALUE && looks == old(looks) + [Copy(status == B_OK)]
      ensures Explained(status, old(looks), looks)
      ensures status == B_OK ==>
                forall k :: 0 <= k < STAGING_SIZE ==>
                  staging[k] == if stagingOffset <= k < stagingOffset + bytes
                                then request.buffer[request.transferred + (k - stagingOffset)]
                                else old(staging[k])
    {
      var ok := CopyWorks();
      ExplainedOnce(old(looks), Copy(ok));
      status := if ok then B_OK else B_ERROR;
      var noise: int -> Byte := *;
      forall k | 0 <= k < bytes {
        staging[stagingOffset + k] := if ok then request.buffer[request.transferred + k] else noise(k);
      }
    }

    method CopyStagingToRequest(request: IoRequest, stagingOffset: nat, bytes: nat) returns (status: Status)
      requires Accepted(request) && stagingOffset + bytes <= STAGING_SIZE
      requires request.transferred + bytes <= request.length
      modifies request.buffer, this`looks
      ensures status != B_BAD_VALUE && looks == old(looks) + [Copy(status == B_OK)]
      ensures Explained(status, old(looks), looks)
      ensures forall j :: 0 <= j < request.length && !(request.transferred <= j < request.transferred + bytes) ==>
                request.buffer[j] == old(request.buffer[j])
      ensures status == B_OK ==>
                forall j :: request.transferred <= j < request.transferred + bytes ==>
                  request.buffer[j] == staging[stagingOffset + (j - request.transferred)]
    {
      var ok := CopyWorks();
      ExplainedOnce(old(looks), Copy(ok));
      status := if ok then B_OK else B_ERROR;
      var noise: int -> Byte := *;
      forall k | 0 <= k < bytes {
        request.buffer[request.transferred + k] := if ok then staging[stagingOffset + k] else noise(k);
      }
    }

    /** The window lies on the device, in the staging buffer, and at the request's current byte. */
    ghost predicate Fits(request: IoRequest, chunk: Chunk)
      requires Valid()
      reads request
    {
      && request.Valid() && chunk.IsValid()
      && chunk.mediaOffset + chunk.bufferOffset == request.offset + request.transferred
      && request.transferred + chunk.requestBytes <= request.length
      && chunk.bufferOffset + chunk.requestBytes <= chunk.mediaBytes <= STAGING_SIZE
      && chunk.mediaOffset + chunk.mediaBytes <= card.media.Length
    }

    /** Reads the sectors the window only partly covers and merges the request's bytes into them. */
    method PrepareWindow(request: IoRequest, chunk: Chunk) returns (status: Status)
      requires Accepted(request) && Fits(request, chunk) && JustChecked()
      modifies card.media, staging, this`looks
      ensures card.media[..] == old(card.media[..])
      ensures Extends(old(looks), looks) && Explained(status, old(looks), looks)
      ensures status == B_BAD_VALUE ==> !Transferable(chunk.mediaOffset, chunk.mediaBytes)
      ensures status == B_OK ==>
                Merged(staging[..], card.media[..], request.buffer[..], request.transferred, chunk)
    {
      hide Transferable, Explained, Clear, Extends;
      ghost var before := looks;
      NothingLooked(before);
      SameLooks(before);
      if chunk.NeedsReadBeforeWrite() {
        status := TransferStaging(chunk.mediaOffset, chunk.mediaBytes, false);
        if status != B_OK { return; }
        ghost var read := looks;
        ExplainedIsClear(before, read);
        var changed := MediaChanged();
        ExplainedOnce(read, MediaLook(changed));
        ExplainedJoin(if changed then B_DEV_NO_MEDIA else B_OK, before, read, looks);
        ClearJoin(before, read, looks);
        if changed { return B_DEV_NO_MEDIA; }
      }
      ghost var ready := looks;
      status := CopyRequestToStaging(request, chunk.bufferOffset, chunk.requestBytes);
      ExplainedOnce(ready, Copy(status == B_OK));
      ExplainedJoin(status, before, ready, looks);
      ClearJoin(before, ready, looks);
    }

    /** One window of a write: read the sectors it only partly covers, merge, write back. */
    method WriteChunk(request: IoRequest, chunk: Chunk, ghost before: seq<Byte>) returns (status: Status)
      requires Accepted(request) && request.isWrite && Fits(request, chunk) && JustChecked()
      requires Written(card.media[..], before, request.offset, request.buffer[..], request.transferred)
      modifies card.media, staging, this`looks
      ensures Extends(old(looks), looks) && Explained(status, old(looks), looks)
      ensures status == B_BAD_VALUE ==> !Transferable(chunk.mediaOffset, chunk.mediaBytes)
      ensures status == B_OK ==> Transferable(chunk.mediaOffset, chunk.mediaBytes)
      ensures status == B_OK ==> Written(card.media[..], before, request.offset, request.buffer[..],
                                         request.transferred + chunk.requestBytes)
      ensures PartlyWritten(card.media[..], before, request.offset, request.buffer[..], request.transferred)
    {
      hide Written, PartlyWritten, Transferable, Landed, Merged, Explained, Clear, Extends;
      ghost var data := request.buffer[..];
      ghost var start := looks;
      WrittenIsPartlyWritten(card.media[..], before, request.offset, data, request.transferred);
      status := PrepareWindow(request, chunk);
      if status != B_OK { return; }
      ghost var prepared := looks;
      ExplainedIsClear(start, prepared);
      var changed := MediaChanged();
      ExplainedOnce(prepared, MediaLook(changed));
      ExplainedJoin(if changed then B_DEV_NO_MEDIA else B_OK, start, prepared, looks);
      ClearJoin(start, prepared, looks);
      if changed { return B_DEV_NO_MEDIA; }
      ghost var media := card.media[..];
      ghost var ready := looks;
      status := TransferStaging(chunk.mediaOffset, chunk.mediaBytes, true);
      ExplainedJoin(status, start, ready, looks);
      ClearJoin(start, ready, looks);
      MergedWrite(request.offset, request.transferred, data, chunk, before, media, staging[..],
                  card.media[..], status == B_OK);
    }

    /** One window of a read. */
    method ReadChunk(request: IoRequest, chunk: Chunk) returns (status: Status)
      requires Accepted(request) && !request.isWrite && Fits(request, chunk) && JustChecked()
      requires Arrived(request.buffer[..], card.media[..], request.offset, request.transferred)
      modifies card.media, staging, request.buffer, this`looks
      ensures card.media[..] == old(card.media[..])
      ensures Extends(old(looks), looks) && Explained(status, old(looks), looks)
      ensures status == B_BAD_VALUE ==> !Transferable(chunk.mediaOffset, chunk.mediaBytes)
      ensures status == B_OK ==> Transferable(chunk.mediaOffset, chunk.mediaBytes)
      ensures Arrived(request.buffer[..], card.media[..], request.offset, request.transferred)
      ensures status == B_OK ==> Arrived(request.buffer[..], card.media[..], request.offset,
                                         request.transferred + chunk.requestBytes)
    {
      hide Explained, Clear, Extends;
      ghost var start := looks;
      status := TransferStaging(chunk.mediaOffset, chunk.mediaBytes, false);
      if status == B_OK {
        ghost var read := looks;
        ExplainedIsClear(start, read);
        status := CopyStagingToRequest(request, chunk.bufferOffset, chunk.requestBytes);
        ExplainedOnce(read, Copy(status == B_OK));
        ExplainedJoin(status, start, read, looks);
        ClearJoin(start, read, looks);
      }
    }

    /** The next window of the request, which always makes progress. */
    method NextChunk(request: IoRequest) returns (chunk: Chunk)
      requires Accepted(request) && request.RemainingBytes() > 0
      ensures chunk == Plan(request.offset + request.transferred, request.RemainingBytes(), card.sectorSize, STAGING_SIZE)
      ensures chunk.IsValid() ==> Fits(request, chunk)
      ensures chunk.IsValid() <==> GoodGeometry(card.sectorSize, STAGING_SIZE)
      ensures chunk.IsValid() && card.sectorSize == 512 && card.Addressable() ==>
                chunk.mediaOffset <= INT64_MAX && Transferable(chunk.mediaOffset, chunk.mediaBytes)
    {
      hide Plan, Transferable;
      var requestOffset := request.offset + request.transferred;
      var remaining := request.RemainingBytes();
      chunk := Plan(requestOffset, remaining, card.sectorSize, STAGING_SIZE);
      PlanIsValidExactly(requestOffset, remaining, card.sectorSize, STAGING_SIZE);
      if chunk.IsValid() {
        PlanCovers(requestOffset, remaining, card.sectorSize, STAGING_SIZE);
        PlanStaysOnDevice(requestOffset, remaining, card.sectorSize, STAGING_SIZE, card.sectorCount);
        if card.sectorSize == 512 && card.Addressable() {
          AlwaysTransferable(chunk.mediaOffset, chunk.mediaBytes);
        }
      }
    }

    /** Every window of the request can be planned and transferred with one command. */
    predicate Feasible(requestOffset: nat, remaining: nat)
      requires Valid()
      decreases remaining
    {
      remaining == 0
      || (var chunk := Plan(requestOffset, remaining, card.sectorSize, STAGING_SIZE);
          && chunk.IsValid() && chunk.requestBytes <= remaining && chunk.mediaOffset <= INT64_MAX
          && Transferable(chunk.mediaOffset, chunk.mediaBytes)
          && Feasible(requestOffset + chunk.requestBytes, remaining - chunk.requestBytes))
    }

    /** The whole request, window by window. It succeeds exactly when no obstacle is met and every window
        is feasible, and every other status names its cause. A successful write changes exactly the requested bytes
        and a successful read delivers exactly them; however a write stops, no byte outside the
        request has changed and every byte inside it is the old or the new one. */
    method RunRequest(request: IoRequest) returns (status: Status)
      requires Accepted(request) && request.transferred == 0
      modifies card.media, staging, request`transferred, request.buffer, this`looks
      ensures request.Valid() && Extends(old(looks), looks) && Explained(status, old(looks), looks)
      ensures status == B_OK <==> Clear(old(looks), looks) && Feasible(request.offset, request.length)
      ensures status == B_BAD_VALUE <==> Clear(old(looks), looks) && !Feasible(request.offset, request.length)
      ensures status == B_OK ==> JustChecked()
      ensures status == B_OK ==> request.transferred == request.length
      ensures request.length > 0 ==> (status == B_OK <==> request.transferred == request.length)
      ensures request.isWrite ==>
                && request.buffer[..] == old(request.buffer[..])
                && PartlyWritten(card.media[..], old(card.media[..]), request.offset, request.buffer[..],
                                 request.transferred)
      ensures request.isWrite && status == B_OK ==>
                Written(card.media[..], old(card.media[..]), request.offset, request.buffer[..], request.length)
      ensures !request.isWrite ==>
                && card.media[..] == old(card.media[..])
                && Arrived(request.buffer[..], card.media[..], request.offset, request.transferred)
      ensures card.sectorSize == 512 && card.Addressable() ==> status != B_BAD_VALUE
    {
      hide PartlyWritten, Written, Arrived, Transferable, Fits, GoodGeometry, Plan, Feasible, Explained, Clear,
           Extends;
      ghost var start := looks;
      ghost var before := card.media[..];
      ghost var data := request.buffer[..];
      NothingDone(before, request.offset, data);
      ClearAtFirst(start);
      var changed := CheckMedia(start);
      if changed {
        OnlyClearIsFine(B_DEV_NO_MEDIA, start, looks);
        return B_DEV_NO_MEDIA;
      }
      while request.RemainingBytes() > 0
        invariant Accepted(request) && request.Valid() && Extends(start, looks) && Clear(start, looks) && JustChecked()
        invariant Feasible(request.offset, request.length)
             <==> Feasible(request.offset + request.transferred, request.RemainingBytes())
        invariant request.isWrite ==>
                    && request.buffer[..] == data
                    && Written(card.media[..], before, request.offset, data, request.transferred)
                    && PartlyWritten(card.media[..], before, request.offset, data, request.transferred)
        invariant !request.isWrite ==>
                    card.media[..] == before && Arrived(request.buffer[..], before, request.offset, request.transferred)
        decreases request.length - request.transferred
      {
        ghost var head := looks;
        status := ServeWindow(request, before);
        ExplainedJoin(status, start, head, looks);
        ClearJoin(start, head, looks);
        OnlyClearIsFine(status, start, looks);
        if status != B_OK {
          GoodSectors();
          if card.sectorSize == 512 && card.Addressable() { AlwaysFeasible(request.offset, request.length); }
          return;
        }
      }
      FeasibleEnd(request);
      ClearIsExplained(start, looks);
      status := B_OK;
    }

    /** One look at the media state, on top of what has been met since `start`. */
    method CheckMedia(ghost start: seq<Look>) returns (changed: bool)
      requires Clear(start, looks) && Extends(start, looks)
      modifies this`looks
      ensures looks == old(looks) + [MediaLook(changed)]
      ensures Extends(start, looks) && Extends(old(looks), looks)
      ensures changed ==> Explained(B_DEV_NO_MEDIA, start, looks)
      ensures !changed ==> Clear(start, looks) && JustChecked()
    {
      hide Explained, Clear, Extends;
      ghost var before := looks;
      changed := MediaChanged();
      ExplainedOnce(before, MediaLook(changed));
      ExplainedJoin(if changed then B_DEV_NO_MEDIA else B_OK, start, before, looks);
      ClearJoin(start, before, looks);
    }

    /** One window of the request, between two looks at the media state. */
    method ServeWindow(request: IoRequest, ghost before: seq<Byte>) returns (status: Status)
      requires Accepted(request) && request.RemainingBytes() > 0
      requires request.isWrite ==>
                 && Written(card.media[..], before, request.offset, request.buffer[..], request.transferred)
                 && PartlyWritten(card.media[..], before, request.offset, request.buffer[..], request.transferred)
      requires !request.isWrite ==>
                 card.media[..] == before
                 && Arrived(request.buffer[..], before, request.offset, request.transferred)
      modifies card.media, staging, request`transferred, request.buffer, this`looks
      ensures Accepted(request) && request.Valid()
      ensures Extends(old(looks), looks) && Explained(status, old(looks), looks)
      ensures status == B_OK ==>
                && JustChecked() && request.transferred > old(request.transferred)
                && (Feasible(request.offset + old(request.transferred), old(request.RemainingBytes()))
                    <==> Feasible(request.offset + request.transferred, request.RemainingBytes()))
      ensures status != B_OK ==> request.transferred == old(request.transferred)
      ensures status == B_BAD_VALUE ==>
                !Feasible(request.offset + request.transferred, request.RemainingBytes())
      ensures request.isWrite ==>
                && request.buffer[..] == old(request.buffer[..])
                && PartlyWritten(card.media[..], before, request.offset, request.buffer[..], request.transferred)
                && (status == B_OK ==>
                      Written(card.media[..], before, request.offset, request.buffer[..], request.transferred))
      ensures !request.isWrite ==>
                card.media[..] == before
                && Arrived(request.buffer[..], before, request.offset, request.transferred)
    {
      hide PartlyWritten, Written, Arrived, Transferable, Fits, GoodGeometry, Plan, Feasible, Explained, Clear, Extends;
      ghost var start := looks;
      ghost var data := request.buffer[..];
      ClearAtFirst(start);
      var changed := CheckMedia(start);
      if changed { return B_DEV_NO_MEDIA; }
      ghost var checked := looks;
      var chunk := NextChunk(request);
      FeasibleNext(request, chunk);
      if !chunk.IsValid() || chunk.mediaOffset > INT64_MAX {
        NothingLooked(checked);
        SameLooks(checked);
        ExplainedJoin(B_BAD_VALUE, start, checked, looks);
        return B_BAD_VALUE;
      }
      ChunkAdvances(request, chunk);
      if request.isWrite {
        status := WriteChunk(request, chunk, before);
      } else {
        status := ReadChunk(request, chunk);
      }
      ExplainedJoin(status, start, checked, looks);
      ClearJoin(start, checked, looks);
      if status != B_OK { return; }
      ExplainedIsClear(start, looks);
      changed := CheckMedia(start);
      if request.isWrite {
        StillPartlyWritten(card.media[..], before, request.offset, data, request.transferred, chunk.requestBytes);
        WrittenIsPartlyWritten(card.media[..], before, request.offset, data, request.transferred + chunk.requestBytes);
      }
      if changed { return B_DEV_NO_MEDIA; }
      ClearIsExplained(start, looks);
      request.transferred := request.transferred + chunk.requestBytes;
    }

    lemma ClearAtFirst(start: seq<Look>)
      ensures Clear(start, start) && Extends(start, start)
    {
    }

    lemma FeasibleNext(request: IoRequest, chunk: Chunk)
      requires Accepted(request) && request.RemainingBytes() > 0
      requires chunk == Plan(request.offset + request.transferred, request.RemainingBytes(), card.sectorSize, STAGING_SIZE)
      requires chunk.IsValid() ==> Fits(request, chunk)
      ensures Feasible(request.offset + request.transferred, request.RemainingBytes())
         <==> && chunk.IsValid() && chunk.mediaOffset <= INT64_MAX
              && Transferable(chunk.mediaOffset, chunk.mediaBytes)
              && Feasible(request.offset + request.transferred + chunk.requestBytes,
                          request.RemainingBytes() - chunk.requestBytes)
    {
      hide Plan, Transferable;
    }

    lemma FeasibleEnd(request: IoRequest)
      requires Accepted(request) && request.RemainingBytes() == 0
      ensures Feasible(request.offset + request.transferred, request.RemainingBytes())
    {
    }

    /** On an addressable card of 512-byte sectors every request on the device is feasible. */
    lemma {:induction false} AlwaysFeasible(requestOffset: nat, remaining: nat)
      requires Valid() && card.sectorSize == 512 && card.Addressable()
      requires requestOffset + remaining <= card.media.Length
      ensures Feasible(requestOffset, remaining)
      decreases remaining
    {
      hide Plan, Transferable;
      if remaining > 0 {
        GoodSectors();
        PlanCovers(requestOffset, remaining, 512, STAGING_SIZE);
        PlanStaysOnDevice(requestOffset, remaining, 512, STAGING_SIZE, card.sectorCount);
        var chunk := Plan(requestOffset, remaining, 512, STAGING_SIZE);
        AlwaysTransferable(chunk.mediaOffset, chunk.mediaBytes);
        AlwaysFeasible(requestOffset + chunk.requestBytes, remaining - chunk.requestBytes);
      }
    }

    lemma ChunkAdvances(request: IoRequest, chunk: Chunk)
      requires Accepted(request) && Fits(request, chunk)
      ensures 0 < chunk.requestBytes && request.transferred + chunk.requestBytes <= request.length
    {
    }

    lemma GoodSectors()
      ensures GoodGeometry(512, STAGING_SIZE)
    {
    }

    /** A whole-sector window on an addressable card of 512-byte sectors is never refused. */
    lemma AlwaysTransferable(position: nat, byteCount: nat)
      requires Valid() && card.sectorSize == 512 && card.Addressable()
      requires 0 < byteCount <= STAGING_SIZE && byteCount % 512 == 0 && position % 512 == 0
      requires position + byteCount <= card.media.Length
      ensures Transferable(position, byteCount)
    {
    }

    /** A queued request is run by the request thread. */
    method Serve(offset: nat, isWrite: bool, buffer: array<Byte>) returns (outcome: Status)
      requires Valid() && OnDevice(offset, buffer.Length)
      requires card.media.Length < 0x1_0000_0000_0000_0000
      requires buffer != staging && buffer != card.media
      modifies card.media, staging, buffer, this`looks
      ensures Explained(outcome, old(looks), looks)
      ensures outcome == B_OK <==> Clear(old(looks), looks) && Feasible(offset, buffer.Length)
      ensures isWrite ==>
                && buffer[..] == old(buffer[..])
                && PartlyWritten(card.media[..], old(card.media[..]), offset, buffer[..], 0)
                && (outcome == B_OK ==>
                      Written(card.media[..], old(card.media[..]), offset, buffer[..], buffer.Length))
      ensures !isWrite ==>
                && card.media[..] == old(card.media[..])
                && (outcome == B_OK ==> buffer[..] == card.media[offset..offset + buffer.Length])
    {
      AcceptedExactlyOnDevice(offset, buffer.Length, card.sectorCount, card.sectorSize);
      var request := new IoRequest(offset, isWrite, buffer);
      outcome := RunRequest(request);
    }

    /** The entry point and, for a request that is queued, what becomes of it: the request thread serves
        it, or the disk is stopped first and cancels it. The order of the queue is left out. `answer` is
        what the call returns, `outcome` what the requester is notified of. */
    method DoIO(offset: int, isWrite: bool, buffer: array<Byte>, arrival: Arrival)
      returns (answer: Status, served: bool, outcome: Status)
      requires Valid() && card.media.Length < 0x1_0000_0000_0000_0000
      requires buffer != staging && buffer != card.media
      modifies card.media, staging, buffer, this`looks
      ensures served ==>
                && 0 <= offset && Explained(outcome, old(looks), looks)
                && (outcome == B_OK <==> Clear(old(looks), looks) && Feasible(offset, buffer.Length))
      ensures answer == B_OK <==> OnDevice(offset, buffer.Length) && arrival.Admits()
      ensures !OnDevice(offset, buffer.Length) ==> answer == B_BAD_VALUE
      ensures OnDevice(offset, buffer.Length) && !arrival.Admits() ==> arrival.Refuses(answer)
      ensures !served ==>
                && outcome == (if answer == B_OK then B_CANCELED else answer)
                && card.media[..] == old(card.media[..]) && buffer[..] == old(buffer[..]) && looks == old(looks)
      ensures served ==> answer == B_OK
      ensures served && isWrite ==>
                && buffer[..] == old(buffer[..])
                && PartlyWritten(card.media[..], old(card.media[..]), offset, buffer[..], 0)
                && (outcome == B_OK ==>
                      Written(card.media[..], old(card.media[..]), offset, buffer[..], buffer.Length))
      ensures served && !isWrite ==>
                && card.media[..] == old(card.media[..])
                && (outcome == B_OK ==> buffer[..] == card.media[offset..offset + buffer.Length])
    {
      hide PartlyWritten, Written;
      AcceptedExactlyOnDevice(offset, buffer.Length, card.sectorCount, card.sectorSize);
      served := false;
      if ValidateRequest(offset, buffer.Length, card.sectorCount, card.sectorSize) != B_OK {
        return B_BAD_VALUE, false, B_BAD_VALUE;
      }
      if !arrival.initialised { return B_NO_INIT, false, B_NO_INIT; }
      if !arrival.Online() { return B_DEV_NO_MEDIA, false, B_DEV_NO_MEDIA; }
      if !arrival.haveMemory { return B_NO_MEMORY, false, B_NO_MEMORY; }
      if arrival.locked != B_OK { return arrival.locked, false, arrival.locked; }
      if arrival.stopping || arrival.wordAtQueueing != arrival.wordAtEntry {
        answer := if arrival.stopping then B_CANCELED else B_DEV_NO_MEDIA;
        return answer, false, answer;
      }
      answer, served, outcome := B_OK, *, B_CANCELED;
      if served { outcome := Serve(offset, isWrite, buffer); }
    }

    predicate OnDevice(offset: int, length: nat)
      reads card
    {
      0 <= offset && offset + length <= card.media.Length
    }
  }

  lemma NothingDone(media: seq<Byte>, offset: nat, data: seq<Byte>)
    requires offset + |data| <= |media|
    ensures Written(media, media, offset, data, 0) && PartlyWritten(media, media, offset, data, 0)
    ensures Arrived(data, media, offset, 0)
  {
  }

  lemma WrittenIsPartlyWritten(media: seq<Byte>, before: seq<Byte>, offset: nat, data: seq<Byte>, done: nat)
    requires done <= |data| && Written(media, before, offset, data, done)
    ensures PartlyWritten(media, before, offset, data, done)
  {
  }

  lemma StillPartlyWritten(media: seq<Byte>, before: seq<Byte>, offset: nat, data: seq<Byte>, done: nat, more: nat)
    requires done + more <= |data| && Written(media, before, offset, data, done + more)
    ensures PartlyWritten(media, before, offset, data, done)
  {
  }

  /** Writing back the merged window advances the write by the window's share of the request, or, if
      it stops half-way, leaves a partly written request. */
  lemma MergedWrite(offset: nat, done: nat, data: seq<Byte>, chunk: Chunk, before: seq<Byte>,
                    media: seq<Byte>, merged: seq<Byte>, after: seq<Byte>, complete: bool)
    requires chunk.mediaOffset + chunk.bufferOffset == offset + done
    requires done + chunk.requestBytes <= |data|
    requires chunk.bufferOffset + chunk.requestBytes <= chunk.mediaBytes <= |merged|
    requires chunk.mediaOffset + chunk.mediaBytes <= |media| == |after| == |before|
    requires Written(media, before, offset, data, done)
    requires Merged(merged, media, data, done, chunk)
    requires Landed(after, media, merged, chunk.mediaOffset, chunk.mediaBytes, complete)
    ensures complete ==> Written(after, before, offset, data, done + chunk.requestBytes)
    ensures PartlyWritten(after, before, offset, data, done)
  {
    forall i | 0 <= i < |media|
      ensures after[i] == media[i]
           || (offset + done <= i < offset + done + chunk.requestBytes && after[i] == data[i - offset])
      ensures complete && offset + done <= i < offset + done + chunk.requestBytes ==> after[i] == data[i - offset]
    {
      if chunk.mediaOffset <= i < chunk.mediaOffset + chunk.mediaBytes {
        var k := i - chunk.mediaOffset;
        assert media[chunk.mediaOffset + k] == media[i];
      }
    }
  }
}
