/** How a caller's command becomes the ticket the worker drives. */
module EngineSubmit {
  import opened Command
  import opened EngineSpec

  /** What a caller stages for the data phase. A transfer mode of 0 leaves the mode to the command. */
  datatype DataTransfer = DataTransfer(
    blockCount: nat,
    descriptors: Descriptors,
    tuning: bool,
    transferMode: bv16)

  datatype Option<T> = None | Some(value: T)

  function TransferModeOf(command: Cmd, data: Option<DataTransfer>): bv16 {
    if data.Some? && data.value.transferMode != 0 then data.value.transferMode
    else ComputeTransferMode(command)
  }

  function Submit(command: Cmd, reply: ReplyType, constraints: Constraints, data: Option<DataTransfer>): Ticket {
    var mode := TransferModeOf(command, data);
    match data
    case None => Ticket(constraints, reply, mode != 0, false, 0, mode & DMA_ENABLE != 0, NoTable)
    case Some(d) =>
      Ticket(constraints, reply, true, d.tuning, d.blockCount, mode & DMA_ENABLE != 0, d.descriptors)
  }

  /** The policy, field by field; the timeouts it names add up to 15 seconds at most. */
  lemma ConstraintsMean(command: Cmd, quirks: Quirks)
    ensures var c := GetCommandConstraints(command, quirks);
      && (c.replaySafe <==> !IsWrite(command))
      && (c.validateOcr <==> command in {MmcSendOpCond, SdSendOpCond})
      && (c.needsBusResetOnError <==>
            || (command == StopTransmission && quirks.stopTransmissionBusy)
            || (command in {SelectDeselectCard, Erase} && quirks.cardOnNeedsBusOn))
      && (c.Attempts() == 4 <==> command in {MmcSendOpCond, SdSendOpCond, AppCmd})
      && (c.Attempts() == 3 <==> IsRead(command))
      && (c.Attempts() == 2 <==> command in {SelectDeselectCard, Erase, MmcSwitch})
      && 1 <= c.Attempts() <= 4 && c.Attempts() * c.timeoutMs <= 15_000
  {
  }

  /** The only way to submit a ticket outside the callers' discipline is a tuning block whose
      transfer mode starts DMA. */
  lemma WellFormedExactly(command: Cmd, reply: ReplyType, constraints: Constraints, data: Option<DataTransfer>)
    ensures Submit(command, reply, constraints, data).WellFormed()
       <==> !(data.Some? && data.value.tuning && TransferModeOf(command, data) & DMA_ENABLE != 0)
  {
    if TransferModeOf(command, data) == 0 { assert (0 as bv16) & DMA_ENABLE == 0; }
  }

  /** The transfers the driver stages: a plain command has none, a tuning block only reads, the
      EXT_CSD read names its own mode, and the two disks leave the mode to the command. */
  predicate Staged(data: Option<DataTransfer>) {
    data.Some? ==>
      (if data.value.tuning then data.value.transferMode == READ
       else data.value.transferMode in {0, READ | DMA_ENABLE})
  }

  /** Every ticket the driver submits keeps the discipline. DMA is started by the data commands and
      by the EXT_CSD read, and by no tuning block. */
  lemma StagedTicketsAreWellFormed(command: Cmd, reply: ReplyType, constraints: Constraints,
                                   data: Option<DataTransfer>)
    requires Staged(data)
    ensures var t := Submit(command, reply, constraints, data);
      && t.WellFormed()
      && (t.dmaEnable <==>
            !t.tuning && (ComputeTransferMode(command) != 0 || (data.Some? && data.value.transferMode != 0)))
  {
    WellFormedExactly(command, reply, constraints, data);
    DataCommandsStartDma(command);
    assert READ & DMA_ENABLE == 0 && (READ | DMA_ENABLE) & DMA_ENABLE != 0;
  }

  lemma DataCommandsStartDma(command: Cmd)
    ensures ComputeTransferMode(command) & DMA_ENABLE != 0 <==> ComputeTransferMode(command) != 0
  {
  }

  predicate IsRead(command: Cmd) { command == ReadSingleBlock || command == ReadMultipleBlocks }

  predicate IsMultiple(command: Cmd) { command == ReadMultipleBlocks || command == WriteMultipleBlocks }

  predicate Has(mode: bv16, bit: bv16) { mode & bit != 0 }

  /** Every bit of the transfer mode, for every command: reads and only reads move data towards the
      host, and a command of several blocks and only such a one counts blocks and stops by itself. */
  lemma TransferModeMeans(command: Cmd)
    ensures var mode := ComputeTransferMode(command);
      && (Has(mode, READ) <==> IsRead(command))
      && (Has(mode, MULTI) <==> IsMultiple(command))
      && (Has(mode, BLOCK_COUNT_ENABLE) <==> IsMultiple(command))
      && (Has(mode, AUTO_CMD12) <==> IsMultiple(command))
      && (Has(mode, DMA_ENABLE) <==> IsRead(command) || IsWrite(command))
      && (mode == 0 <==> !IsRead(command) && !IsWrite(command))
      && mode & !(READ | MULTI | BLOCK_COUNT_ENABLE | AUTO_CMD12 | DMA_ENABLE) == 0
  {
    match command
    case ReadSingleBlock =>
    case ReadMultipleBlocks =>
    case WriteSingleBlock =>
    case WriteMultipleBlocks =>
    case _ =>
  }
}
