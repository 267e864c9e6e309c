/** Command vocabulary and the pure policy that maps a command and the host quirks
    to its retry and time budget (Command.h). */
module Command {

  datatype Cmd =
    | GoIdleState | MmcSendOpCond | AllSendCid | SendRelativeAddr | MmcSwitch
    | SelectDeselectCard | SendIfCond | SendCsd | VoltageSwitch | StopTransmission
    | SendStatus | SetBlockLength | ReadSingleBlock | ReadMultipleBlocks
    | SdSendTuningBlock | MmcSendTuningBlock | WriteSingleBlock | WriteMultipleBlocks
    | EraseStart | EraseEnd | Erase | SdSendOpCond | AppCmd

  datatype ReplyType = NoReply | R1 | R1b | R2 | R3 | R6 | R7

  /** The two controller quirks the command policy looks at. */
  datatype Quirks = Quirks(stopTransmissionBusy: bool, cardOnNeedsBusOn: bool)

  datatype Constraints = Constraints(
    maxRetries: nat,
    timeoutMs: nat,
    validateOcr: bool,
    needsBusResetOnError: bool,
    replaySafe: bool)
  {
    /** Total attempts, the first one included. */
    function Attempts(): nat { maxRetries + 1 }
  }

  const DEFAULT_CONSTRAINTS := Constraints(0, 0, false, false, true)

  function GetCommandConstraints(command: Cmd, quirks: Quirks): Constraints {
    var c := DEFAULT_CONSTRAINTS;
    match command
    case MmcSendOpCond | SdSendOpCond => c.(maxRetries := 3, validateOcr := true)
    case AppCmd => c.(maxRetries := 3, timeoutMs := 200)
    case StopTransmission => c.(needsBusResetOnError := quirks.stopTransmissionBusy)
    case SelectDeselectCard | Erase =>
      c.(needsBusResetOnError := quirks.cardOnNeedsBusOn, maxRetries := 1, timeoutMs := 2000)
    case MmcSwitch => c.(maxRetries := 1, timeoutMs := 2000)
    case ReadSingleBlock | ReadMultipleBlocks => c.(maxRetries := 2, timeoutMs := 5000)
    case WriteSingleBlock | WriteMultipleBlocks => c.(timeoutMs := 5000, replaySafe := false)
    case _ => c
  }

  const DMA_ENABLE: bv16 := 0x01
  const BLOCK_COUNT_ENABLE: bv16 := 0x02
  const AUTO_CMD12: bv16 := 0x04
  const READ: bv16 := 0x10
  const MULTI: bv16 := 0x20

  /** Transfer Mode register value of a data command, 0 for a command without a data phase. */
  function ComputeTransferMode(command: Cmd): bv16 {
    match command
    case ReadSingleBlock => READ | DMA_ENABLE
    case ReadMultipleBlocks => READ | MULTI | AUTO_CMD12 | BLOCK_COUNT_ENABLE | DMA_ENABLE
    case WriteSingleBlock => DMA_ENABLE
    case WriteMultipleBlocks => MULTI | AUTO_CMD12 | BLOCK_COUNT_ENABLE | DMA_ENABLE
    case _ => 0
  }

  predicate IsWrite(command: Cmd) {
    command == WriteSingleBlock || command == WriteMultipleBlocks
  }

  predicate RequiresDataLineIdle(dataPresent: bool, reply: ReplyType) {
    dataPresent || reply == R1b
  }
}
