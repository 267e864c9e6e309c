/** What one call of the command worker does, as a function of what the controller answers.

    `Answers` records everything the controller, the card and the clock decided during one
    attempt; `DriveEvents` is the resulting sequence of register accesses and of looks at the clock and
    the card. `Engine` proves that the worker's loops perform exactly these accesses. */
module EngineSpec {
  import opened Command
  import opened Convergence

  /** How the caller asked for the data to move. A table outside the low 4 GiB is refused. */
  datatype Descriptors = NoTable | GoodTable | BadTable

  /** The fields of a ticket the worker reads, with the reply type already resolved. */
  datatype Ticket = Ticket(
    constraints: Constraints,
    reply: ReplyType,
    dataPresent: bool,
    tuning: bool,
    blockCount: nat,
    dmaEnable: bool,
    descriptors: Descriptors)
  {
    /** The callers' discipline: only a data command that is not a tuning block starts DMA. */
    predicate WellFormed() { dmaEnable ==> dataPresent && !tuning }

    predicate UsesTable() { dataPresent && !tuning && descriptors == GoodTable }
  }

  datatype Status = B_OK | B_ERROR | B_DEV_NOT_READY

  /** The two lines whose inhibit bits the present-state register shows. */
  datatype Line = CommandLine | DataLine

  datatype Answers = Answers(
    command: seq<bool>,      // readings of the command-inhibit bit in the grace loop
    data: seq<bool>,         // readings of the data-inhibit bit in the grace loop
    drain: seq<Word>,        // readings of the pre-issue drain
    polls: seq<Word>,        // readings from the send until a verdict or the deadline
    flush: seq<Word>,        // readings of the drain after the verdict
    ocrSane: bool,
    busy: seq<bool>)         // readings of the data-inhibit bit in the busy wait
  {
    predicate CommandInhibited() { Latest(command) }

    predicate DataInhibited() { Latest(data) }

    predicate BusyReleased() { !Latest(busy) }
  }

  predicate Latest(readings: seq<bool>) { readings != [] && readings[|readings| - 1] }

  /** One attempt, whether the card was still there after it, the decision taken, and whether a
      line reset would have worked. */
  datatype Pass = Pass(answers: Answers, cardInserted: bool, action: RetryAction, resetOk: bool)

  datatype Event =
    | LineRead(line: Line, inhibited: bool)
    | StatusRead(word: Word)
    | StatusClear(bits: Word)
    | ClockRead(expired: bool)
    | OcrRead(sane: bool)
    | CardRead(inserted: bool)
    | DmaMode(table: bool)
    | Send(dma: bool)
    | LineReset(ok: bool)
    | PowerCut
    | Done(status: Status)

  // ---- waiting for a line ------------------------------------------------------------

  const INHIBIT_GRACE_POLLS := 100
  const R1B_BUSY_POLLS := 10000

  /** The readings of one grace loop: it waits while the bit is set, for a bounded number of looks, and
      then looks once more. */
  predicate GraceReadings(readings: seq<bool>) {
    && 2 <= |readings| <= INHIBIT_GRACE_POLLS + 1
    && (forall i :: 0 <= i < |readings| - 2 ==> readings[i])
    && (|readings| <= INHIBIT_GRACE_POLLS ==> !readings[|readings| - 2])
  }

  /** A line that is free at once. */
  const FREE := [false, false]

  /** The readings of one busy wait: it stops at the first clear one, or gives up. */
  predicate BusyReadings(readings: seq<bool>) {
    && 1 <= |readings| <= R1B_BUSY_POLLS
    && (forall i :: 0 <= i < |readings| - 1 ==> readings[i])
    && (|readings| < R1B_BUSY_POLLS ==> !readings[|readings| - 1])
  }

  function LineEvents(line: Line, readings: seq<bool>): seq<Event> {
    seq(|readings|, i requires 0 <= i < |readings| => LineRead(line, readings[i]))
  }

  // ---- the drain and the poll loop ---------------------------------------------------

  /** The readings of one bounded drain: it goes on while something was acknowledged, for at most
      four rounds. */
  predicate DrainReadings(words: seq<Word>) {
    && 1 <= |words| <= 5
    && (forall i :: 0 <= i < |words| - 1 ==> BitsToAcknowledge(words[i]) != EMPTY)
    && (|words| < 5 ==> BitsToAcknowledge(words[|words| - 1]) == EMPTY)
  }

  function DrainEvents(words: seq<Word>): seq<Event>
    requires |words| > 0
  {
    if |words| == 1 then [StatusRead(words[0])]
    else
      DrainEvents(words[..|words| - 1])
      + [StatusClear(BitsToAcknowledge(words[|words| - 2])), StatusRead(words[|words| - 1])]
  }

  function Verdict(t: Ticket, words: seq<Word>): PollVerdict {
    ClassifyPoll(Evidence(words), t.dataPresent, t.tuning)
  }

  /** The readings of one poll loop: every one but the last left the verdict open. */
  predicate PollReadings(t: Ticket, words: seq<Word>) {
    && 1 <= |words|
    && forall i :: 0 < i < |words| ==> Verdict(t, words[..i]) == KeepPolling
  }

  function PollStep(word: Word): seq<Event> {
    [StatusRead(word)]
    + (if BitsToAcknowledge(word) == EMPTY then [] else [StatusClear(BitsToAcknowledge(word))])
  }

  /** Looks that left the verdict open, each with a look at the clock. */
  function WaitEvents(words: seq<Word>): seq<Event> {
    if words == [] then []
    else WaitEvents(words[..|words| - 1]) + PollStep(words[|words| - 1]) + [ClockRead(false)]
  }

  /** The poll loop: only an expired clock ends it without a verdict. */
  function PollEvents(t: Ticket, words: seq<Word>): seq<Event>
    requires |words| > 0
  {
    WaitEvents(words[..|words| - 1]) + PollStep(words[|words| - 1])
    + (if Verdict(t, words) == KeepPolling then [ClockRead(true)] else [])
  }

  // ---- one attempt -------------------------------------------------------------------

  /** The line is free and the descriptor table is addressable. */
  predicate Admitted(t: Ticket, a: Answers) {
    && !a.CommandInhibited()
    && !(RequiresDataLineIdle(t.dataPresent, t.reply) && a.DataInhibited())
    && !(t.dataPresent && !t.tuning && t.descriptors == BadTable)
  }

  predicate Issued(t: Ticket, a: Answers)
    requires |a.drain| > 0
  {
    Admitted(t, a) && BitsToAcknowledge(a.drain[|a.drain| - 1]) == EMPTY
  }

  /** The engine's switch from a terminal verdict, or an open one at the deadline, to a result. */
  function ResultOf(verdict: PollVerdict, spuriousOcr: bool): AttemptResult {
    match verdict
    case CommandCompleted | TransferCompleted | BufferReady => if spuriousOcr then SpuriousOcr else Ok
    case CommandTimedOut | KeepPolling => CommandTimeout
    case DataTimedOut => DataTimeout
    case DataCrcFault => DataCrc
    case AdmaFault => AdmaError
    case HardError => Error
  }

  function Classify(t: Ticket, a: Answers): AttemptResult {
    ResultOf(Verdict(t, a.polls), t.constraints.validateOcr && !a.ocrSane)
  }

  predicate IsSuccessVerdict(v: PollVerdict) {
    v == CommandCompleted || v == TransferCompleted || v == BufferReady
  }

  /** The verdict is one of success, so the OCR is looked at where it is judged. */
  predicate JudgesOcr(t: Ticket, a: Answers) {
    t.constraints.validateOcr && IsSuccessVerdict(Verdict(t, a.polls))
  }

  predicate WaitsForBusy(t: Ticket, a: Answers) { Classify(t, a) == Ok && t.reply == R1b }

  function Outcome(t: Ticket, a: Answers): AttemptResult
    requires |a.drain| > 0
  {
    if !Issued(t, a) then Busy
    else if WaitsForBusy(t, a) && !a.BusyReleased() then DataTimeout
    else Classify(t, a)
  }

  function Action(t: Ticket, a: Answers, attempt: nat, cardInserted: bool): RetryAction
    requires |a.drain| > 0
  {
    DecideRetry(Outcome(t, a), attempt, t.constraints.Attempts(), t.constraints, cardInserted)
  }

  predicate LegalAnswers(t: Ticket, a: Answers) {
    && GraceReadings(a.command) && GraceReadings(a.data) && BusyReadings(a.busy)
    && |a.drain| > 0 && DrainReadings(a.drain)
    && |a.polls| > 0 && PollReadings(t, a.polls)
    && |a.flush| > 0 && DrainReadings(a.flush)
  }

  /** The grace loops; the data line is looked at only if it matters and the command line is free. */
  function GraceEvents(t: Ticket, a: Answers): seq<Event> {
    LineEvents(CommandLine, a.command)
    + (if !a.CommandInhibited() && RequiresDataLineIdle(t.dataPresent, t.reply)
       then LineEvents(DataLine, a.data) else [])
  }

  /** The accesses up to the send. */
  function BeforeSend(t: Ticket, a: Answers): seq<Event>
    requires |a.drain| > 0
  {
    GraceEvents(t, a)
    + (if !Admitted(t, a) then []
       else (if t.UsesTable() then [DmaMode(true)] else []) + DrainEvents(a.drain))
  }

  function IssueEvents(t: Ticket, a: Answers): seq<Event>
    requires |a.drain| > 0
  {
    BeforeSend(t, a) + (if Issued(t, a) then [Send(t.dmaEnable)] else [])
  }

  /** From the verdict to the outcome: the OCR, the flush, and the busy line. */
  function VerdictEvents(t: Ticket, a: Answers): seq<Event>
    requires |a.flush| > 0
  {
    (if JudgesOcr(t, a) then [OcrRead(a.ocrSane)] else [])
    + DrainEvents(a.flush)
    + (if WaitsForBusy(t, a) then LineEvents(DataLine, a.busy) else [])
  }

  function SentEvents(t: Ticket, a: Answers): seq<Event>
    requires |a.polls| > 0 && |a.flush| > 0
  {
    PollEvents(t, a.polls) + VerdictEvents(t, a)
  }

  function AttemptEvents(t: Ticket, a: Answers, cardInserted: bool): seq<Event>
    requires |a.drain| > 0 && |a.polls| > 0 && |a.flush| > 0
  {
    IssueEvents(t, a)
    + (if Issued(t, a) then SentEvents(t, a) else [])
    + [CardRead(cardInserted)]
    + (if Admitted(t, a) && t.UsesTable() then [DmaMode(false)] else [])
  }

  /** The decision ends the transaction. */
  predicate IsFinal(action: RetryAction, resetOk: bool) {
    !(action == Retry || (action == RetryResetLines && resetOk))
  }

  function FinalStatus(t: Ticket, action: RetryAction, resetOk: bool): Status {
    match action
    case Succeed => B_OK
    case Fail => if t.dataPresent && !resetOk then B_DEV_NOT_READY else B_ERROR
    case RetryResetLines | ResetAndReidentify => B_DEV_NOT_READY
    case Retry => B_ERROR
  }

  /** What follows the attempt itself: recovery, and the completion mark when it is final. */
  function RecoveryEvents(t: Ticket, action: RetryAction, resetOk: bool): seq<Event> {
    match action
    case Succeed => [Done(B_OK)]
    case Fail =>
      (if !t.dataPresent then [] else if resetOk then [LineReset(true)] else [LineReset(false), PowerCut])
      + [Done(FinalStatus(t, action, resetOk))]
    case RetryResetLines =>
      if resetOk then [LineReset(true)] else [LineReset(false), PowerCut, Done(B_DEV_NOT_READY)]
    case ResetAndReidentify => [PowerCut, Done(B_DEV_NOT_READY)]
    case Retry => []
  }

  // ---- the whole transaction ---------------------------------------------------------

  predicate ZeroBlocks(t: Ticket) { t.dataPresent && t.blockCount == 0 }

  predicate LegalPass(t: Ticket, p: Pass, attempt: nat) {
    LegalAnswers(t, p.answers) && p.action == Action(t, p.answers, attempt, p.cardInserted)
  }

  /** `run` is a complete run of the retry loop: every attempt but the last is followed by another. */
  predicate LegalRun(t: Ticket, run: seq<Pass>) {
    && (forall k :: 0 <= k < |run| ==> LegalPass(t, run[k], k))
    && (if ZeroBlocks(t) then run == []
        else
          && 1 <= |run| <= t.constraints.Attempts()
          && (forall k :: 0 <= k < |run| - 1 ==> !IsFinal(run[k].action, run[k].resetOk))
          && IsFinal(run[|run| - 1].action, run[|run| - 1].resetOk))
  }

  function PassEvents(t: Ticket, p: Pass): seq<Event>
    requires LegalAnswers(t, p.answers)
  {
    AttemptEvents(t, p.answers, p.cardInserted) + RecoveryEvents(t, p.action, p.resetOk)
  }

  function RunEvents(t: Ticket, run: seq<Pass>): seq<Event>
    requires forall k :: 0 <= k < |run| ==> LegalPass(t, run[k], k)
  {
    if run == [] then []
    else
      var last := |run| - 1;
      assert LegalPass(t, run[last], last);
      RunEvents(t, run[..last]) + PassEvents(t, run[last])
  }

  function DriveEvents(t: Ticket, run: seq<Pass>): seq<Event>
    requires LegalRun(t, run)
  {
    if ZeroBlocks(t) then [Done(B_OK)] else RunEvents(t, run)
  }

  function DriveStatus(t: Ticket, run: seq<Pass>): Status
    requires LegalRun(t, run)
  {
    if ZeroBlocks(t) then B_OK else FinalStatus(t, run[|run| - 1].action, run[|run| - 1].resetOk)
  }
}
