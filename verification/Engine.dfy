/** The command worker's retry loop over the controller's registers (SdhciEngine.cpp).

    Every register read, the card and the clock answer arbitrarily; `log` is the history of the
    accesses that matter to the protocol. The loops are proved to follow `EngineSpec`. */
module Engine {
  import opened Command
  import opened Convergence
  import opened EngineSpec

  const DRAIN_PASSES := 4

  /** A reference-counted ticket. The request is immutable once published; the result is written
      by the worker before the done mark. The object is gone when the count reaches zero. */
  class Transaction {
    const request: Ticket
    var refCount: nat
    var done: bool
    var result: Status

    constructor (request: Ticket)
      ensures this.request == request && refCount == 1 && !done
    {
      this.request := request;
      refCount, done, result := 1, false, B_OK;
    }

    method Retain()
      requires refCount > 0
      modifies this`refCount
      ensures refCount == old(refCount) + 1
    {
      refCount := refCount + 1;
    }

    method Release() returns (freed: bool)
      requires refCount > 0
      modifies this`refCount
      ensures refCount == old(refCount) - 1 && (freed <==> refCount == 0)
    {
      refCount := refCount - 1;
      freed := refCount == 0;
    }

    method MarkDone(status: Status)
      modifies this`done, this`result
      ensures done && result == status
    {
      result := status;
      done := true;
    }
  }

  class SdhciEngine {
    ghost var log: seq<Event>

    // ---- registers: the controller is free to answer anything -------------------------

    method ReadInterruptStatus() returns (word: Word)
      modifies this
      ensures log == old(log) + [StatusRead(word)]
    {
      word := *;
      log := log + [StatusRead(word)];
    }

    method WriteInterruptStatus(bits: Word)
      modifies this
      ensures log == old(log) + [StatusClear(bits)]
    {
      log := log + [StatusClear(bits)];
    }

    /** One inhibit bit of the present-state register. */
    method ReadInhibit(line: Line) returns (inhibited: bool)
      modifies this
      ensures log == old(log) + [LineRead(line, inhibited)]
    {
      inhibited := *;
      log := log + [LineRead(line, inhibited)];
    }

    /** The deadline passes after `lapses` more looks at the latest. */
    method ReadClock(lapses: nat) returns (expired: bool)
      modifies this
      ensures log == old(log) + [ClockRead(expired)]
      ensures lapses == 0 ==> expired
    {
      expired := *;
      expired := expired || lapses == 0;
      log := log + [ClockRead(expired)];
    }

    /** The response register as the personality judges it. */
    method ReadOcr() returns (sane: bool)
      modifies this
      ensures log == old(log) + [OcrRead(sane)]
    {
      sane := *;
      log := log + [OcrRead(sane)];
    }

    method ReadCardInserted() returns (inserted: bool)
      modifies this
      ensures log == old(log) + [CardRead(inserted)]
    {
      inserted := *;
      log := log + [CardRead(inserted)];
    }

    method SetDmaMode(table: bool)
      modifies this
      ensures log == old(log) + [DmaMode(table)]
    {
      log := log + [DmaMode(table)];
    }

    method SendCommand(t: Ticket)
      modifies this
      ensures log == old(log) + [Send(t.dmaEnable)]
    {
      log := log + [Send(t.dmaEnable)];
    }

    method ResetCommandAndDataLines() returns (ok: bool)
      modifies this
      ensures log == old(log) + [LineReset(ok)]
    {
      ok := *;
      log := log + [LineReset(ok)];
    }

    method TerminateAndRestoreBus()
      modifies this
      ensures log == old(log) + [PowerCut]
    {
      log := log + [PowerCut];
    }

    // ---- hardware sequences -----------------------------------------------------------

    method DrainInterrupts() returns (status: Word, ghost words: seq<Word>)
      modifies this
      ensures |words| > 0 && DrainReadings(words) && status == words[|words| - 1]
      ensures log == old(log) + DrainEvents(words)
    {
      status := ReadInterruptStatus();
      words := [status];
      for pass := 0 to DRAIN_PASSES
        invariant |words| == pass + 1 && status == words[|words| - 1]
        invariant forall i :: 0 <= i < |words| - 1 ==> BitsToAcknowledge(words[i]) != EMPTY
        invariant log == old(log) + DrainEvents(words)
      {
        var clear := BitsToAcknowledge(status);
        if clear == EMPTY { break; }
        WriteInterruptStatus(clear);
        ghost var before := words;
        status := ReadInterruptStatus();
        words := words + [status];
        assert words[..|words| - 1] == before;
      }
    }

    /** One snapshot of the status register, acknowledged at once. */
    method ReadAndClearInterrupts() returns (snapshot: Word)
      modifies this
      ensures log == old(log) + PollStep(snapshot)
    {
      snapshot := ReadInterruptStatus();
      var clear := BitsToAcknowledge(snapshot);
      if clear != EMPTY {
        WriteInterruptStatus(clear);
      }
    }

    /** Waits a bounded number of looks for an inhibit bit to clear and answers with a last one. */
    method GracePolls(line: Line) returns (inhibited: bool, ghost readings: seq<bool>)
      modifies this
      ensures GraceReadings(readings) && inhibited == Latest(readings)
      ensures log == old(log) + LineEvents(line, readings)
    {
      readings := [];
      for i := 0 to INHIBIT_GRACE_POLLS
        invariant |readings| == i && forall k :: 0 <= k < i ==> readings[k]
        invariant log == old(log) + LineEvents(line, readings)
      {
        var busy := ReadInhibit(line);
        OneMoreReading(line, readings, busy);
        readings := readings + [busy];
        if !busy { break; }
      }
      inhibited := ReadInhibit(line);
      OneMoreReading(line, readings, inhibited);
      readings := readings + [inhibited];
    }

    /** Waits for the card to release the data line. */
    method WaitForR1bBusy() returns (released: bool, ghost readings: seq<bool>)
      modifies this
      ensures BusyReadings(readings) && released == !Latest(readings)
      ensures log == old(log) + LineEvents(DataLine, readings)
    {
      readings := [];
      for i := 0 to R1B_BUSY_POLLS
        invariant |readings| == i && forall k :: 0 <= k < i ==> readings[k]
        invariant log == old(log) + LineEvents(DataLine, readings)
      {
        var inhibited := ReadInhibit(DataLine);
        OneMoreReading(DataLine, readings, inhibited);
        readings := readings + [inhibited];
        if !inhibited { return true, readings; }
      }
      return false, readings;
    }

    lemma OneMoreReading(line: Line, readings: seq<bool>, inhibited: bool)
      ensures LineEvents(line, readings + [inhibited]) == LineEvents(line, readings) + [LineRead(line, inhibited)]
    {
    }

    /** Programs and sends one attempt. `a` receives the answers met on the way. */
    method IssueToHardware(t: Ticket) returns (issued: bool, usedTable: bool, ghost a: Answers)
      modifies this
      ensures LegalAnswers(t, a) && issued == Issued(t, a)
      ensures usedTable == (Admitted(t, a) && t.UsesTable())
      ensures log == old(log) + IssueEvents(t, a)
    {
      hide GraceReadings, BusyReadings, DrainReadings, PollReadings, LineEvents, DrainEvents, BitsToAcknowledge;
      usedTable, issued := false, false;
      a := Answers(FREE, FREE, [EMPTY], [EMPTY], [EMPTY], true, [false]);
      NothingMet(t, a);
      var inhibited;
      ghost var readings;
      inhibited, readings := GracePolls(CommandLine);
      a := a.(command := readings);
      if inhibited { return; }
      if RequiresDataLineIdle(t.dataPresent, t.reply) {
        inhibited, readings := GracePolls(DataLine);
        a := a.(data := readings);
        if inhibited { return; }
      }
      if t.dataPresent && !t.tuning && t.descriptors != NoTable {
        if t.descriptors == BadTable { return; }
        SetDmaMode(true);
        usedTable := true;
      }
      ghost var words;
      var residual;
      residual, words := DrainInterrupts();
      a := a.(drain := words);
      if BitsToAcknowledge(residual) != EMPTY { return; }
      SendCommand(t);
      issued := true;
    }

    /** The heart of the attempt: look, acknowledge, accumulate, and sleep again until a verdict or
        the deadline. */
    method PollToVerdict(t: Ticket) returns (verdict: PollVerdict, ghost words: seq<Word>)
      modifies this
      ensures |words| > 0 && PollReadings(t, words) && verdict == Verdict(t, words)
      ensures log == old(log) + PollEvents(t, words)
    {
      hide PollStep, ClassifyPoll, Accumulate, Evidence, Verdict, WaitEvents, PollEvents;
      NothingSeen();
      words := [];
      var lapses: nat := *;
      var accumulated := EMPTY;
      while true
        invariant accumulated == Evidence(words)
        invariant forall i :: 0 < i <= |words| ==> Verdict(t, words[..i]) == KeepPolling
        invariant log == old(log) + WaitEvents(words)
        decreases lapses
      {
        var snapshot := ReadAndClearInterrupts();
        ghost var before := words;
        words := words + [snapshot];
        NextLook(t, before, snapshot);
        assert forall i :: 0 < i < |words| ==> words[..i] == before[..i];
        accumulated := Accumulate(accumulated, snapshot);
        verdict := ClassifyPoll(accumulated, t.dataPresent, t.tuning);
        if verdict != KeepPolling { break; }
        var expired := ReadClock(lapses);
        if expired { break; }
        assert words[..|words|] == words;
        lapses := lapses - 1;
      }
    }

    lemma NothingSeen()
      ensures Evidence([]) == EMPTY && WaitEvents([]) == []
    {
    }

    /** What one more look adds to the evidence and to the accesses. */
    lemma NextLook(t: Ticket, before: seq<Word>, snapshot: Word)
      ensures var words := before + [snapshot];
        && Evidence(words) == Accumulate(Evidence(before), snapshot)
        && Verdict(t, words) == ClassifyPoll(Evidence(words), t.dataPresent, t.tuning)
        && WaitEvents(words) == WaitEvents(before) + PollStep(snapshot) + [ClockRead(false)]
        && PollEvents(t, words) == WaitEvents(before) + PollStep(snapshot)
             + (if Verdict(t, words) == KeepPolling then [ClockRead(true)] else [])
    {
      assert (before + [snapshot])[..|before|] == before;
    }

    /** Polls, classifies, flushes and waits out the busy line of an issued attempt. */
    method ExecuteAttempt(t: Ticket, ghost issue: Answers) returns (outcome: AttemptResult, ghost a: Answers)
      requires LegalAnswers(t, issue) && Issued(t, issue)
      modifies this
      ensures LegalAnswers(t, a) && outcome == Outcome(t, a)
      ensures a.command == issue.command && a.data == issue.data && a.drain == issue.drain
      ensures log == old(log) + SentEvents(t, a)
    {
      hide GraceReadings, BusyReadings, DrainReadings, PollReadings, LineEvents, DrainEvents, PollEvents,
           Evidence, ClassifyPoll, BitsToAcknowledge, Admitted;
      ghost var polls, flush, busy;
      var verdict, residual, released;
      verdict, polls := PollToVerdict(t);
      var ocrSane := true;
      if t.constraints.validateOcr && IsSuccessVerdict(verdict) {
        ocrSane := ReadOcr();
      }
      outcome := ResultOf(verdict, t.constraints.validateOcr && !ocrSane);
      residual, flush := DrainInterrupts();
      busy := [false];
      OneBusyReading();
      if outcome == Ok && t.reply == R1b {
        released, busy := WaitForR1bBusy();
        if !released { outcome := DataTimeout; }
      }
      a := issue.(polls := polls, flush := flush, ocrSane := ocrSane, busy := busy);
      SameIssue(t, issue, a);
    }

    /** One pass of the retry loop up to its decision. */
    method RunAttempt(t: Ticket, attempt: nat)
      returns (action: RetryAction, cardInserted: bool, ghost a: Answers)
      modifies this
      ensures LegalAnswers(t, a) && action == Action(t, a, attempt, cardInserted)
      ensures log == old(log) + AttemptEvents(t, a, cardInserted)
    {
      hide DecideRetry, Classify, WaitsForBusy, BeforeSend, SentEvents, Admitted, BitsToAcknowledge,
           GraceReadings, BusyReadings, DrainReadings, PollReadings;
      var outcome := Busy;
      var issued, usedTable;
      issued, usedTable, a := IssueToHardware(t);
      if issued {
        ghost var issue := a;
        outcome, a := ExecuteAttempt(t, issue);
        SameIssue(t, issue, a);
      }
      cardInserted := ReadCardInserted();
      action := DecideRetry(outcome, attempt, t.constraints.Attempts(), t.constraints, cardInserted);
      if usedTable { SetDmaMode(false); }
    }

    /** Acts on the decision: either the line is ready for another attempt, or the ticket is done. */
    method Recover(txn: Transaction, action: RetryAction) returns (final: bool, resetOk: bool)
      modifies this, txn`done, txn`result
      ensures final == IsFinal(action, resetOk)
      ensures if final then txn.done && txn.result == FinalStatus(txn.request, action, resetOk)
              else unchanged(txn)
      ensures log == old(log) + RecoveryEvents(txn.request, action, resetOk)
    {
      resetOk := true;
      match action {
        case Succeed =>
          MarkDone(txn, B_OK);
          return true, resetOk;
        case Fail =>
          var failure := B_ERROR;
          if txn.request.dataPresent {
            resetOk := ResetCommandAndDataLines();
            if !resetOk {
              TerminateAndRestoreBus();
              failure := B_DEV_NOT_READY;
            }
          }
          MarkDone(txn, failure);
          return true, resetOk;
        case RetryResetLines =>
          resetOk := ResetCommandAndDataLines();
          if !resetOk {
            TerminateAndRestoreBus();
            MarkDone(txn, B_DEV_NOT_READY);
            return true, resetOk;
          }
        case ResetAndReidentify =>
          TerminateAndRestoreBus();
          MarkDone(txn, B_DEV_NOT_READY);
          return true, resetOk;
        case Retry =>
      }
      return false, resetOk;
    }

    method MarkDone(txn: Transaction, status: Status)
      modifies this, txn`done, txn`result
      ensures txn.done && txn.result == status
      ensures log == old(log) + [Done(status)]
    {
      txn.MarkDone(status);
      log := log + [Done(status)];
    }

    /** One command, driven to convergence. The call performs exactly the register accesses that
        `EngineSpec` derives from the answers it met, and marks the ticket with that status. */
    method DriveTransaction(txn: Transaction) returns (ghost run: seq<Pass>)
      modifies this, txn`done, txn`result
      ensures LegalRun(txn.request, run)
      ensures log == old(log) + DriveEvents(txn.request, run)
      ensures txn.done && txn.result == DriveStatus(txn.request, run)
    {
      hide AttemptEvents, Action, RecoveryEvents, LegalAnswers, FinalStatus;
      var t := txn.request;
      var maxAttempts := t.constraints.Attempts();
      run := [];
      if t.dataPresent && t.blockCount == 0 {
        MarkDone(txn, B_OK);
        return;
      }
      var attempt := 0;
      while attempt < maxAttempts
        invariant |run| == attempt < maxAttempts
        invariant forall k :: 0 <= k < |run| ==> LegalPass(t, run[k], k) && !IsFinal(run[k].action, run[k].resetOk)
        invariant log == old(log) + RunEvents(t, run)
      {
        ghost var before := run;
        var action, cardInserted, final, resetOk;
        ghost var a;
        action, cardInserted, a := RunAttempt(t, attempt);
        final, resetOk := Recover(txn, action);
        run := run + [Pass(a, cardInserted, action, resetOk)];
        assert run[..|run| - 1] == before;
        if final { return; }
        if attempt + 1 == maxAttempts { LastAttemptIsFinal(t, a, attempt, cardInserted); }
        attempt := attempt + 1;
      }
      // The last attempt always succeeds or fails, so the loop never runs out.
      assert false;
    }

    lemma OneBusyReading()
      ensures BusyReadings([false])
    {
    }

    lemma NothingMet(t: Ticket, a: Answers)
      requires a == Answers(FREE, FREE, [EMPTY], [EMPTY], [EMPTY], true, [false])
      ensures LegalAnswers(t, a)
    {
    }

    /** The issue phase depends only on the inhibit readings and the drain. */
    lemma SameIssue(t: Ticket, a: Answers, b: Answers)
      requires |a.drain| > 0 && a.drain == b.drain
      requires a.command == b.command && a.data == b.data
      ensures Issued(t, a) == Issued(t, b) && Admitted(t, a) == Admitted(t, b)
      ensures IssueEvents(t, a) == IssueEvents(t, b)
    {
    }
  }

  /** With the budget spent, every outcome is decided as success or failure. */
  lemma LastAttemptIsFinal(t: Ticket, a: Answers, attempt: nat, cardInserted: bool)
    requires LegalAnswers(t, a) && attempt + 1 >= t.constraints.Attempts()
    ensures Action(t, a, attempt, cardInserted) in {Succeed, Fail}
  {
  }
}
