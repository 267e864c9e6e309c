/** What every run of the retry loop guarantees: bounded sends, evidence behind every success,
    and no DMA left running when the ticket is marked done. */
module EngineTheorems {
  import opened Command
  import opened Convergence
  import opened EngineSpec

  // ---- counting register accesses ----------------------------------------------------

  predicate IsSend(e: Event) { e.Send? }

  predicate IsDone(e: Event) { e.Done? }

  /** A look at something, or an acknowledgement. */
  predicate IsLook(e: Event) {
    e.LineRead? || e.StatusRead? || e.StatusClear? || e.ClockRead? || e.OcrRead? || e.CardRead?
  }

  function Count(es: seq<Event>, kind: Event -> bool): nat {
    if es == [] then 0
    else Count(es[..|es| - 1], kind) + (if kind(es[|es| - 1]) then 1 else 0)
  }

  lemma {:induction false} CountAppend(a: seq<Event>, b: seq<Event>, kind: Event -> bool)
    ensures Count(a + b, kind) == Count(a, kind) + Count(b, kind)
  {
    if b == [] {
      assert a + b == a;
    } else {
      assert (a + b)[..|a + b| - 1] == a + b[..|b| - 1];
      CountAppend(a, b[..|b| - 1], kind);
    }
  }

  lemma {:induction false} CountNone(es: seq<Event>, kind: Event -> bool)
    requires forall e :: e in es ==> !kind(e)
    ensures Count(es, kind) == 0
  {
    if es != [] { CountNone(es[..|es| - 1], kind); }
  }

  lemma {:induction false} DrainOnlyLooks(words: seq<Word>)
    requires |words| > 0
    ensures forall e :: e in DrainEvents(words) ==> IsLook(e)
  {
    if |words| > 1 { DrainOnlyLooks(words[..|words| - 1]); }
  }

  lemma {:induction false} WaitOnlyLooks(words: seq<Word>)
    ensures forall e :: e in WaitEvents(words) ==> IsLook(e)
  {
    if words != [] { WaitOnlyLooks(words[..|words| - 1]); }
  }

  lemma PollOnlyLooks(t: Ticket, words: seq<Word>)
    requires |words| > 0
    ensures forall e :: e in PollEvents(t, words) ==> IsLook(e)
  {
    hide WaitEvents, Verdict, BitsToAcknowledge;
    WaitOnlyLooks(words[..|words| - 1]);
  }

  /** What follows the polls up to the decision: the OCR, the drain and the busy line of a sent
      command, the card, and the return to the default DMA mode. */
  function Settle(t: Ticket, p: Pass): seq<Event>
    requires LegalAnswers(t, p.answers)
  {
    (if Issued(t, p.answers) then VerdictEvents(t, p.answers) else [])
    + [CardRead(p.cardInserted)]
    + (if Admitted(t, p.answers) && t.UsesTable() then [DmaMode(false)] else [])
  }

  function AfterPolls(t: Ticket, p: Pass): seq<Event>
    requires LegalAnswers(t, p.answers)
  {
    Settle(t, p) + RecoveryEvents(t, p.action, p.resetOk)
  }

  lemma BeforeSendOnlyLooks(t: Ticket, a: Answers)
    requires |a.drain| > 0
    ensures forall e :: e in BeforeSend(t, a) ==> IsLook(e) || e.DmaMode?
  {
    hide DrainEvents, Admitted;
    DrainOnlyLooks(a.drain);
  }

  lemma VerdictOnlyLooks(t: Ticket, a: Answers)
    requires |a.flush| > 0
    ensures forall e :: e in VerdictEvents(t, a) ==> IsLook(e)
  {
    hide DrainEvents, WaitsForBusy, JudgesOcr;
    DrainOnlyLooks(a.flush);
  }

  lemma AuxiliaryAccesses(t: Ticket, p: Pass)
    requires LegalAnswers(t, p.answers)
    ensures forall e :: e in BeforeSend(t, p.answers) ==> IsLook(e) || e.DmaMode?
    ensures forall e :: e in Settle(t, p) ==> IsLook(e) || e.DmaMode?
    ensures forall e :: e in PollEvents(t, p.answers.polls) ==> IsLook(e)
  {
    hide GraceReadings, BusyReadings, PollReadings, DrainReadings, VerdictEvents, PollEvents, BeforeSend;
    BeforeSendOnlyLooks(t, p.answers);
    VerdictOnlyLooks(t, p.answers);
    PollOnlyLooks(t, p.answers.polls);
  }

  lemma PassShape(t: Ticket, p: Pass)
    requires LegalAnswers(t, p.answers)
    ensures PassEvents(t, p) == BeforeSend(t, p.answers)
              + (if Issued(t, p.answers) then [Send(t.dmaEnable)] + PollEvents(t, p.answers.polls) else [])
              + AfterPolls(t, p)
  {
    hide GraceReadings, BusyReadings, PollReadings, DrainReadings, Admitted, Issued, BeforeSend, PollEvents,
         VerdictEvents, RecoveryEvents;
  }

  /** Everything in a pass other than the send and the recovery is status and mode access. */
  lemma PassCount(t: Ticket, p: Pass, kind: Event -> bool)
    requires LegalAnswers(t, p.answers)
    requires forall e: Event :: IsLook(e) || e.DmaMode? ==> !kind(e)
    ensures Count(PassEvents(t, p), kind)
         == (if Issued(t, p.answers) && kind(Send(t.dmaEnable)) then 1 else 0)
            + Count(RecoveryEvents(t, p.action, p.resetOk), kind)
  {
    hide GraceReadings, BusyReadings, PollReadings, DrainReadings, BitsToAcknowledge, RecoveryEvents, PassEvents,
         BeforeSend, Settle, PollEvents;
    var a := p.answers;
    PassShape(t, p);
    AuxiliaryAccesses(t, p);
    var pre := BeforeSend(t, a);
    var send: seq<Event> := if Issued(t, a) then [Send(t.dmaEnable)] else [];
    var polls: seq<Event> := if Issued(t, a) then PollEvents(t, a.polls) else [];
    var quiet := Settle(t, p);
    var rec := RecoveryEvents(t, p.action, p.resetOk);
    assert PassEvents(t, p) == pre + send + polls + quiet + rec;
    CountNone(pre, kind);
    CountNone(polls, kind);
    CountNone(quiet, kind);
    CountAppend(pre, send, kind);
    CountAppend(pre + send, polls, kind);
    CountAppend(pre + send + polls, quiet, kind);
    CountAppend(pre + send + polls + quiet, rec, kind);
    assert send != [] ==> send[..0] == [];
  }

  lemma PassCounts(t: Ticket, p: Pass)
    requires LegalAnswers(t, p.answers)
    ensures Count(PassEvents(t, p), IsSend) == (if Issued(t, p.answers) then 1 else 0)
    ensures Count(PassEvents(t, p), IsDone) == (if IsFinal(p.action, p.resetOk) then 1 else 0)
    ensures IsFinal(p.action, p.resetOk) ==>
              PassEvents(t, p) != []
              && PassEvents(t, p)[|PassEvents(t, p)| - 1] == Done(FinalStatus(t, p.action, p.resetOk))
  {
    hide LegalAnswers, AttemptEvents, Issued, RecoveryEvents;
    PassCount(t, p, IsSend);
    PassCount(t, p, IsDone);
    RecoveryCounts(t, p);
  }

  lemma RecoveryCounts(t: Ticket, p: Pass)
    ensures var rec := RecoveryEvents(t, p.action, p.resetOk);
      && Count(rec, IsSend) == 0
      && Count(rec, IsDone) == (if IsFinal(p.action, p.resetOk) then 1 else 0)
      && (IsFinal(p.action, p.resetOk) ==>
            rec != [] && rec[|rec| - 1] == Done(FinalStatus(t, p.action, p.resetOk)))
  {
    var rec := RecoveryEvents(t, p.action, p.resetOk);
    CountNone(rec, IsSend);
    if IsFinal(p.action, p.resetOk) {
      assert rec == rec[..|rec| - 1] + [rec[|rec| - 1]];
      CountNone(rec[..|rec| - 1], IsDone);
    } else {
      CountNone(rec, IsDone);
    }
  }

  /** The accesses of the first `k` passes come first. */
  lemma {:induction false} RunStartsWith(t: Ticket, run: seq<Pass>, k: nat) returns (rest: seq<Event>)
    requires k <= |run| && forall k :: 0 <= k < |run| ==> LegalPass(t, run[k], k)
    ensures RunEvents(t, run) == RunEvents(t, run[..k]) + rest
    ensures k == |run| ==> rest == []
    decreases |run|
  {
    hide GraceReadings, BusyReadings, DrainReadings, PollReadings, Action, PassEvents;
    rest := [];
    if k == |run| {
      assert run[..k] == run;
    } else {
      var last := |run| - 1;
      rest := RunStartsWith(t, run[..last], k);
      assert run[..last][..k] == run[..k];
      assert LegalPass(t, run[last], last);
      rest := rest + PassEvents(t, run[last]);
    }
  }

  lemma RunAppends(t: Ticket, run: seq<Pass>)
    requires run != [] && forall k :: 0 <= k < |run| ==> LegalPass(t, run[k], k)
    ensures LegalPass(t, run[|run| - 1], |run| - 1)
    ensures RunEvents(t, run) == RunEvents(t, run[..|run| - 1]) + PassEvents(t, run[|run| - 1])
  {
    hide LegalPass, PassEvents;
  }

  /** A prefix of a run in which nothing was final yet. */
  predicate OpenRun(t: Ticket, run: seq<Pass>) {
    forall k :: 0 <= k < |run| ==> LegalPass(t, run[k], k) && !IsFinal(run[k].action, run[k].resetOk)
  }

  lemma {:induction false} OpenRunCounts(t: Ticket, run: seq<Pass>)
    requires OpenRun(t, run)
    ensures Count(RunEvents(t, run), IsDone) == 0
    ensures Count(RunEvents(t, run), IsSend) <= |run|
    ensures !t.constraints.replaySafe && !t.constraints.validateOcr ==> Count(RunEvents(t, run), IsSend) == 0
  {
    hide PollReadings, DrainReadings, Outcome, PassEvents;
    if run != [] {
      var last := |run| - 1;
      var p := run[last];
      assert LegalPass(t, p, last);
      OpenRunCounts(t, run[..last]);
      PassCounts(t, p);
      CountAppend(RunEvents(t, run[..last]), PassEvents(t, p), IsSend);
      CountAppend(RunEvents(t, run[..last]), PassEvents(t, p), IsDone);
      if !t.constraints.replaySafe && !t.constraints.validateOcr && Issued(t, p.answers) {
        UncertainIsFinal(t, p, last);
      }
    }
  }

  /** Once a command that must not be replayed has been sent, its attempt is the last one. */
  lemma UncertainIsFinal(t: Ticket, p: Pass, attempt: nat)
    requires LegalPass(t, p, attempt)
    requires !t.constraints.replaySafe && !t.constraints.validateOcr
    requires Issued(t, p.answers)
    ensures IsFinal(p.action, p.resetOk)
  {
    hide LegalAnswers, Issued, Verdict;
  }

  /** Retry safety. The ticket is marked done exactly once, as the very last access, the command
      register is written at most once per budgeted attempt, and at most once altogether when the
      command may neither be replayed nor be judged by its OCR. */
  lemma RetrySafety(t: Ticket, run: seq<Pass>)
    requires LegalRun(t, run)
    ensures var es := DriveEvents(t, run);
      && Count(es, IsDone) == 1 && es != [] && es[|es| - 1] == Done(DriveStatus(t, run))
      && Count(es, IsSend) <= t.constraints.Attempts()
      && (!t.constraints.replaySafe && !t.constraints.validateOcr ==> Count(es, IsSend) <= 1)
  {
    hide LegalAnswers, Outcome, PassEvents;
    if ZeroBlocks(t) {
      assert Count([Done(B_OK)], IsDone) == 1 + Count([], IsDone);
    } else {
      var last := |run| - 1;
      assert LegalPass(t, run[last], last);
      OpenRunCounts(t, run[..last]);
      PassCounts(t, run[last]);
      CountAppend(RunEvents(t, run[..last]), PassEvents(t, run[last]), IsSend);
      CountAppend(RunEvents(t, run[..last]), PassEvents(t, run[last]), IsDone);
    }
  }

  /** Writes get the constraints that make the previous bound apply. */
  lemma WritesAreSentAtMostOnce(command: Cmd, quirks: Quirks, t: Ticket, run: seq<Pass>)
    requires IsWrite(command) && t.constraints == GetCommandConstraints(command, quirks)
    requires LegalRun(t, run)
    ensures Count(DriveEvents(t, run), IsSend) <= 1
  {
    RetrySafety(t, run);
  }

  /** A successful, ordinary data command: the words read by its last attempt, between its last send
      and the verdict, include a credible TransferComplete and no credible error. */
  lemma CompletionEvidence(t: Ticket, run: seq<Pass>)
    requires LegalRun(t, run) && DriveStatus(t, run) == B_OK
    requires t.dataPresent && !t.tuning && !ZeroBlocks(t)
    ensures var p := run[|run| - 1];
      && Issued(t, p.answers)
      && Seen(p.answers.polls, TRANSFER_COMPLETE) && !SeenError(p.answers.polls)
      && Count(AfterPolls(t, p), IsSend) == 0
      && DriveEvents(t, run) == RunEvents(t, run[..|run| - 1])
           + BeforeSend(t, p.answers) + [Send(t.dmaEnable)] + PollEvents(t, p.answers.polls) + AfterPolls(t, p)
  {
    hide PollReadings, DrainReadings, BitsToAcknowledge, ClassifyPoll, Outcome, DecideRetry, BeforeSend, PollEvents,
         AfterPolls, PassEvents;
    var last := |run| - 1;
    var p := run[last];
    assert LegalPass(t, p, last);
    SuccessMeansOk(t, p, last);
    DataVerdictIsExact(p.answers.polls);
    PassShape(t, p);
    AfterPollsNeverSends(t, p);
  }

  lemma SuccessMeansOk(t: Ticket, p: Pass, attempt: nat)
    requires LegalPass(t, p, attempt)
    requires IsFinal(p.action, p.resetOk) && FinalStatus(t, p.action, p.resetOk) == B_OK
    ensures p.action == Succeed && Issued(t, p.answers)
    ensures Verdict(t, p.answers.polls) in {CommandCompleted, TransferCompleted, BufferReady}
  {
    hide PollReadings, DrainReadings, BitsToAcknowledge, Verdict;
  }

  /** The completion evidence a ticket of each kind waits for, in terms of the words read. */
  predicate Completed(t: Ticket, words: seq<Word>) {
    && !SeenError(words)
    && (if t.tuning then Seen(words, BUFFER_READ_READY) && !Seen(words, TRANSFER_COMPLETE)
        else if t.dataPresent then Seen(words, TRANSFER_COMPLETE)
        else Seen(words, COMMAND_COMPLETE) || Seen(words, TRANSFER_COMPLETE))
  }

  /** The exact condition of success. Whatever the controller answered, a ticket with something to
      move ends in B_OK if and only if its last attempt was sent, the words read between that send
      and the verdict show the completion of its kind and no error, the card then released its busy
      line where the reply has one, and the OCR was sane where it is judged. For an ordinary data
      command the completion is a credible TransferComplete. */
  lemma SuccessIsExact(t: Ticket, run: seq<Pass>)
    requires LegalRun(t, run) && !ZeroBlocks(t)
    ensures var a := run[|run| - 1].answers;
      DriveStatus(t, run) == B_OK
      <==> Issued(t, a) && Completed(t, a.polls)
           && (t.reply == R1b ==> a.BusyReleased()) && (t.constraints.validateOcr ==> a.ocrSane)
  {
    hide PollReadings, DrainReadings, BitsToAcknowledge, ClassifyPoll, SeenError, Seen, Issued;
    var last := |run| - 1;
    var p := run[last];
    assert LegalPass(t, p, last);
    DataVerdictIsExact(p.answers.polls);
    PlainVerdictIsExact(p.answers.polls);
    TuningVerdictIsExact(p.answers.polls, t.dataPresent);
    if DriveStatus(t, run) == B_OK { SuccessMeansOk(t, p, last); }
  }

  lemma AfterPollsNeverSends(t: Ticket, p: Pass)
    requires LegalAnswers(t, p.answers)
    ensures Count(AfterPolls(t, p), IsSend) == 0
  {
    hide PollReadings, DrainReadings, BitsToAcknowledge;
    AuxiliaryAccesses(t, p);
    CountNone(AfterPolls(t, p), IsSend);
  }

  /** The verdict is final: an error that the controller raises only during the drain after it is
      acknowledged and forgotten, and the command still succeeds. */
  lemma LateErrorIsForgotten()
    ensures exists t: Ticket, run: seq<Pass> :: LegalRun(t, run) && DriveStatus(t, run) == B_OK && |run| == 1
              && t.dataPresent && !ZeroBlocks(t) && SeenError(run[0].answers.flush)
  {
    var t := Ticket(DEFAULT_CONSTRAINTS, R1, true, false, 1, true, NoTable);
    var polls := [{TRANSFER_COMPLETE}];
    var flush := [{DATA_CRC}, EMPTY];
    var a := Answers(FREE, FREE, [EMPTY], polls, flush, true, [false]);
    var p := Pass(a, true, Succeed, true);
    assert Seen(polls, TRANSFER_COMPLETE) by { assert polls[0] != FLOATING by { assert 7 in FLOATING; } }
    assert !SeenError(polls);
    DataVerdictIsExact(polls);
    assert {DATA_CRC} != FLOATING by { assert 7 in FLOATING; }
    assert Seen(flush, DATA_CRC) by { assert !IsSpuriousMeow(flush[0]) && DATA_CRC in flush[0]; }
    assert BitsToAcknowledge(flush[0]) == {DATA_CRC};
    assert DATA_CRC in ANY_ERROR;
    assert LegalPass(t, p, 0);
    assert LegalRun(t, [p]);
  }
}
