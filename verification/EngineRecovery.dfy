/** When an attempt is followed by another one, by which recovery, and why a transaction ends: in terms
    of the words read and of what the clock, the card and the lines answered. */
module EngineRecovery {
  import opened Command
  import opened Convergence
  import opened EngineSpec
  import opened EngineTheorems

  // ---- what an attempt met ------------------------------------------------------------

  predicate BadOcr(t: Ticket, a: Answers) { t.constraints.validateOcr && !a.ocrSane }

  /** The command completed, but its OCR is garbage. */
  predicate Spurious(t: Ticket, a: Answers) { Completed(t, a.polls) && BadOcr(t, a) }

  /** The card holds the data line after the completion of a busy command. */
  predicate BusyHeld(t: Ticket, a: Answers) {
    Completed(t, a.polls) && !BadOcr(t, a) && t.reply == R1b && !a.BusyReleased()
  }

  /** The clock expired before the words showed a completion or an error. */
  predicate Expired(t: Ticket, a: Answers) { !SeenError(a.polls) && !Completed(t, a.polls) }

  /** A fault that another attempt may cure: a timeout, a data CRC or an ADMA error among the words,
      no verdict by the deadline, or a line that stays busy. */
  predicate Transient(t: Ticket, a: Answers) {
    SeenNamed(a.polls) || Expired(t, a) || BusyHeld(t, a)
  }

  /** An error that names none of these causes. */
  predicate Hard(a: Answers) { SeenError(a.polls) && !SeenNamed(a.polls) }

  predicate Good(t: Ticket, a: Answers) {
    Completed(t, a.polls) && !BadOcr(t, a) && (t.reply == R1b ==> a.BusyReleased())
  }

  /** Nothing was sent, or a transient fault of a command that may be sent again to a card that is
      still there. */
  predicate Curable(t: Ticket, p: Pass)
    requires |p.answers.drain| > 0
  {
    !Issued(t, p.answers) || (Transient(t, p.answers) && p.cardInserted && t.constraints.replaySafe)
  }

  /** A command that was sent and loses its card's state with every fault. */
  predicate Flagged(t: Ticket, p: Pass)
    requires |p.answers.drain| > 0
  {
    Issued(t, p.answers) && t.constraints.needsBusResetOnError
  }

  predicate HaveBudget(t: Ticket, attempt: nat) { attempt + 1 < t.constraints.Attempts() }

  /** The poll loop meets an expired clock exactly when the words it read leave everything open. */
  lemma ClockEndsOpenPolls(t: Ticket, words: seq<Word>)
    requires |words| > 0
    ensures ClockRead(true) in PollEvents(t, words) <==> !SeenError(words) && !Completed(t, words)
  {
    hide WaitEvents, Verdict, SeenError, Completed;
    VerdictKinds(t, words);
    NoExpiryWhileWaiting(words[..|words| - 1]);
  }

  /** The poll loop reads on exactly while the words show neither a completion nor an error. */
  lemma PollsStopAtTheFirstAnswer(t: Ticket, words: seq<Word>)
    ensures PollReadings(t, words) <==>
      words != [] && forall i :: 0 < i < |words| ==> !SeenError(words[..i]) && !Completed(t, words[..i])
  {
    hide Verdict, SeenError, Completed;
    forall i | 0 < i < |words| ensures Verdict(t, words[..i]) == KeepPolling
                                  <==> !SeenError(words[..i]) && !Completed(t, words[..i])
    {
      VerdictKinds(t, words[..i]);
    }
  }

  lemma {:induction false} NoExpiryWhileWaiting(words: seq<Word>)
    ensures ClockRead(true) !in WaitEvents(words)
  {
    if words != [] { NoExpiryWhileWaiting(words[..|words| - 1]); }
  }

  // ---- the decision -------------------------------------------------------------------

  lemma VerdictKinds(t: Ticket, words: seq<Word>)
    ensures IsSuccessVerdict(Verdict(t, words)) <==> Completed(t, words)
    ensures Verdict(t, words) == KeepPolling <==> !SeenError(words) && !Completed(t, words)
    ensures Verdict(t, words) == HardError <==> SeenError(words) && !SeenNamed(words)
    ensures IsErrorVerdict(Verdict(t, words)) <==> SeenError(words)
    ensures Verdict(t, words) in {CommandTimedOut, DataTimedOut, DataCrcFault, AdmaFault} <==> SeenNamed(words)
  {
    hide ClassifyPoll, Seen, SeenError, Evidence;
    DataVerdictIsExact(words);
    PlainVerdictIsExact(words);
    TuningVerdictIsExact(words, t.dataPresent);
    FaultVerdictIsExact(words, t.dataPresent, t.tuning);
  }

  lemma VerdictIsOne(t: Ticket, a: Answers)
    ensures SeenNamed(a.polls) ==> SeenError(a.polls)
  {
    hide Seen;
    NamedErrorsAreErrors();
  }

  /** What an attempt that was sent came to. */
  lemma OutcomeIsExact(t: Ticket, a: Answers)
    requires |a.drain| > 0 && Issued(t, a)
    ensures Outcome(t, a) != Busy
    ensures Outcome(t, a) == Ok <==> Good(t, a)
    ensures Outcome(t, a) == SpuriousOcr <==> Spurious(t, a)
    ensures Outcome(t, a) == Error <==> Hard(a)
    ensures Outcome(t, a) in {CommandTimeout, DataTimeout, DataCrc, AdmaError} <==> Transient(t, a)
  {
    hide Verdict, Issued, Seen, SeenError, SeenNamed, Completed;
    VerdictIsOne(t, a);
    VerdictKinds(t, a.polls);
  }

  /** The decision after each attempt, by what it met. */
  lemma DecisionIsExact(t: Ticket, p: Pass, attempt: nat)
    requires LegalPass(t, p, attempt)
    ensures p.action == Succeed <==> Issued(t, p.answers) && Good(t, p.answers)
    ensures p.action == Retry <==>
              Issued(t, p.answers) && Spurious(t, p.answers) && HaveBudget(t, attempt)
    ensures p.action == RetryResetLines <==> Curable(t, p) && !Flagged(t, p) && HaveBudget(t, attempt)
    ensures p.action == ResetAndReidentify <==> Curable(t, p) && Flagged(t, p) && HaveBudget(t, attempt)
  {
    hide GraceReadings, BusyReadings, PollReadings, DrainReadings, Issued, Good, Spurious, Hard, Transient, Classify,
         WaitsForBusy;
    if Issued(t, p.answers) { OutcomeIsExact(t, p.answers); }
  }

  // ---- over every run ------------------------------------------------------------------

  /** Another attempt follows exactly when the budget allows it and the last one was a completed
      command with a bad OCR, or was curable, needed no power cut, and its line reset worked. */
  lemma NextAttemptExactly(t: Ticket, run: seq<Pass>, k: nat)
    requires LegalRun(t, run) && k < |run|
    ensures LegalPass(t, run[k], k)
    ensures k + 1 < |run| <==>
      && HaveBudget(t, k)
      && (|| (Issued(t, run[k].answers) && Spurious(t, run[k].answers))
          || (Curable(t, run[k]) && !Flagged(t, run[k]) && run[k].resetOk))
  {
    hide LegalAnswers, Action, Issued, Spurious, Curable, Flagged;
    assert LegalPass(t, run[k], k);
    DecisionIsExact(t, run[k], k);
  }

  /** Where a pass stands among the accesses of a run. */
  lemma PassStands(t: Ticket, run: seq<Pass>, k: nat) returns (rest: seq<Event>)
    requires LegalRun(t, run) && k < |run|
    ensures LegalPass(t, run[k], k)
    ensures DriveEvents(t, run) == RunEvents(t, run[..k]) + PassEvents(t, run[k]) + rest
    ensures k + 1 == |run| ==> rest == []
  {
    hide LegalPass, PassEvents;
    rest := RunStartsWith(t, run, k + 1);
    assert run[..k + 1][..k] == run[..k];
    if k + 1 == |run| { assert run[..k + 1] == run; }
  }

  /** A curable fault is cured as cheaply as possible: the attempt is followed by a line reset and,
      when that works, at once by the next attempt; when it does not work, by the power cut that
      stands in for it. */
  lemma CurableIsRetried(t: Ticket, run: seq<Pass>, k: nat) returns (rest: seq<Event>)
    requires LegalRun(t, run) && k < |run| && LegalPass(t, run[k], k)
    requires Curable(t, run[k]) && !Flagged(t, run[k]) && HaveBudget(t, k)
    ensures var before := RunEvents(t, run[..k]) + AttemptEvents(t, run[k].answers, run[k].cardInserted);
      if run[k].resetOk then
        && k + 1 < |run| && LegalPass(t, run[k + 1], k + 1)
        && DriveEvents(t, run) == before + [LineReset(true)]
             + AttemptEvents(t, run[k + 1].answers, run[k + 1].cardInserted) + rest
      else DriveEvents(t, run) == before + [LineReset(false), PowerCut, Done(B_DEV_NOT_READY)]
  {
    hide GraceReadings, BusyReadings, DrainReadings, PollReadings, Action, Issued, Transient, Curable, Flagged;
    hide RunEvents, AttemptEvents;
    rest := PassStands(t, run, k);
    NextAttemptExactly(t, run, k);
    DecisionIsExact(t, run[k], k);
    if run[k].resetOk {
      rest := PassStands(t, run, k + 1);
      assert run[..k + 1][..k] == run[..k];
      RunAppends(t, run[..k + 1]);
      var next := run[k + 1];
      rest := RecoveryEvents(t, next.action, next.resetOk) + rest;
    }
  }

  /** An OCR that is only garbage is asked for again without any reset. */
  lemma SpuriousIsRepeated(t: Ticket, run: seq<Pass>, k: nat) returns (rest: seq<Event>)
    requires LegalRun(t, run) && k < |run| && LegalPass(t, run[k], k)
    requires Issued(t, run[k].answers) && Spurious(t, run[k].answers) && HaveBudget(t, k)
    ensures k + 1 < |run| && LegalPass(t, run[k + 1], k + 1)
    ensures DriveEvents(t, run)
      == RunEvents(t, run[..k]) + AttemptEvents(t, run[k].answers, run[k].cardInserted)
         + AttemptEvents(t, run[k + 1].answers, run[k + 1].cardInserted) + rest
  {
    hide LegalAnswers, Action, Issued, Spurious, RunEvents, AttemptEvents;
    rest := PassStands(t, run, k);
    NextAttemptExactly(t, run, k);
    DecisionIsExact(t, run[k], k);
    rest := PassStands(t, run, k + 1);
    assert run[..k + 1][..k] == run[..k];
    RunAppends(t, run[..k + 1]);
    rest := RecoveryEvents(t, run[k + 1].action, run[k + 1].resetOk) + rest;
  }

  /** How a transaction ends that is not a success: by the recovery of its last attempt. */
  lemma EndsExactly(t: Ticket, run: seq<Pass>)
    requires LegalRun(t, run) && !ZeroBlocks(t)
    ensures LegalPass(t, run[|run| - 1], |run| - 1)
    ensures var p, k := run[|run| - 1], |run| - 1;
      var before := RunEvents(t, run[..k]) + AttemptEvents(t, p.answers, p.cardInserted);
      DriveEvents(t, run) == before
        + (if Issued(t, p.answers) && Good(t, p.answers) then [Done(B_OK)]
           else if Curable(t, p) && Flagged(t, p) && HaveBudget(t, k) then [PowerCut, Done(B_DEV_NOT_READY)]
           else if (t.dataPresent || (Curable(t, p) && HaveBudget(t, k))) && !p.resetOk then
             [LineReset(false), PowerCut, Done(B_DEV_NOT_READY)]
           else if t.dataPresent then [LineReset(true), Done(B_ERROR)]
           else [Done(B_ERROR)])
  {
    hide LegalAnswers, Action, Issued, Good, Spurious, Curable, Flagged, RunEvents, AttemptEvents;
    var k := |run| - 1;
    var rest := PassStands(t, run, k);
    NextAttemptExactly(t, run, k);
    DecisionIsExact(t, run[k], k);
  }

  /** Why a transaction ends short of its budget without success: the card is gone, the command may not
      be sent again, the controller reported a hard error, the line reset failed, or the command is
      flagged to lose its card's state. */
  lemma EarlyEndHasACause(t: Ticket, run: seq<Pass>)
    requires LegalRun(t, run) && !ZeroBlocks(t)
    requires |run| < t.constraints.Attempts() && DriveStatus(t, run) != B_OK
    ensures var p := run[|run| - 1];
      LegalPass(t, p, |run| - 1)
      && (|| (Issued(t, p.answers) && (!p.cardInserted || !t.constraints.replaySafe || Hard(p.answers)))
          || (!p.resetOk && DriveEvents(t, run)[|DriveEvents(t, run)| - 3..]
                            == [LineReset(false), PowerCut, Done(B_DEV_NOT_READY)])
          || (Flagged(t, p) && DriveEvents(t, run)[|DriveEvents(t, run)| - 2..] == [PowerCut, Done(B_DEV_NOT_READY)]))
  {
    hide LegalAnswers, Action, Issued, Spurious, RunEvents, AttemptEvents, Good, Expired, BusyHeld, SeenError, SeenNamed;
    var k := |run| - 1;
    var p := run[k];
    NextAttemptExactly(t, run, k);
    DecisionIsExact(t, p, k);
    EndsExactly(t, run);
    EveryOutcome(t, p.answers);
  }

  lemma EveryOutcome(t: Ticket, a: Answers)
    ensures Good(t, a) || Spurious(t, a) || Hard(a) || Transient(t, a)
  {
  }

  // ---- the policy ----------------------------------------------------------------------

  /** The driver's own commands lose their card's state only where a card selection or an erase fails on
      a controller whose bus power the card needs. */
  lemma BusResetIsFor(command: Cmd, quirks: Quirks, t: Ticket, run: seq<Pass>, k: nat)
    requires t.constraints == GetCommandConstraints(command, quirks)
    requires LegalRun(t, run) && k < |run| && run[k].action == ResetAndReidentify
    ensures quirks.cardOnNeedsBusOn && (command == SelectDeselectCard || command == Erase)
  {
    hide LegalAnswers, Outcome;
    assert LegalPass(t, run[k], k);
  }

  /** The busy quirk marks StopTransmission for a bus reset, but gives it no second attempt, so that it
      never has an effect: the runs are those without the quirk, with the same accesses and status. */
  lemma StopQuirkHasNoEffect(quirks: Quirks, t: Ticket, run: seq<Pass>)
    requires t.constraints == GetCommandConstraints(StopTransmission, quirks)
    ensures var u := t.(constraints := DEFAULT_CONSTRAINTS);
      && (LegalRun(t, run) <==> LegalRun(u, run))
      && (LegalRun(t, run) ==> DriveEvents(t, run) == DriveEvents(u, run))
      && (LegalRun(t, run) && !ZeroBlocks(t) ==> DriveStatus(t, run) == DriveStatus(u, run))
  {
    var u := t.(constraints := DEFAULT_CONSTRAINTS);
    forall k | 0 <= k < |run| ensures LegalPass(t, run[k], k) <==> LegalPass(u, run[k], k) {
      SamePass(t, u, run[k], k);
    }
    if LegalRun(t, run) {
      SameRunEvents(t, u, run);
    }
  }

  predicate Alike(t: Ticket, u: Ticket) {
    && u == t.(constraints := u.constraints)
    && t.constraints.Attempts() == u.constraints.Attempts() == 1
    && t.constraints.validateOcr == u.constraints.validateOcr
  }

  lemma {:induction false} SameRunEvents(t: Ticket, u: Ticket, run: seq<Pass>)
    requires Alike(t, u)
    requires forall k :: 0 <= k < |run| ==> LegalPass(t, run[k], k) && LegalPass(u, run[k], k)
    ensures RunEvents(t, run) == RunEvents(u, run)
  {
    hide LegalAnswers, Action, PassEvents;
    if run != [] {
      var last := |run| - 1;
      assert LegalPass(t, run[last], last) && LegalPass(u, run[last], last);
      SameRunEvents(t, u, run[..last]);
      SameEvents(t, u, run[last]);
    }
  }

  lemma SamePass(t: Ticket, u: Ticket, p: Pass, attempt: nat)
    requires Alike(t, u)
    ensures LegalPass(t, p, attempt) <==> LegalPass(u, p, attempt)
  {
    hide Evidence, ClassifyPoll, BitsToAcknowledge, GraceReadings, BusyReadings, DrainReadings;
    assert PollReadings(t, p.answers.polls) <==> PollReadings(u, p.answers.polls);
    hide PollReadings;
  }

  lemma SameEvents(t: Ticket, u: Ticket, p: Pass)
    requires Alike(t, u) && LegalAnswers(t, p.answers) && LegalAnswers(u, p.answers)
    ensures PassEvents(t, p) == PassEvents(u, p)
  {
    hide GraceReadings, BusyReadings, PollReadings, DrainReadings, Evidence, ClassifyPoll, BitsToAcknowledge;
  }

  // ---- power cuts ----------------------------------------------------------------------

  /** A power cut stands behind a failed line reset, unless the command is flagged for it, and a failed
      line reset is followed by one. */
  predicate CutAt(t: Ticket, es: seq<Event>, i: nat)
    requires i < |es|
  {
    && (es[i].PowerCut? ==>
          (i > 0 && es[i - 1] == LineReset(false))
          || (t.constraints.needsBusResetOnError && t.constraints.replaySafe))
    && (es[i] == LineReset(false) ==> i + 1 < |es| && es[i + 1] == PowerCut)
  }

  predicate CutsAreFences(t: Ticket, es: seq<Event>) {
    forall i :: 0 <= i < |es| ==> CutAt(t, es, i)
  }

  lemma CutsAppend(t: Ticket, a: seq<Event>, b: seq<Event>)
    requires CutsAreFences(t, a) && CutsAreFences(t, b)
    ensures CutsAreFences(t, a + b)
  {
    forall i | 0 <= i < |a + b| ensures CutAt(t, a + b, i) {
      if i < |a| { assert CutAt(t, a, i); } else { assert CutAt(t, b, i - |a|); }
    }
  }

  lemma PassCuts(t: Ticket, p: Pass, attempt: nat)
    requires LegalPass(t, p, attempt)
    ensures CutsAreFences(t, PassEvents(t, p))
  {
    hide GraceReadings, BusyReadings, PollReadings, DrainReadings, Action, Issued, Transient, BeforeSend, PollEvents, Settle,
         PassEvents;
    PassShape(t, p);
    AuxiliaryAccesses(t, p);
    DecisionIsExact(t, p, attempt);
    var sent: seq<Event> :=
      if Issued(t, p.answers) then [Send(t.dmaEnable)] + PollEvents(t, p.answers.polls) else [];
    var quiet := BeforeSend(t, p.answers) + sent + Settle(t, p);
    assert forall e :: e in quiet ==> !e.PowerCut? && !e.LineReset?;
    NoCuts(t, quiet);
    CutsAppend(t, quiet, RecoveryEvents(t, p.action, p.resetOk));
    assert PassEvents(t, p) == quiet + RecoveryEvents(t, p.action, p.resetOk);
  }

  lemma NoCuts(t: Ticket, es: seq<Event>)
    requires forall e :: e in es ==> !e.PowerCut? && !e.LineReset?
    ensures CutsAreFences(t, es)
  {
    forall i | 0 <= i < |es| ensures CutAt(t, es, i) { assert es[i] in es; }
  }

  lemma {:induction false} RunCuts(t: Ticket, run: seq<Pass>)
    requires forall k :: 0 <= k < |run| ==> LegalPass(t, run[k], k)
    ensures CutsAreFences(t, RunEvents(t, run))
  {
    hide CutsAreFences, PassEvents, GraceReadings, BusyReadings, PollReadings, DrainReadings, Action;
    if run == [] {
      NoCuts(t, []);
    } else {
      var last := |run| - 1;
      assert LegalPass(t, run[last], last);
      RunCuts(t, run[..last]);
      PassCuts(t, run[last], last);
      CutsAppend(t, RunEvents(t, run[..last]), PassEvents(t, run[last]));
    }
  }

  /** The power is cut only where a line reset has just failed, or for a flagged command that could
      otherwise be sent again; and it is always cut where a line reset has failed. */
  lemma PowerCutsAreFences(t: Ticket, run: seq<Pass>)
    requires LegalRun(t, run)
    ensures CutsAreFences(t, DriveEvents(t, run))
  {
    hide LegalPass, RunEvents;
    if ZeroBlocks(t) { NoCuts(t, [Done(B_OK)]); } else { RunCuts(t, run); }
  }
}
