/** Acknowledging the interrupt status, which is write-1-to-clear: nothing is cleared unseen, and nothing
    the poll loop sees is left set. */
module EngineAcks {
  import opened Command
  import opened Convergence
  import opened EngineSpec
  import opened EngineTheorems

  /** A clear stands directly behind the read of a word, and clears what that word calls for. */
  predicate ClearAt(es: seq<Event>, i: nat)
    requires i < |es|
  {
    es[i].StatusClear? ==>
      && i > 0 && es[i - 1].StatusRead?
      && es[i].bits == BitsToAcknowledge(es[i - 1].word) && es[i].bits != EMPTY
  }

  predicate ClearsAreSeen(es: seq<Event>) { forall i :: 0 <= i < |es| ==> ClearAt(es, i) }

  /** A word that calls for a clear is followed by it at once. */
  predicate ReadAt(es: seq<Event>, i: nat)
    requires i < |es|
  {
    es[i].StatusRead? && BitsToAcknowledge(es[i].word) != EMPTY ==>
      i + 1 < |es| && es[i + 1] == StatusClear(BitsToAcknowledge(es[i].word))
  }

  predicate ReadsAreAcknowledged(es: seq<Event>) { forall i :: 0 <= i < |es| ==> ReadAt(es, i) }

  lemma ClearsAppend(a: seq<Event>, b: seq<Event>)
    requires ClearsAreSeen(a) && ClearsAreSeen(b)
    ensures ClearsAreSeen(a + b)
  {
    forall i | 0 <= i < |a + b| ensures ClearAt(a + b, i) {
      if i < |a| { assert ClearAt(a, i); } else { assert ClearAt(b, i - |a|); }
    }
  }

  lemma ReadsAppend(a: seq<Event>, b: seq<Event>)
    requires ReadsAreAcknowledged(a) && ReadsAreAcknowledged(b)
    ensures ReadsAreAcknowledged(a + b)
  {
    forall i | 0 <= i < |a + b| ensures ReadAt(a + b, i) {
      if i < |a| { assert ReadAt(a, i); } else { assert ReadAt(b, i - |a|); }
    }
  }

  lemma NoClears(es: seq<Event>)
    requires forall e :: e in es ==> !e.StatusClear?
    ensures ClearsAreSeen(es)
  {
    forall i | 0 <= i < |es| ensures ClearAt(es, i) { assert es[i] in es; }
  }

  // ---- the poll loop -------------------------------------------------------------------

  lemma StepAcknowledges(word: Word)
    ensures ClearsAreSeen(PollStep(word)) && ReadsAreAcknowledged(PollStep(word))
  {
  }

  lemma {:induction false} WaitAcknowledges(words: seq<Word>)
    ensures ClearsAreSeen(WaitEvents(words)) && ReadsAreAcknowledged(WaitEvents(words))
  {
    hide PollStep, ClearsAreSeen, ReadsAreAcknowledged;
    if words == [] {
      NoClears([]);
      NothingRead([]);
    } else {
      var last := |words| - 1;
      WaitAcknowledges(words[..last]);
      JoinStep(WaitEvents(words[..last]), words[last], [ClockRead(false)]);
    }
  }

  lemma NothingRead(es: seq<Event>)
    requires forall e :: e in es ==> !e.StatusRead?
    ensures ReadsAreAcknowledged(es)
  {
    forall i | 0 <= i < |es| ensures ReadAt(es, i) { assert es[i] in es; }
  }

  lemma JoinStep(before: seq<Event>, word: Word, after: seq<Event>)
    requires ClearsAreSeen(before) && ReadsAreAcknowledged(before)
    requires forall e :: e in after ==> e.ClockRead?
    ensures ClearsAreSeen(before + PollStep(word) + after) && ReadsAreAcknowledged(before + PollStep(word) + after)
  {
    hide PollStep, ClearsAreSeen, ReadsAreAcknowledged;
    StepAcknowledges(word);
    NoClears(after);
    NothingRead(after);
    ClearsAppend(before, PollStep(word));
    ClearsAppend(before + PollStep(word), after);
    ReadsAppend(before, PollStep(word));
    ReadsAppend(before + PollStep(word), after);
  }

  /** The poll loop clears exactly what it sees: every word that calls for a clear is acknowledged before
      anything else happens, and nothing else is cleared. */
  lemma PollsAcknowledge(t: Ticket, words: seq<Word>)
    requires |words| > 0
    ensures ClearsAreSeen(PollEvents(t, words)) && ReadsAreAcknowledged(PollEvents(t, words))
  {
    hide PollStep, WaitEvents, ClearsAreSeen, ReadsAreAcknowledged, Verdict;
    var last := |words| - 1;
    WaitAcknowledges(words[..last]);
    JoinStep(WaitEvents(words[..last]), words[last], if Verdict(t, words) == KeepPolling then [ClockRead(true)] else []);
  }

  // ---- over every run ------------------------------------------------------------------

  lemma {:induction false} DrainClears(words: seq<Word>)
    requires |words| > 0 && forall i :: 0 <= i < |words| - 1 ==> BitsToAcknowledge(words[i]) != EMPTY
    ensures var es := DrainEvents(words);
      ClearsAreSeen(es) && es[|es| - 1] == StatusRead(words[|words| - 1])
  {
    hide BitsToAcknowledge;
    if |words| > 1 {
      var last := |words| - 1;
      DrainClears(words[..last]);
      var before := DrainEvents(words[..last]);
      var es := DrainEvents(words);
      forall i | 0 <= i < |es| ensures ClearAt(es, i) {
        if i < |before| { assert ClearAt(before, i); }
      }
    }
  }

  lemma BeforeSendClears(t: Ticket, a: Answers)
    requires LegalAnswers(t, a)
    ensures ClearsAreSeen(BeforeSend(t, a))
  {
    hide ClearsAreSeen, PollReadings, GraceReadings, BusyReadings, Admitted, BitsToAcknowledge, DrainEvents;
    var first := GraceEvents(t, a) + (if Admitted(t, a) && t.UsesTable() then [DmaMode(true)] else []);
    NoClears(first);
    if Admitted(t, a) {
      DrainClears(a.drain);
      ClearsAppend(first, DrainEvents(a.drain));
      assert BeforeSend(t, a) == first + DrainEvents(a.drain);
    } else {
      assert BeforeSend(t, a) == first;
    }
  }

  lemma VerdictClears(t: Ticket, a: Answers)
    requires LegalAnswers(t, a)
    ensures ClearsAreSeen(VerdictEvents(t, a))
  {
    hide ClearsAreSeen, PollReadings, GraceReadings, BusyReadings, JudgesOcr, WaitsForBusy, BitsToAcknowledge, DrainEvents;
    var ocr: seq<Event> := if JudgesOcr(t, a) then [OcrRead(a.ocrSane)] else [];
    var busy: seq<Event> := if WaitsForBusy(t, a) then LineEvents(DataLine, a.busy) else [];
    NoClears(ocr);
    NoClears(busy);
    DrainClears(a.flush);
    ClearsAppend(ocr, DrainEvents(a.flush));
    ClearsAppend(ocr + DrainEvents(a.flush), busy);
  }

  lemma AfterPollsClears(t: Ticket, p: Pass)
    requires LegalAnswers(t, p.answers)
    ensures ClearsAreSeen(AfterPolls(t, p))
  {
    hide ClearsAreSeen, GraceReadings, BusyReadings, PollReadings, DrainReadings, Issued, Admitted, VerdictEvents;
    var a := p.answers;
    var card := [CardRead(p.cardInserted)] + (if Admitted(t, a) && t.UsesTable() then [DmaMode(false)] else []);
    var tail := card + RecoveryEvents(t, p.action, p.resetOk);
    NoClears(tail);
    if Issued(t, a) {
      VerdictClears(t, a);
      ClearsAppend(VerdictEvents(t, a), tail);
      assert AfterPolls(t, p) == VerdictEvents(t, a) + tail;
    } else {
      assert AfterPolls(t, p) == tail;
    }
  }

  lemma PassClears(t: Ticket, p: Pass)
    requires LegalAnswers(t, p.answers)
    ensures ClearsAreSeen(PassEvents(t, p))
  {
    hide ClearsAreSeen, GraceReadings, BusyReadings, PollReadings, DrainReadings, Issued, BeforeSend, PollEvents, AfterPolls,
         PassEvents;
    var a := p.answers;
    var polls: seq<Event> := if Issued(t, a) then [Send(t.dmaEnable)] + PollEvents(t, a.polls) else [];
    BeforeSendClears(t, a);
    AfterPollsClears(t, p);
    PassShape(t, p);
    NoClears([]);
    NoClears([Send(t.dmaEnable)]);
    PollsAcknowledge(t, a.polls);
    ClearsAppend([Send(t.dmaEnable)], PollEvents(t, a.polls));
    ClearsAppend(BeforeSend(t, a), polls);
    ClearsAppend(BeforeSend(t, a) + polls, AfterPolls(t, p));
  }

  lemma {:induction false} RunClears(t: Ticket, run: seq<Pass>)
    requires forall k :: 0 <= k < |run| ==> LegalPass(t, run[k], k)
    ensures ClearsAreSeen(RunEvents(t, run))
  {
    hide ClearsAreSeen, PassEvents, GraceReadings, BusyReadings, PollReadings, DrainReadings, Action;
    if run == [] {
      NoClears([]);
    } else {
      var last := |run| - 1;
      assert LegalPass(t, run[last], last);
      RunClears(t, run[..last]);
      PassClears(t, run[last]);
      ClearsAppend(RunEvents(t, run[..last]), PassEvents(t, run[last]));
    }
  }

  /** Over every run, a status bit is cleared only directly after a word that showed it was read: no
      interrupt is ever acknowledged without having been seen. */
  lemma NothingIsClearedUnseen(t: Ticket, run: seq<Pass>)
    requires LegalRun(t, run)
    ensures ClearsAreSeen(DriveEvents(t, run))
  {
    hide ClearsAreSeen, LegalPass, RunEvents;
    if ZeroBlocks(t) { NoClears([Done(B_OK)]); } else { RunClears(t, run); }
  }
}
