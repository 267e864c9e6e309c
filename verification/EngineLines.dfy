/** The inhibit bits of the two lines, against the commands that are sent and refused. */
module EngineLines {
  import opened Command
  import opened Convergence
  import opened EngineSpec
  import opened EngineTheorems

  /** The line was looked at, and the latest look found its inhibit bit clear. */
  predicate FoundFree(es: seq<Event>, line: Line) {
    es != []
    && var last := es[|es| - 1];
       if last.LineRead? && last.line == line then !last.inhibited else FoundFree(es[..|es| - 1], line)
  }

  /** Every line a command needs was last found free. */
  predicate LinesFree(t: Ticket, es: seq<Event>) {
    && FoundFree(es, CommandLine)
    && (t.dataPresent || t.reply == R1b ==> FoundFree(es, DataLine))
  }

  lemma {:induction false} FoundLater(a: seq<Event>, b: seq<Event>, line: Line)
    requires FoundFree(b, line)
    ensures FoundFree(a + b, line)
  {
    assert (a + b)[..|a + b| - 1] == a + b[..|b| - 1];
    if !(b[|b| - 1].LineRead? && b[|b| - 1].line == line) { FoundLater(a, b[..|b| - 1], line); }
  }

  lemma {:induction false} FoundBefore(a: seq<Event>, b: seq<Event>, line: Line)
    requires forall e :: e in b ==> !(e.LineRead? && e.line == line)
    ensures FoundFree(a + b, line) == FoundFree(a, line)
  {
    if b == [] {
      assert a + b == a;
    } else {
      assert (a + b)[..|a + b| - 1] == a + b[..|b| - 1];
      assert b[|b| - 1] in b;
      FoundBefore(a, b[..|b| - 1], line);
    }
  }

  lemma LatestShows(a: seq<Event>, line: Line, readings: seq<bool>)
    requires readings != []
    ensures FoundFree(a + LineEvents(line, readings), line) <==> !Latest(readings)
    ensures var es := a + LineEvents(line, readings); es != [] && es[|es| - 1] == LineRead(line, Latest(readings))
  {
  }

  /** The grace loops show the line that an attempt is refused for, and a refusal comes right after a
      look that found the line inhibited. */
  lemma GraceShows(t: Ticket, a: Answers)
    requires LegalAnswers(t, a)
    ensures var es := GraceEvents(t, a);
      && es != []
      && (FoundFree(es, CommandLine) <==> !a.CommandInhibited())
      && (LinesFree(t, es) <==>
            !a.CommandInhibited() && !((t.dataPresent || t.reply == R1b) && a.DataInhibited()))
      && (!LinesFree(t, es) ==> es[|es| - 1].LineRead? && es[|es| - 1].inhibited)
  {
    hide FoundFree, LineEvents, PollReadings, DrainReadings;
    var first, second := LineEvents(CommandLine, a.command), LineEvents(DataLine, a.data);
    LatestShows([], CommandLine, a.command);
    assert [] + first == first && first + [] == first;
    LatestShows(first, DataLine, a.data);
    OnlyOf(DataLine, a.data);
    FoundBefore(first, second, CommandLine);
  }

  lemma OnlyOf(line: Line, readings: seq<bool>)
    ensures forall e :: e in LineEvents(line, readings) ==> e.LineRead? && e.line == line
  {
  }

  /** An attempt sends its command if and only if its latest looks found every needed line free, its
      descriptor table is addressable, and the drain left no managed bit. */
  lemma AttemptSendsExactly(t: Ticket, p: Pass)
    requires LegalAnswers(t, p.answers)
    ensures (exists e :: e in AttemptEvents(t, p.answers, p.cardInserted) && e.Send?)
      <==> && LinesFree(t, GraceEvents(t, p.answers))
           && !(t.dataPresent && !t.tuning && t.descriptors == BadTable)
           && BitsToAcknowledge(p.answers.drain[|p.answers.drain| - 1]) == EMPTY
  {
    hide LinesFree, GraceEvents, PollReadings, DrainReadings, BitsToAcknowledge, BeforeSend, SentEvents;
    GraceShows(t, p.answers);
    BeforeSendOnlyLooks(t, p.answers);
    SentOnlyLooks(t, p.answers);
    if Issued(t, p.answers) {
      assert Send(t.dmaEnable) in IssueEvents(t, p.answers);
      assert Send(t.dmaEnable) in AttemptEvents(t, p.answers, p.cardInserted);
    }
  }

  lemma SentOnlyLooks(t: Ticket, a: Answers)
    requires LegalAnswers(t, a)
    ensures forall e :: e in SentEvents(t, a) ==> IsLook(e)
  {
    hide PollEvents, VerdictEvents, PollReadings, DrainReadings;
    PollOnlyLooks(t, a.polls);
    VerdictOnlyLooks(t, a);
  }

  // ---- over every run ------------------------------------------------------------------

  /** Every send among the accesses was made with the needed lines found free. */
  predicate SendsFree(t: Ticket, es: seq<Event>) {
    forall i :: 0 <= i < |es| && es[i].Send? ==> LinesFree(t, es[..i])
  }

  lemma SendsFreeAppend(t: Ticket, a: seq<Event>, b: seq<Event>)
    requires SendsFree(t, a) && SendsFree(t, b)
    ensures SendsFree(t, a + b)
  {
    hide FoundFree;
    var es := a + b;
    forall i | 0 <= i < |es| && es[i].Send? ensures LinesFree(t, es[..i]) {
      if i < |a| {
        assert es[..i] == a[..i];
      } else {
        var j := i - |a|;
        assert es[..i] == a + b[..j];
        FoundLater(a, b[..j], CommandLine);
        if t.dataPresent || t.reply == R1b { FoundLater(a, b[..j], DataLine); }
      }
    }
  }

  lemma NoSends(t: Ticket, es: seq<Event>)
    requires forall e :: e in es ==> !e.Send?
    ensures SendsFree(t, es)
  {
    forall i | 0 <= i < |es| ensures !es[i].Send? { assert es[i] in es; }
  }

  /** The table selection and the drain look at no line. */
  lemma FreeUntilSend(t: Ticket, a: Answers)
    requires LegalAnswers(t, a) && Issued(t, a)
    ensures LinesFree(t, BeforeSend(t, a))
  {
    hide FoundFree, GraceEvents, DrainEvents, PollReadings, DrainReadings, BitsToAcknowledge;
    GraceShows(t, a);
    DrainLooksAtNoLine(a.drain);
    var rest := (if t.UsesTable() then [DmaMode(true)] else []) + DrainEvents(a.drain);
    FoundBefore(GraceEvents(t, a), rest, CommandLine);
    FoundBefore(GraceEvents(t, a), rest, DataLine);
  }

  lemma {:induction false} DrainLooksAtNoLine(words: seq<Word>)
    requires |words| > 0
    ensures forall e :: e in DrainEvents(words) ==> !e.LineRead?
  {
    if |words| > 1 { DrainLooksAtNoLine(words[..|words| - 1]); }
  }

  lemma PassSendsFree(t: Ticket, p: Pass)
    requires LegalAnswers(t, p.answers)
    ensures SendsFree(t, PassEvents(t, p))
  {
    hide LinesFree, PollReadings, DrainReadings, Issued, BeforeSend, PollEvents, Settle, PassEvents;
    PassShape(t, p);
    AuxiliaryAccesses(t, p);
    NoSends(t, BeforeSend(t, p.answers));
    NoSends(t, AfterPolls(t, p));
    if Issued(t, p.answers) {
      FreeUntilSend(t, p.answers);
      NoSends(t, PollEvents(t, p.answers.polls));
      OneSend(t, BeforeSend(t, p.answers));
      SendsFreeAppend(t, BeforeSend(t, p.answers) + [Send(t.dmaEnable)], PollEvents(t, p.answers.polls));
      SendsFreeAppend(t, BeforeSend(t, p.answers) + [Send(t.dmaEnable)] + PollEvents(t, p.answers.polls), AfterPolls(t, p));
      assert PassEvents(t, p) == BeforeSend(t, p.answers) + [Send(t.dmaEnable)] + PollEvents(t, p.answers.polls)
                                 + AfterPolls(t, p);
    } else {
      SendsFreeAppend(t, BeforeSend(t, p.answers), AfterPolls(t, p));
      assert PassEvents(t, p) == BeforeSend(t, p.answers) + AfterPolls(t, p);
    }
  }

  lemma OneSend(t: Ticket, before: seq<Event>)
    requires SendsFree(t, before) && LinesFree(t, before)
    ensures SendsFree(t, before + [Send(t.dmaEnable)])
  {
    hide LinesFree;
    var es := before + [Send(t.dmaEnable)];
    forall i | 0 <= i < |es| && es[i].Send? ensures LinesFree(t, es[..i]) {
      if i < |before| { assert es[..i] == before[..i]; } else { assert es[..i] == before; }
    }
  }

  lemma {:induction false} RunSendsFree(t: Ticket, run: seq<Pass>)
    requires forall k :: 0 <= k < |run| ==> LegalPass(t, run[k], k)
    ensures SendsFree(t, RunEvents(t, run))
  {
    hide SendsFree, PassEvents, GraceReadings, BusyReadings, PollReadings, DrainReadings, Action;
    if run == [] {
      NoSends(t, []);
    } else {
      var last := |run| - 1;
      assert LegalPass(t, run[last], last);
      RunSendsFree(t, run[..last]);
      PassSendsFree(t, run[last]);
      SendsFreeAppend(t, RunEvents(t, run[..last]), PassEvents(t, run[last]));
    }
  }

  /** Whatever the controller shows, no command of any run is sent unless the latest look at the
      command-inhibit bit found it clear, and the latest look at the data-inhibit bit too when the
      command needs the data line. */
  lemma SendsFindLinesFree(t: Ticket, run: seq<Pass>)
    requires LegalRun(t, run)
    ensures SendsFree(t, DriveEvents(t, run))
  {
    hide SendsFree, LegalPass, RunEvents;
    if ZeroBlocks(t) { NoSends(t, [Done(B_OK)]); } else { RunSendsFree(t, run); }
  }

  /** The busy line: a command with a busy reply succeeds only when the latest look at the data-inhibit
      bit, after everything else it waited for, found it clear. */
  lemma BusyIsOver(t: Ticket, run: seq<Pass>)
    requires LegalRun(t, run) && !ZeroBlocks(t) && t.reply == R1b && DriveStatus(t, run) == B_OK
    ensures FoundFree(DriveEvents(t, run), DataLine)
  {
    hide FoundFree, LineEvents, RunEvents, IssueEvents, PollEvents, DrainEvents, GraceReadings, PollReadings, DrainReadings,
         Issued, Admitted, Classify, DecideRetry, PassEvents;
    var last := |run| - 1;
    var p := run[last];
    assert LegalPass(t, p, last);
    SuccessMeansWaited(t, p, last);
    var a := p.answers;
    var before := RunEvents(t, run[..last]) + IssueEvents(t, a) + PollEvents(t, a.polls)
                  + (if JudgesOcr(t, a) then [OcrRead(a.ocrSane)] else []) + DrainEvents(a.flush);
    var after := [CardRead(p.cardInserted)] + (if Admitted(t, a) && t.UsesTable() then [DmaMode(false)] else [])
                 + [Done(B_OK)];
    RunAppends(t, run);
    SuccessfulPass(t, p);
    assert DriveEvents(t, run) == before + LineEvents(DataLine, a.busy) + after;
    LatestShows(before, DataLine, a.busy);
    FoundBefore(before + LineEvents(DataLine, a.busy), after, DataLine);
  }

  lemma SuccessMeansWaited(t: Ticket, p: Pass, attempt: nat)
    requires LegalPass(t, p, attempt) && t.reply == R1b
    requires IsFinal(p.action, p.resetOk) && FinalStatus(t, p.action, p.resetOk) == B_OK
    ensures p.action == Succeed && Issued(t, p.answers) && WaitsForBusy(t, p.answers) && p.answers.BusyReleased()
  {
    hide GraceReadings, PollReadings, DrainReadings, BusyReadings, Verdict, Admitted;
  }

  lemma SuccessfulPass(t: Ticket, p: Pass)
    requires LegalAnswers(t, p.answers) && p.action == Succeed && Issued(t, p.answers) && WaitsForBusy(t, p.answers)
    ensures var a := p.answers;
      PassEvents(t, p) == IssueEvents(t, a) + PollEvents(t, a.polls)
        + (if JudgesOcr(t, a) then [OcrRead(a.ocrSane)] else []) + DrainEvents(a.flush)
        + LineEvents(DataLine, a.busy)
        + ([CardRead(p.cardInserted)] + (if Admitted(t, a) && t.UsesTable() then [DmaMode(false)] else []) + [Done(B_OK)])
  {
    hide IssueEvents, PollEvents, DrainEvents, LineEvents, GraceReadings, PollReadings, DrainReadings, BusyReadings,
         Issued, Admitted, WaitsForBusy, JudgesOcr;
  }
}
