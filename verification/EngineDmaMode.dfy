/** The DMA-select discipline: a table command is sent in table mode, every other one in the default
    single-address mode, and the default is back whenever a ticket is marked done. */
module EngineDmaMode {
  import opened Command
  import opened Convergence
  import opened EngineSpec
  import opened EngineTheorems

  /** The DMA-select field after some accesses, table mode or not. */
  function Mode(es: seq<Event>, initial: bool): bool {
    if es == [] then initial
    else match es[|es| - 1]
      case DmaMode(table) => table
      case _ => Mode(es[..|es| - 1], initial)
  }

  /** Every send among the accesses finds the field at `table`. */
  predicate SentIn(es: seq<Event>, initial: bool, table: bool) {
    forall i :: 0 <= i < |es| && es[i].Send? ==> Mode(es[..i], initial) == table
  }

  lemma {:induction false} ModeAppend(a: seq<Event>, b: seq<Event>, initial: bool)
    ensures Mode(a + b, initial) == Mode(b, Mode(a, initial))
  {
    if b == [] {
      assert a + b == a;
    } else {
      assert (a + b)[..|a + b| - 1] == a + b[..|b| - 1];
      ModeAppend(a, b[..|b| - 1], initial);
    }
  }

  lemma SentAppend(a: seq<Event>, b: seq<Event>, initial: bool, table: bool)
    requires SentIn(a, initial, table) && SentIn(b, Mode(a, initial), table)
    ensures SentIn(a + b, initial, table)
  {
    hide Mode;
    var es := a + b;
    forall i | 0 <= i < |es| && es[i].Send? ensures Mode(es[..i], initial) == table {
      if i < |a| {
        assert es[..i] == a[..i];
      } else {
        assert es[..i] == a + b[..i - |a|];
        ModeAppend(a, b[..i - |a|], initial);
      }
    }
  }

  /** Accesses that neither send nor touch the field. */
  predicate Neutral(es: seq<Event>) { forall e :: e in es ==> !e.Send? && !e.DmaMode? }

  lemma {:induction false} NeutralKeeps(es: seq<Event>, initial: bool, table: bool)
    requires Neutral(es)
    ensures Mode(es, initial) == initial && SentIn(es, initial, table)
  {
    if es != [] {
      assert forall e :: e in es[..|es| - 1] ==> e in es;
      assert es[|es| - 1] in es;
      NeutralKeeps(es[..|es| - 1], initial, table);
    }
  }

  lemma NoAccess(initial: bool, table: bool)
    ensures Mode([], initial) == initial && SentIn([], initial, table)
  {
  }

  lemma OneAccess(e: Event, initial: bool, table: bool)
    ensures Mode([e], initial) == if e.DmaMode? then e.table else initial
    ensures !e.Send? || initial == table ==> SentIn([e], initial, table)
  {
    assert [e][..0] == [];
  }

  /** One more piece of a list of accesses. */
  lemma Extend(a: seq<Event>, b: seq<Event>, initial: bool, table: bool, after: bool)
    requires SentIn(a, initial, table) && SentIn(b, Mode(a, initial), table)
    requires Mode(b, Mode(a, initial)) == after
    ensures SentIn(a + b, initial, table) && Mode(a + b, initial) == after
  {
    ModeAppend(a, b, initial);
    SentAppend(a, b, initial, table);
  }

  /** The attempt up to the send: the table is selected if there is one. */
  lemma IssueDiscipline(t: Ticket, a: Answers)
    requires LegalAnswers(t, a)
    ensures var after := Admitted(t, a) && t.UsesTable();
      SentIn(IssueEvents(t, a), false, t.UsesTable()) && Mode(IssueEvents(t, a), false) == after
  {
    hide Mode, SentIn, Admitted, Issued, GraceReadings, PollReadings, DrainReadings, DrainEvents, Neutral, GraceEvents;
    GraceIsNeutral(t, a);
    NeutralKeeps(GraceEvents(t, a), false, t.UsesTable());
    if !Admitted(t, a) {
      assert IssueEvents(t, a) == GraceEvents(t, a) by { NotSent(t, a); }
      return;
    }
    DrainIsNeutral(a.drain);
    var select: seq<Event> := if t.UsesTable() then [DmaMode(true)] else [];
    var send: seq<Event> := if Issued(t, a) then [Send(t.dmaEnable)] else [];
    NoAccess(false, t.UsesTable());
    OneAccess(DmaMode(true), false, t.UsesTable());
    assert SentIn(select, false, t.UsesTable()) && Mode(select, false) == t.UsesTable();
    NeutralKeeps(DrainEvents(a.drain), t.UsesTable(), t.UsesTable());
    Extend(select, DrainEvents(a.drain), false, t.UsesTable(), t.UsesTable());
    Extend(GraceEvents(t, a), select + DrainEvents(a.drain), false, t.UsesTable(), t.UsesTable());
    NoAccess(t.UsesTable(), t.UsesTable());
    OneAccess(Send(t.dmaEnable), t.UsesTable(), t.UsesTable());
    Extend(BeforeSend(t, a), send, false, t.UsesTable(), t.UsesTable());
  }

  lemma NotSent(t: Ticket, a: Answers)
    requires |a.drain| > 0 && !Admitted(t, a)
    ensures IssueEvents(t, a) == GraceEvents(t, a)
  {
  }

  lemma GraceIsNeutral(t: Ticket, a: Answers)
    ensures Neutral(GraceEvents(t, a))
  {
  }

  lemma DrainIsNeutral(words: seq<Word>)
    requires |words| > 0
    ensures Neutral(DrainEvents(words))
  {
    DrainOnlyLooks(words);
  }

  lemma SentIsNeutral(t: Ticket, a: Answers)
    requires LegalAnswers(t, a)
    ensures Neutral(SentEvents(t, a))
  {
    hide PollReadings, DrainReadings, PollEvents, VerdictEvents;
    PollOnlyLooks(t, a.polls);
    VerdictOnlyLooks(t, a);
  }

  lemma RecoveryIsNeutral(t: Ticket, p: Pass)
    ensures Neutral(RecoveryEvents(t, p.action, p.resetOk))
  {
  }

  /** A whole pass starts and ends in the default mode. */
  lemma PassDiscipline(t: Ticket, p: Pass)
    requires LegalAnswers(t, p.answers)
    ensures SentIn(PassEvents(t, p), false, t.UsesTable()) && !Mode(PassEvents(t, p), false)
  {
    hide Mode, SentIn, Admitted, Issued, GraceReadings, BusyReadings, PollReadings, DrainReadings, SentEvents, Neutral,
         IssueEvents, RecoveryEvents;
    var a, table := p.answers, t.UsesTable();
    var selected := Admitted(t, a) && table;
    IssueDiscipline(t, a);
    var sent: seq<Event> := if Issued(t, a) then SentEvents(t, a) else [];
    SentIsNeutral(t, a);
    NeutralKeeps(SentEvents(t, a), selected, table);
    NoAccess(selected, table);
    Extend(IssueEvents(t, a), sent, false, table, selected);
    OneAccess(CardRead(p.cardInserted), selected, table);
    Extend(IssueEvents(t, a) + sent, [CardRead(p.cardInserted)], false, table, selected);
    var restore: seq<Event> := if selected then [DmaMode(false)] else [];
    OneAccess(DmaMode(false), selected, table);
    Extend(IssueEvents(t, a) + sent + [CardRead(p.cardInserted)], restore, false, table, false);
    RecoveryIsNeutral(t, p);
    NeutralKeeps(RecoveryEvents(t, p.action, p.resetOk), false, table);
    Extend(AttemptEvents(t, a, p.cardInserted), RecoveryEvents(t, p.action, p.resetOk), false, table, false);
  }

  lemma {:induction false} RunDiscipline(t: Ticket, run: seq<Pass>)
    requires forall k :: 0 <= k < |run| ==> LegalPass(t, run[k], k)
    ensures SentIn(RunEvents(t, run), false, t.UsesTable()) && !Mode(RunEvents(t, run), false)
    decreases |run|
  {
    hide Mode, SentIn, PassEvents, LegalAnswers, Action;
    if run == [] {
      NoAccess(false, t.UsesTable());
      return;
    }
    var last := |run| - 1;
    assert LegalPass(t, run[last], last);
    RunDiscipline(t, run[..last]);
    PassDiscipline(t, run[last]);
    Extend(RunEvents(t, run[..last]), PassEvents(t, run[last]), false, t.UsesTable(), false);
  }

  /** On every run that starts in the default mode, each command is sent in the mode its descriptors
      call for, and the default mode is back when the ticket is marked done, whatever failed. */
  lemma ModeMatchesEverySend(t: Ticket, run: seq<Pass>)
    requires LegalRun(t, run)
    ensures SentIn(DriveEvents(t, run), false, t.UsesTable()) && !Mode(DriveEvents(t, run), false)
  {
    hide Mode, SentIn, PassEvents, LegalAnswers, Action;
    if ZeroBlocks(t) {
      OneAccess(Done(B_OK), false, t.UsesTable());
    } else {
      RunDiscipline(t, run);
    }
  }
}
