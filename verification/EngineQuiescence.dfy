/** DMA quiescence: the register accesses of a run, set against every behaviour of a controller
    that may latch bits early, late, repeatedly or not at all. */
module EngineQuiescence {
  import opened Command
  import opened Convergence
  import opened EngineSpec
  import opened EngineTheorems

  /** The controller as far as the protocol depends on it: the latched status, the last word the
      worker read, whether a DMA transfer is running, and whether a TransferComplete of an
      earlier command may still surface. */
  datatype Hw = Hw(latch: Word, lastRead: Word, live: bool, late: bool)

  predicate Clean(word: Word) { word != FLOATING && word * DRAIN_MASK == EMPTY }

  /** Between two accesses bits come and go freely, except that TransferComplete surfaces only if
      it was there before, is a late one, or the transfer has ended. */
  predicate Latches(h: Hw, base: Word, h': Hw) {
    && h'.late == h.late
    && (h'.live ==> h.live)
    && (TRANSFER_COMPLETE in h'.latch ==> TRANSFER_COMPLETE in base || h.late || !h'.live)
  }

  /** What the controller may do around one access. A word that is not floating shows the managed
      bits truthfully. After a clean readback just before the send, every TransferComplete belongs
      to the command being sent. */
  predicate HwStep(h: Hw, e: Event, h': Hw) {
    match e
    case StatusRead(w) =>
      Latches(h, h.latch, h') && h'.lastRead == w
      && (w == FLOATING || w * DRAIN_MASK == h'.latch * DRAIN_MASK)
    case StatusClear(bits) => Latches(h, h.latch - bits, h') && h'.lastRead == h.lastRead
    case LineRead(_, _) => Latches(h, h.latch, h') && h'.lastRead == h.lastRead
    case ClockRead(_) => Latches(h, h.latch, h') && h'.lastRead == h.lastRead
    case OcrRead(_) => Latches(h, h.latch, h') && h'.lastRead == h.lastRead
    case CardRead(_) => Latches(h, h.latch, h') && h'.lastRead == h.lastRead
    case DmaMode(_) => Latches(h, h.latch, h') && h'.lastRead == h.lastRead
    case Send(dma) =>
      (h'.live ==> h.live || dma) && h'.lastRead == h.lastRead
      && (Clean(h.lastRead) ==> !h'.late && (TRANSFER_COMPLETE in h'.latch ==> !h'.live))
    case LineReset(ok) => Latches(h, h.latch, h') && h'.lastRead == h.lastRead && (ok ==> !h'.live)
    case PowerCut => Latches(h, h.latch, h') && h'.lastRead == h.lastRead && !h'.live
    case Done(_) => Latches(h, h.latch, h') && h'.lastRead == h.lastRead
  }

  /** `hs[i]` is the controller before access `i`. */
  predicate HwRun(hs: seq<Hw>, es: seq<Event>) {
    |hs| == |es| + 1 && forall i :: 0 <= i < |es| ==> HwStep(hs[i], es[i], hs[i + 1])
  }

  lemma SplitRun(hs: seq<Hw>, a: seq<Event>, b: seq<Event>)
    requires HwRun(hs, a + b)
    ensures HwRun(hs[..|a| + 1], a) && HwRun(hs[|a|..], b)
  {
    forall i | 0 <= i < |a| ensures HwStep(hs[i], a[i], hs[i + 1]) { assert (a + b)[i] == a[i]; }
    forall i | 0 <= i < |b| ensures HwStep(hs[|a| + i], b[i], hs[|a| + i + 1]) {
      assert (a + b)[|a| + i] == b[i];
    }
  }

  /** Every send of `es` is made while no DMA is running. */
  predicate SafeSends(hs: seq<Hw>, es: seq<Event>)
    requires |hs| == |es| + 1
  {
    forall i :: 0 <= i < |es| && es[i].Send? ==> !hs[i].live
  }

  /** No access of `es` is a send made while DMA is running, and none is running at the end. */
  predicate Orderly(hs: seq<Hw>, es: seq<Event>)
    requires |hs| == |es| + 1
  {
    SafeSends(hs, es) && !hs[|es|].live
  }

  lemma SafeSendsAppend(hs: seq<Hw>, a: seq<Event>, b: seq<Event>)
    requires |hs| == |a| + |b| + 1
    requires SafeSends(hs[..|a| + 1], a) && SafeSends(hs[|a|..], b)
    ensures SafeSends(hs, a + b)
  {
    forall i | 0 <= i < |a + b| && (a + b)[i].Send? ensures !hs[i].live {
      if i < |a| { assert hs[..|a| + 1][i] == hs[i]; } else { assert hs[|a|..][i - |a|] == hs[i]; }
    }
  }

  /** Without a send, DMA cannot start. */
  lemma {:induction false} NoSendNoStart(hs: seq<Hw>, es: seq<Event>)
    requires HwRun(hs, es) && forall e :: e in es ==> !e.Send?
    ensures hs[|es|].live ==> hs[0].live
    ensures SafeSends(hs, es)
    decreases |es|
  {
    if es != [] {
      var n := |es| - 1;
      assert es[n] in es;
      NoSendNoStart(hs[..n + 1], es[..n]);
      assert HwStep(hs[n], es[n], hs[n + 1]);
      forall i | 0 <= i < |es| ensures !es[i].Send? { assert es[i] in es; }
    }
  }

  /** What a send after a clean readback establishes and every later access keeps. */
  predicate Honest(h: Hw) { !h.late && (TRANSFER_COMPLETE in h.latch ==> !h.live) }

  lemma {:induction false} WaitsAreHonest(hs: seq<Hw>, words: seq<Word>)
    requires HwRun(hs, WaitEvents(words)) && Honest(hs[0])
    ensures var h := hs[|hs| - 1];
      Honest(h) && (h.live ==> hs[0].live) && (Seen(words, TRANSFER_COMPLETE) ==> !h.live)
    decreases |words|
  {
    if words != [] {
      var init, w := words[..|words| - 1], words[|words| - 1];
      var a, b := WaitEvents(init) + PollStep(w), [ClockRead(false)];
      SplitRun(hs, a, b);
      SplitRun(hs[..|a| + 1], WaitEvents(init), PollStep(w));
      WaitsAreHonest(hs[..|a| + 1][..|WaitEvents(init)| + 1], init);
      OnePollIsHonest(hs[..|a| + 1][|WaitEvents(init)|..], w);
      ClockIsHonest(hs[|a|..], b);
      SeenLater(words);
    }
  }

  lemma SeenLater(words: seq<Word>)
    requires words != []
    ensures Seen(words, TRANSFER_COMPLETE) ==>
      Seen(words[..|words| - 1], TRANSFER_COMPLETE)
      || (!IsSpuriousMeow(words[|words| - 1]) && TRANSFER_COMPLETE in words[|words| - 1])
  {
    var init := words[..|words| - 1];
    assert forall i :: 0 <= i < |init| ==> init[i] == words[i];
  }

  lemma ClockIsHonest(hs: seq<Hw>, es: seq<Event>)
    requires HwRun(hs, es) && Honest(hs[0]) && |es| <= 1 && (es != [] ==> es[0].ClockRead?)
    ensures Honest(hs[|hs| - 1]) && (hs[|hs| - 1].live ==> hs[0].live)
  {
    if es != [] { assert HwStep(hs[0], es[0], hs[1]); }
  }

  /** From an honest state, a credible TransferComplete among the polled words means DMA is over. */
  lemma PollsAreHonest(hs: seq<Hw>, t: Ticket, words: seq<Word>)
    requires |words| > 0 && HwRun(hs, PollEvents(t, words)) && Honest(hs[0])
    ensures var h := hs[|hs| - 1];
      Honest(h) && (h.live ==> hs[0].live) && (Seen(words, TRANSFER_COMPLETE) ==> !h.live)
  {
    hide Honest, Seen, HwStep, PollStep, WaitEvents, Verdict;
    var init, w := words[..|words| - 1], words[|words| - 1];
    var a := WaitEvents(init) + PollStep(w);
    var b: seq<Event> := if Verdict(t, words) == KeepPolling then [ClockRead(true)] else [];
    assert PollEvents(t, words) == a + b;
    SplitRun(hs, a, b);
    SplitRun(hs[..|a| + 1], WaitEvents(init), PollStep(w));
    WaitsAreHonest(hs[..|a| + 1][..|WaitEvents(init)| + 1], init);
    OnePollIsHonest(hs[..|a| + 1][|WaitEvents(init)|..], w);
    ClockIsHonest(hs[|a|..], b);
    SeenLater(words);
  }

  lemma OnePollIsHonest(hs: seq<Hw>, w: Word)
    requires HwRun(hs, PollStep(w)) && Honest(hs[0])
    ensures var h := hs[|hs| - 1];
      Honest(h) && (h.live ==> hs[0].live)
      && (!IsSpuriousMeow(w) && TRANSFER_COMPLETE in w ==> !h.live)
  {
    assert HwStep(hs[0], PollStep(w)[0], hs[1]);
    assert TRANSFER_COMPLETE in DRAIN_MASK;
    if !IsSpuriousMeow(w) && TRANSFER_COMPLETE in w {
      assert TRANSFER_COMPLETE in w * DRAIN_MASK;
      assert TRANSFER_COMPLETE in hs[1].latch;
    }
    if |PollStep(w)| == 2 { assert HwStep(hs[1], PollStep(w)[1], hs[2]); }
  }

  /** The drain before this attempt's send ended on a word that was not floating. */
  predicate Trusted(a: Answers) { a.drain != [] ==> a.drain[|a.drain| - 1] != FLOATING }

  lemma {:induction false} DrainEndsOnLastWord(hs: seq<Hw>, words: seq<Word>)
    requires |words| > 0 && HwRun(hs, DrainEvents(words))
    ensures hs[|hs| - 1].lastRead == words[|words| - 1]
  {
    var es := DrainEvents(words);
    var n := |es| - 1;
    assert es[n] == StatusRead(words[|words| - 1]);
    assert HwStep(hs[n], es[n], hs[n + 1]);
  }

  /** The accesses before the send leave the last drained word as the last word read. */
  lemma BeforeSendEndsOnDrain(hs: seq<Hw>, t: Ticket, a: Answers)
    requires |a.drain| > 0 && Admitted(t, a) && HwRun(hs, BeforeSend(t, a))
    ensures hs[|hs| - 1].lastRead == a.drain[|a.drain| - 1]
  {
    hide GraceEvents, DrainEvents, Admitted, HwStep;
    var mode: seq<Event> := if t.UsesTable() then [DmaMode(true)] else [];
    var before := GraceEvents(t, a) + mode;
    assert BeforeSend(t, a) == before + DrainEvents(a.drain);
    SplitRun(hs, before, DrainEvents(a.drain));
    DrainEndsOnLastWord(hs[|before|..], a.drain);
  }

  /** The decision leaves the data line as the attempt left it. */
  predicate Accepted(p: Pass) { p.action == Succeed || p.action == Retry }

  /** An attempt that ends in success or in a retry without reset has seen the transfer complete. */
  lemma AcceptedMeansComplete(t: Ticket, p: Pass, attempt: nat)
    requires t.WellFormed() && t.dmaEnable && LegalPass(t, p, attempt) && Accepted(p)
    ensures Issued(t, p.answers) && Seen(p.answers.polls, TRANSFER_COMPLETE)
  {
    hide PollReadings, DrainReadings, BitsToAcknowledge, ClassifyPoll;
    DataVerdictIsExact(p.answers.polls);
  }

  /** The recovery after any other decision stops the DMA of a data command. */
  lemma RecoveryStopsDma(hs: seq<Hw>, t: Ticket, p: Pass)
    requires t.WellFormed() && HwRun(hs, RecoveryEvents(t, p.action, p.resetOk))
    ensures SafeSends(hs, RecoveryEvents(t, p.action, p.resetOk))
    ensures hs[|hs| - 1].live ==> hs[0].live && (t.dmaEnable ==> Accepted(p))
  {
    var es := RecoveryEvents(t, p.action, p.resetOk);
    NoSendNoStart(hs, es);
    if !Accepted(p) && t.dmaEnable {
      assert HwStep(hs[0], es[0], hs[1]);
      if |es| > 1 { assert HwStep(hs[1], es[1], hs[2]); }
      if |es| > 2 { assert HwStep(hs[2], es[2], hs[3]); }
    }
  }

  /** From the send to the verdict: afterwards DMA can be running only if it was started by this
      command or before it, and after a clean readback only if no completion was seen. */
  lemma SendAndPolls(hs: seq<Hw>, t: Ticket, words: seq<Word>)
    requires |words| > 0 && HwRun(hs, [Send(t.dmaEnable)] + PollEvents(t, words))
    ensures var live := hs[|hs| - 1].live;
      && (live ==> hs[0].live || t.dmaEnable)
      && (live && Clean(hs[0].lastRead) ==> !Seen(words, TRANSFER_COMPLETE))
  {
    hide Seen, Clean, Honest, PollEvents, Latches;
    var send := [Send(t.dmaEnable)];
    SplitRun(hs, send, PollEvents(t, words));
    assert HwStep(hs[..2][0], send[0], hs[..2][1]);
    PollOnlyLooks(t, words);
    NoSendNoStart(hs[1..], PollEvents(t, words));
    if Clean(hs[0].lastRead) {
      assert Honest(hs[1]) by { SendIsHonest(hs[0], t, hs[1]); }
      PollsAreHonest(hs[1..], t, words);
    }
  }

  lemma SendIsHonest(h: Hw, t: Ticket, h': Hw)
    requires HwStep(h, Send(t.dmaEnable), h') && Clean(h.lastRead)
    ensures Honest(h')
  {
  }

  lemma CleanDrain(a: Answers, t: Ticket)
    requires |a.drain| > 0 && Issued(t, a) && Trusted(a)
    ensures Clean(a.drain[|a.drain| - 1])
  {
  }

  lemma IssuedIsAdmitted(t: Ticket, a: Answers)
    requires |a.drain| > 0 && Issued(t, a)
    ensures Admitted(t, a)
  {
  }

  /** The settling and the recovery after an attempt. */
  lemma AfterPollsEffect(hs: seq<Hw>, t: Ticket, p: Pass)
    requires t.WellFormed() && LegalAnswers(t, p.answers) && HwRun(hs, AfterPolls(t, p))
    ensures SafeSends(hs, AfterPolls(t, p))
    ensures hs[|hs| - 1].live ==> hs[0].live && (t.dmaEnable ==> Accepted(p))
  {
    hide LegalAnswers, RecoveryEvents, HwStep, Settle, Issued, Accepted;
    var settle, rec := Settle(t, p), RecoveryEvents(t, p.action, p.resetOk);
    AuxiliaryAccesses(t, p);
    SplitRun(hs, settle, rec);
    NoSendNoStart(hs[..|settle| + 1], settle);
    RecoveryStopsDma(hs[|settle|..], t, p);
    SafeSendsAppend(hs, settle, rec);
  }

  /** An attempt that was sent, from its send on. */
  lemma SentEffect(hs: seq<Hw>, t: Ticket, p: Pass, attempt: nat)
    requires t.WellFormed() && LegalPass(t, p, attempt) && Issued(t, p.answers)
    requires HwRun(hs, ([Send(t.dmaEnable)] + PollEvents(t, p.answers.polls)) + AfterPolls(t, p))
    ensures !hs[0].live ==> SafeSends(hs, ([Send(t.dmaEnable)] + PollEvents(t, p.answers.polls)) + AfterPolls(t, p))
    ensures hs[|hs| - 1].live ==>
              if t.dmaEnable then Accepted(p) && !Clean(hs[0].lastRead) else hs[0].live
  {
    hide GraceReadings, BusyReadings, DrainReadings, PollReadings, Action, HwStep, AfterPolls, Issued, PollEvents, Seen;
    hide Clean, Accepted;
    var head, tail := [Send(t.dmaEnable)] + PollEvents(t, p.answers.polls), AfterPolls(t, p);
    SplitRun(hs, head, tail);
    SendAndPolls(hs[..|head| + 1], t, p.answers.polls);
    AfterPollsEffect(hs[|head|..], t, p);
    if t.dmaEnable && Accepted(p) { AcceptedMeansComplete(t, p, attempt); }
    if !hs[0].live {
      PollOnlyLooks(t, p.answers.polls);
      assert forall i :: 0 < i < |head| ==> head[i] in PollEvents(t, p.answers.polls);
      SafeSendsAppend(hs, head, tail);
    }
  }

  /** One pass. DMA can be running after it only if it runs over from before the pass and the
      command has none, or the attempt was accepted on the strength of a floating word. */
  lemma PassEffect(hs: seq<Hw>, t: Ticket, p: Pass, attempt: nat)
    requires t.WellFormed() && LegalPass(t, p, attempt)
    requires HwRun(hs, PassEvents(t, p))
    ensures (Issued(t, p.answers) ==> !hs[0].live) ==> SafeSends(hs, PassEvents(t, p))
    ensures hs[|hs| - 1].live ==>
              if t.dmaEnable then Accepted(p) && !Trusted(p.answers) else hs[0].live
  {
    hide PollReadings, DrainReadings, Action, BeforeSend, PassEvents, RecoveryEvents, HwStep, AfterPolls;
    hide Clean, Accepted, Trusted, Issued, PollEvents;
    var a := p.answers;
    var pre, rest := BeforeSend(t, a), AfterPolls(t, p);
    var mid := if Issued(t, a) then [Send(t.dmaEnable)] + PollEvents(t, a.polls) else [];
    PassShape(t, p);
    assert PassEvents(t, p) == pre + (mid + rest);
    AuxiliaryAccesses(t, p);
    SplitRun(hs, pre, mid + rest);
    NoSendNoStart(hs[..|pre| + 1], pre);
    if Issued(t, a) {
      IssuedIsAdmitted(t, a);
      BeforeSendEndsOnDrain(hs[..|pre| + 1], t, a);
      if Trusted(a) { CleanDrain(a, t); }
      SentEffect(hs[|pre|..], t, p, attempt);
    } else {
      assert mid + rest == rest;
      AfterPollsEffect(hs[|pre|..], t, p);
      if t.dmaEnable && Accepted(p) { AcceptedMeansComplete(t, p, attempt); }
    }
    if Issued(t, a) ==> !hs[0].live { SafeSendsAppend(hs, pre, mid + rest); }
  }

  /** The protocol relies on the completion that attempt `k` saw: the transaction succeeds on it, or
      the next command is sent without a reset in between. */
  predicate Relies(t: Ticket, run: seq<Pass>, k: int)
    requires 0 <= k < |run| && forall k :: 0 <= k < |run| ==> LegalPass(t, run[k], k)
  {
    assert LegalPass(t, run[k], k);
    assert k + 1 < |run| ==> LegalPass(t, run[k + 1], k + 1);
    && Issued(t, run[k].answers)
    && (run[k].action == Succeed
        || (run[k].action == Retry && k + 1 < |run| && Issued(t, run[k + 1].answers)))
  }

  /** Every attempt whose completion is relied on was sent on the strength of a credible word. */
  predicate TrustedRun(t: Ticket, run: seq<Pass>)
    requires forall k :: 0 <= k < |run| ==> LegalPass(t, run[k], k)
  {
    forall k :: 0 <= k < |run| && Relies(t, run, k) ==> Trusted(run[k].answers)
  }

  lemma TrustedPrefix(t: Ticket, run: seq<Pass>)
    requires run != [] && (forall k :: 0 <= k < |run| ==> LegalPass(t, run[k], k)) && TrustedRun(t, run)
    ensures TrustedRun(t, run[..|run| - 1])
  {
    hide LegalAnswers, Action, Issued, Trusted;
    var init := run[..|run| - 1];
    forall k | 0 <= k < |init| && Relies(t, init, k) ensures Trusted(init[k].answers) {
      assert LegalPass(t, run[k], k);
      assert Relies(t, run, k);
    }
  }

  /** A prefix of a run in which only relied-on attempts had to be trusted. */
  lemma {:induction false} PassesAreOrderly(hs: seq<Hw>, t: Ticket, run: seq<Pass>)
    requires t.WellFormed()
    requires forall k :: 0 <= k < |run| ==> LegalPass(t, run[k], k)
    requires forall k :: 0 <= k < |run| - 1 ==> !IsFinal(run[k].action, run[k].resetOk)
    requires t.dmaEnable ==> TrustedRun(t, run)
    requires HwRun(hs, RunEvents(t, run)) && !hs[0].live
    ensures SafeSends(hs, RunEvents(t, run))
    ensures hs[|hs| - 1].live ==>
              run != [] && t.dmaEnable && Accepted(run[|run| - 1]) && !Trusted(run[|run| - 1].answers)
    decreases |run|
  {
    hide DrainReadings, PollReadings, Action, PassEvents, Trusted, Issued, HwStep;
    if run != [] {
      var last := |run| - 1;
      var a, b := RunEvents(t, run[..last]), PassEvents(t, run[last]);
      SplitRun(hs, a, b);
      if t.dmaEnable { TrustedPrefix(t, run); }
      PassesAreOrderly(hs[..|a| + 1], t, run[..last]);
      PassEffect(hs[|a|..], t, run[last], last);
      assert LegalPass(t, run[last], last);
      if last > 0 && t.dmaEnable && Accepted(run[last - 1]) && Issued(t, run[last].answers) {
        AcceptedMeansComplete(t, run[last - 1], last - 1);
        assert Relies(t, run, last - 1);
      }
      SafeSendsAppend(hs, a, b);
    }
  }

  /** DMA quiescence. Whatever the controller does, if no attempt that is relied on was sent on the
      strength of a floating word, then no DMA is running when the ticket is marked done, and every
      command is sent with no earlier DMA running. */
  lemma QuiescentWhenDone(hs: seq<Hw>, t: Ticket, run: seq<Pass>)
    requires t.WellFormed() && LegalRun(t, run)
    requires t.dmaEnable ==> TrustedRun(t, run)
    requires HwRun(hs, DriveEvents(t, run)) && !hs[0].live
    ensures Orderly(hs, DriveEvents(t, run))
  {
    hide LegalAnswers, Action, PassEvents, Trusted, Issued, HwStep;
    if ZeroBlocks(t) {
      NoSendNoStart(hs, [Done(B_OK)]);
    } else {
      PassesAreOrderly(hs, t, run);
      var last := |run| - 1;
      if t.dmaEnable && Accepted(run[last]) {
        assert LegalPass(t, run[last], last);
        AcceptedMeansComplete(t, run[last], last);
        assert Relies(t, run, last);
      }
    }
  }

  // ---- the assumption on the drain is exactly what is needed --------------------------

  /** A controller that follows the accesses of `es`, ends every transfer at once except the one
      started by access `kept`, and lets late bits surface while that one runs. */
  function Adversary(es: seq<Event>, kept: nat): Hw {
    if es == [] then Hw(EMPTY, EMPTY, false, false)
    else
      var h := Adversary(es[..|es| - 1], kept);
      match es[|es| - 1]
      case StatusRead(w) => h.(latch := if w == FLOATING then EMPTY else w, lastRead := w)
      case StatusClear(_) => h.(latch := EMPTY)
      case Send(_) =>
        var keep := |es| - 1 == kept;
        h.(latch := EMPTY, live := keep, late := keep)
      case LineReset(_) => h.(live := false)
      case PowerCut => h.(live := false)
      case LineRead(_, _) | ClockRead(_) | OcrRead(_) | CardRead(_) | DmaMode(_) | Done(_) => h
  }

  /** The last move of the adversary is one a controller may make. */
  lemma AdversaryMoves(es: seq<Event>, kept: nat)
    requires es != []
    requires var n := |es| - 1;
      var h := Adversary(es[..n], kept);
      (n == kept ==> es[n] == Send(true) && h.lastRead == FLOATING) && (h.live ==> h.late)
    ensures HwStep(Adversary(es[..|es| - 1], kept), es[|es| - 1], Adversary(es, kept))
    ensures Adversary(es, kept).live ==> Adversary(es, kept).late
  {
  }

  /** The adversary's states along `es`. */
  function AdversaryRun(es: seq<Event>, kept: nat): (hs: seq<Hw>)
    ensures |hs| == |es| + 1
    ensures forall i :: 0 <= i <= |es| ==> hs[i] == Adversary(es[..i], kept)
  {
    seq(|es| + 1, i requires 0 <= i <= |es| => Adversary(es[..i], kept))
  }

  /** The adversary is a possible controller as long as the kept transfer was sent on the strength
      of a floating word. */
  lemma {:induction false} AdversaryIsPossible(es: seq<Event>, kept: nat)
    requires kept < |es| ==> es[kept] == Send(true) && Adversary(es[..kept], kept).lastRead == FLOATING
    ensures HwRun(AdversaryRun(es, kept), es)
    ensures Adversary(es, kept).live ==> Adversary(es, kept).late
  {
    hide HwStep, Adversary;
    if es == [] {
      NoAdversary(kept);
    } else {
      var n := |es| - 1;
      var init := es[..n];
      forall i | 0 <= i <= n ensures init[..i] == es[..i] {}
      AdversaryIsPossible(init, kept);
      assert es[..|es|] == es;
      AdversaryMoves(es, kept);
      var hs, hi := AdversaryRun(es, kept), AdversaryRun(init, kept);
      forall i | 0 <= i < |es| ensures HwStep(hs[i], es[i], hs[i + 1]) {
        if i < n { assert HwStep(hi[i], init[i], hi[i + 1]); }
      }
    }
  }

  lemma NoAdversary(kept: nat)
    ensures Adversary([], kept) == Hw(EMPTY, EMPTY, false, false)
  {
  }

  predicate EndsTransfers(e: Event) { e.Send? || e.LineReset? || e.PowerCut? }

  lemma {:induction false} KeptTransferStaysLive(es: seq<Event>, kept: nat)
    requires kept < |es| && es[kept].Send?
    requires forall i :: kept < i < |es| ==> !EndsTransfers(es[i])
    ensures Adversary(es, kept).live
    decreases |es|
  {
    if kept < |es| - 1 { KeptTransferStaysLive(es[..|es| - 1], kept); }
  }

  /** A transfer sent after a floating word may outlast every access that neither sends nor resets. */
  lemma KeptTransfer(pre: seq<Event>, mid: seq<Event>, rest: seq<Event>) returns (hs: seq<Hw>)
    requires Adversary(pre, |pre|).lastRead == FLOATING
    requires forall e :: e in mid ==> !EndsTransfers(e)
    ensures HwRun(hs, pre + [Send(true)] + mid + rest) && !hs[0].live && hs[|pre| + 1 + |mid|].live
  {
    hide HwStep, Adversary;
    var kept := |pre|;
    var head := pre + [Send(true)] + mid;
    var es := head + rest;
    assert es[..kept] == pre && es[..|head|] == head && es[..0] == [];
    forall i | kept < i < |head| ensures !EndsTransfers(head[i]) { assert head[i] in mid; }
    AdversaryIsPossible(es, kept);
    KeptTransferStaysLive(head, kept);
    NoAdversary(kept);
    hs := AdversaryRun(es, kept);
  }

  lemma AdversaryReadsDrain(before: seq<Event>, t: Ticket, a: Answers, kept: nat)
    requires |a.drain| > 0 && Admitted(t, a)
    ensures Adversary(before + BeforeSend(t, a), kept).lastRead == a.drain[|a.drain| - 1]
  {
    var es := before + BeforeSend(t, a);
    assert es[|es| - 1] == StatusRead(a.drain[|a.drain| - 1]);
  }

  /** What follows the polls of an accepted attempt neither sends nor resets. */
  lemma AcceptedIsLeftAlone(t: Ticket, p: Pass, attempt: nat)
    requires LegalPass(t, p, attempt) && Accepted(p)
    ensures forall e :: e in PollEvents(t, p.answers.polls) + AfterPolls(t, p) ==> !EndsTransfers(e)
  {
    hide LegalAnswers, Action, Settle, PollEvents;
    AuxiliaryAccesses(t, p);
  }

  /** The accesses of an issued attempt, cut at its send. */
  lemma IssuedPass(t: Ticket, p: Pass)
    requires LegalAnswers(t, p.answers) && Issued(t, p.answers)
    ensures PassEvents(t, p) == BeforeSend(t, p.answers) + [Send(t.dmaEnable)]
              + (PollEvents(t, p.answers.polls) + AfterPolls(t, p))
  {
    hide LegalAnswers, Issued, BeforeSend, AfterPolls, PassEvents, PollEvents;
    PassShape(t, p);
  }

  /** A transfer that is relied on although it was sent after a floating word may still be running
      when the next command is sent, or when the ticket is done. */
  lemma FloatingDrainIsUnsafe(t: Ticket, run: seq<Pass>, k: nat) returns (hs: seq<Hw>)
    requires t.WellFormed() && t.dmaEnable && LegalRun(t, run)
    requires k < |run| && Relies(t, run, k) && !Trusted(run[k].answers)
    ensures HwRun(hs, DriveEvents(t, run)) && !hs[0].live
    ensures if run[k].action == Succeed then hs[|hs| - 1].live else !SafeSends(hs, DriveEvents(t, run))
  {
    hide DrainReadings, PollReadings, HwStep, BeforeSend, AfterPolls, Action, PollEvents, RunEvents, PassEvents,
         Issued, SafeSends;
    assert LegalPass(t, run[k], k);
    var pre, mid := BeforeRelied(t, run, k);
    if run[k].action == Succeed {
      assert run[..k + 1] == run;
      hs := KeptTransfer(pre, mid, []);
      assert DriveEvents(t, run) == pre + [Send(true)] + mid + [];
    } else {
      assert LegalPass(t, run[k + 1], k + 1);
      var next, rest := BeforeNext(t, run, k + 1);
      var longer := mid + next;
      hs := KeptTransfer(pre, longer, [Send(true)] + rest);
      assert DriveEvents(t, run) == pre + [Send(true)] + longer + ([Send(true)] + rest);
      SendWhileLive(hs, pre + [Send(true)] + longer, [Send(true)] + rest);
    }
  }

  lemma SendWhileLive(hs: seq<Hw>, before: seq<Event>, after: seq<Event>)
    requires |hs| == |before + after| + 1 && after != [] && after[0].Send? && hs[|before|].live
    ensures !SafeSends(hs, before + after)
  {
    assert (before + after)[|before|] == after[0];
  }

  /** The accesses up to the end of pass `k`, cut at its send. */
  lemma BeforeRelied(t: Ticket, run: seq<Pass>, k: nat) returns (pre: seq<Event>, mid: seq<Event>)
    requires t.dmaEnable && k < |run| && forall k :: 0 <= k < |run| ==> LegalPass(t, run[k], k)
    requires Relies(t, run, k) && !Trusted(run[k].answers)
    ensures RunEvents(t, run[..k + 1]) == pre + [Send(true)] + mid
    ensures Adversary(pre, |pre|).lastRead == FLOATING
    ensures forall e :: e in mid ==> !EndsTransfers(e)
  {
    hide DrainReadings, PollReadings, BeforeSend, AfterPolls, Action, PollEvents, Adversary, RunEvents, PassEvents, Issued;
    var p := run[k];
    assert LegalPass(t, p, k);
    var before := RunEvents(t, run[..k]);
    pre := before + BeforeSend(t, p.answers);
    mid := PollEvents(t, p.answers.polls) + AfterPolls(t, p);
    IssuedIsAdmitted(t, p.answers);
    AdversaryReadsDrain(before, t, p.answers, |pre|);
    AcceptedIsLeftAlone(t, p, k);
    IssuedPass(t, p);
    RunAppends(t, run[..k + 1]);
    assert run[..k + 1][..k] == run[..k];
  }

  /** The accesses from the start of an issued pass on, cut at its send. */
  lemma BeforeNext(t: Ticket, run: seq<Pass>, k: nat) returns (next: seq<Event>, rest: seq<Event>)
    requires t.dmaEnable && k < |run| && forall k :: 0 <= k < |run| ==> LegalPass(t, run[k], k)
    requires LegalAnswers(t, run[k].answers) && Issued(t, run[k].answers)
    ensures RunEvents(t, run) == RunEvents(t, run[..k]) + next + ([Send(true)] + rest)
    ensures forall e :: e in next ==> !EndsTransfers(e)
  {
    hide DrainReadings, PollReadings, BeforeSend, AfterPolls, Action, PollEvents, RunEvents, PassEvents, Issued;
    var p := run[k];
    IssuedPass(t, p);
    RunAppends(t, run[..k + 1]);
    assert run[..k + 1][..k] == run[..k];
    var tail := RunStartsWith(t, run, k + 1);
    AuxiliaryAccesses(t, p);
    next := BeforeSend(t, p.answers);
    rest := PollEvents(t, p.answers.polls) + AfterPolls(t, p) + tail;
  }

  /** No controller that starts quiescent can make the run disorderly. */
  ghost predicate AlwaysOrderly(t: Ticket, run: seq<Pass>)
    requires LegalRun(t, run)
  {
    forall hs: seq<Hw> :: HwRun(hs, DriveEvents(t, run)) && !hs[0].live ==> Orderly(hs, DriveEvents(t, run))
  }

  /** The exact condition. A transaction is orderly under every behaviour of the controller if and
      only if none of its commands started DMA, or every attempt whose completion is relied on was
      sent on the strength of a credible word. */
  lemma QuiescentExactly(t: Ticket, run: seq<Pass>)
    requires t.WellFormed() && LegalRun(t, run)
    ensures AlwaysOrderly(t, run) <==> (t.dmaEnable ==> TrustedRun(t, run))
  {
    hide LegalPass, HwStep, DriveEvents, Trusted, Relies;
    if t.dmaEnable ==> TrustedRun(t, run) {
      forall hs: seq<Hw> | HwRun(hs, DriveEvents(t, run)) && !hs[0].live ensures Orderly(hs, DriveEvents(t, run)) {
        QuiescentWhenDone(hs, t, run);
      }
    } else {
      var k :| 0 <= k < |run| && Relies(t, run, k) && !Trusted(run[k].answers);
      var hs := FloatingDrainIsUnsafe(t, run, k);
    }
  }

  /** The done mark alone needs less: DMA may be running at it if and only if the transaction
      succeeded on an attempt that was sent on the strength of a floating word. */
  lemma DoneIsQuiescentExactly(t: Ticket, run: seq<Pass>)
    requires t.WellFormed() && LegalRun(t, run) && !ZeroBlocks(t)
    ensures (forall hs: seq<Hw> :: HwRun(hs, DriveEvents(t, run)) && !hs[0].live ==> !hs[|hs| - 1].live)
       <==> (t.dmaEnable && DriveStatus(t, run) == B_OK ==> Trusted(run[|run| - 1].answers))
  {
    hide LegalAnswers, Action, HwStep, DriveEvents, Trusted, Issued, Accepted, RunEvents, PassEvents;
    var last := |run| - 1;
    assert LegalPass(t, run[last], last);
    FinalDecision(t, run[last], last);
    if t.dmaEnable && DriveStatus(t, run) == B_OK && !Trusted(run[last].answers) {
      var hs := FloatingDrainIsUnsafe(t, run, last);
    } else {
      forall hs: seq<Hw> | HwRun(hs, DriveEvents(t, run)) && !hs[0].live ensures !hs[|hs| - 1].live {
        EndsQuiet(hs, t, run);
      }
    }
  }

  lemma FinalDecision(t: Ticket, p: Pass, attempt: nat)
    requires LegalPass(t, p, attempt) && IsFinal(p.action, p.resetOk)
    ensures Accepted(p) <==> p.action == Succeed
    ensures FinalStatus(t, p.action, p.resetOk) == B_OK <==> p.action == Succeed
    ensures p.action == Succeed ==> Issued(t, p.answers)
  {
    hide LegalAnswers, Issued, Verdict;
  }

  lemma EndsQuiet(hs: seq<Hw>, t: Ticket, run: seq<Pass>)
    requires t.WellFormed() && LegalRun(t, run) && !ZeroBlocks(t)
    requires t.dmaEnable && DriveStatus(t, run) == B_OK ==> Trusted(run[|run| - 1].answers)
    requires HwRun(hs, DriveEvents(t, run)) && !hs[0].live
    ensures !hs[|hs| - 1].live
  {
    hide LegalAnswers, Action, HwStep, Trusted, Issued, Accepted, RunEvents, PassEvents;
    var last := |run| - 1;
    assert LegalPass(t, run[last], last);
    FinalDecision(t, run[last], last);
    if !t.dmaEnable {
      QuiescentWhenDone(hs, t, run);
    } else {
      RunAppends(t, run);
      var before := RunEvents(t, run[..last]);
      SplitRun(hs, before, PassEvents(t, run[last]));
      PassEffect(hs[|before|..], t, run[last], last);
    }
  }

  /** The condition is not idle: a read whose final drain word floated is sent and can succeed. */
  lemma FloatingDrainHappens() returns (t: Ticket, run: seq<Pass>)
    ensures t.WellFormed() && t.dmaEnable && LegalRun(t, run) && DriveStatus(t, run) == B_OK
    ensures !ZeroBlocks(t) && !Trusted(run[|run| - 1].answers)
  {
    t := Ticket(DEFAULT_CONSTRAINTS, R1, true, false, 1, true, NoTable);
    var a := Answers(FREE, FREE, [FLOATING], [{TRANSFER_COMPLETE}], [EMPTY], true, [false]);
    run := [Pass(a, true, Succeed, true)];
    FloatingDrainIsSent(t, a);
    assert LegalPass(t, run[0], 0);
  }

  /** A completion seen after a floating drain is accepted like any other. */
  lemma FloatingDrainIsSent(t: Ticket, a: Answers)
    requires a.drain == [FLOATING] && a.polls == [{TRANSFER_COMPLETE}] && a.flush == [EMPTY]
    requires t.dataPresent && !t.tuning && Admitted(t, a)
    requires a.command == FREE && a.data == FREE && a.busy == [false]
    ensures LegalAnswers(t, a) && Issued(t, a) && Verdict(t, a.polls) == TransferCompleted
  {
    assert Seen(a.polls, TRANSFER_COMPLETE) by { assert a.polls[0] != FLOATING by { assert 7 in FLOATING; } }
    assert !SeenError(a.polls);
    DataVerdictIsExact(a.polls);
  }

  /** Why a retry is relied on only together with the send after it: an attempt sent after a floating
      word and retried for its OCR harms nobody if the next attempt is refused and resets the line. */
  lemma ResetBeforeTheNextSendIsEnough() returns (t: Ticket, run: seq<Pass>)
    ensures t.WellFormed() && t.dmaEnable && LegalRun(t, run)
    ensures |run| == 2 && Issued(t, run[0].answers) && run[0].action == Retry && !Trusted(run[0].answers)
    ensures AlwaysOrderly(t, run)
  {
    hide AlwaysOrderly, DriveEvents;
    t := Ticket(DEFAULT_CONSTRAINTS.(maxRetries := 1, validateOcr := true), R1, true, false, 1, true, NoTable);
    var a := Answers(FREE, FREE, [FLOATING], [{TRANSFER_COMPLETE}], [EMPTY], false, [false]);
    var refused := a.(command := [false, true]);
    run := [Pass(a, true, Retry, true), Pass(refused, true, Fail, true)];
    FloatingDrainIsSent(t, a);
    assert LegalAnswers(t, refused);
    assert LegalPass(t, run[0], 0) && LegalPass(t, run[1], 1);
    QuiescentExactly(t, run);
  }
}
