/** Callers that sleep until a fence of their client is resolved (WaitRenderQueueFence), the worker's
    completion signals, and callers that take completion records (DequeueRenderCompletion). All of
    them share one counting semaphore. */
module RenderWait {
  import opened RenderClient

  datatype WaiterAt = Checking | Sleeping | Returned

  /** A call that waits for a fence; `seen` is the last retired fence at its latest check. */
  datatype Waiter = Waiter(fence: nat, at: WaiterAt, seen: nat)

  /** `owed` signals are decided and not yet released; `taking` calls have taken a record and not yet
      touched the semaphore. */
  datatype State = State(
    retired: nat,
    records: nat,
    sem: nat,
    owed: nat,
    taking: nat,
    waiters: seq<Waiter>)

  const INITIAL := State(0, 0, 0, 0, 0, [])

  datatype Step =
    | Retire(granted: bool)     // the next fence is resolved, with or without a record
    | Signal
    | Arrive(fence: nat)
    | Check(i: nat)
    | Wake(i: nat)
    | GiveUp(i: nat)            // a timeout or an interruption
    | TakeRecord
    | TakeSignal

  predicate Enabled(s: State, step: Step) {
    match step
    case Retire(_) => true
    case Signal => s.owed > 0
    case Arrive(fence) => fence > 0
    case Check(i) => i < |s.waiters| && s.waiters[i].at == Checking
    case Wake(i) => i < |s.waiters| && s.waiters[i].at == Sleeping && s.sem > 0
    case GiveUp(i) => i < |s.waiters| && s.waiters[i].at == Sleeping
    case TakeRecord => s.records > 0
    case TakeSignal => s.taking > 0
  }

  function At(s: State, i: nat, at: WaiterAt): seq<Waiter>
    requires i < |s.waiters|
  {
    s.waiters[i := s.waiters[i].(at := at, seen := s.retired)]
  }

  function Do(s: State, step: Step): State
    requires Enabled(s, step)
  {
    match step
    case Retire(granted) =>
      var kept := if s.records < MAX_COMPLETION_RECORDS then s.records else s.records - 1;
      s.(retired := s.retired + 1, records := if granted then kept + 1 else kept,
         owed := if granted then s.owed + 1 else s.owed)
    case Signal => s.(owed := s.owed - 1, sem := s.sem + 1)
    case Arrive(fence) => s.(waiters := s.waiters + [Waiter(fence, Checking, s.retired)])
    case Check(i) => s.(waiters := At(s, i, if s.waiters[i].fence <= s.retired then Returned else Sleeping))
    case Wake(i) => s.(sem := s.sem - 1, waiters := At(s, i, Checking))
    case GiveUp(i) => s.(waiters := At(s, i, Returned))
    case TakeRecord => s.(records := s.records - 1, taking := s.taking + 1)
    case TakeSignal => s.(taking := s.taking - 1, sem := if s.sem > 0 then s.sem - 1 else 0)
  }

  datatype Run = Start | Then(earlier: Run, step: Step)

  /** The state after a run; a step that is not enabled changes nothing. */
  function After(run: Run): State {
    match run
    case Start => INITIAL
    case Then(earlier, step) =>
      var s := After(earlier);
      if Enabled(s, step) then Do(s, step) else s
  }

  /** How often a run has taken a step of this kind. */
  function Times(run: Run, kind: Step -> bool): nat {
    match run
    case Start => 0
    case Then(earlier, step) => Times(earlier, kind) + if kind(step) && Enabled(After(earlier), step) then 1 else 0
  }

  predicate IsRecorded(step: Step) { step == Retire(true) }
  predicate IsWake(step: Step) { step.Wake? }
  predicate TakesSignal(step: Step) { step.Wake? || step == TakeSignal }

  /** Every completion with a record owes one signal, which wakes one call or is taken with a record. */
  lemma {:induction false} SignalsAreConserved(run: Run)
    ensures var s := After(run);
      s.sem + s.owed + Times(run, IsWake) <= Times(run, IsRecorded) <= s.sem + s.owed + Times(run, TakesSignal)
  {
    if run.Then? { SignalsAreConserved(run.earlier); }
  }

  /** Its fence is resolved, and neither a signal nor one still owed will tell it. */
  predicate Stranded(s: State, i: nat)
    requires i < |s.waiters|
  {
    s.waiters[i].at == Sleeping && s.waiters[i].fence <= s.retired && s.sem == 0 && s.owed == 0
  }

  // ---- when nobody is stranded ------------------------------------------------------------------

  /** Nothing is waiting, so another call may. */
  predicate AllReturned(s: State) { forall i :: 0 <= i < |s.waiters| ==> s.waiters[i].at == Returned }

  /** What a caller of the queue may do besides waiting alone: let several calls wait at a time, take
      records, and have completions for which no record can be allocated. */
  datatype Allowed = Allowed(several: bool, taking: bool, unrecorded: bool)

  const UNDISTURBED := Allowed(false, false, false)

  predicate Admits(run: Run, allowed: Allowed) {
    match run
    case Start => true
    case Then(earlier, step) =>
      && Admits(earlier, allowed)
      && (step == TakeRecord ==> allowed.taking)
      && (step == Retire(false) ==> allowed.unrecorded)
      && (step.Arrive? ==> allowed.several || AllReturned(After(earlier)))
  }

  /** A sleeper has a signal to come for every fence resolved since it looked; only the latest call can
      still be waiting. */
  predicate SleepersOk(s: State) {
    && s.taking == 0
    && (forall i :: 0 <= i < |s.waiters| - 1 ==> s.waiters[i].at == Returned)
    && forall i :: 0 <= i < |s.waiters| && s.waiters[i].at == Sleeping ==>
         && s.waiters[i].seen < s.waiters[i].fence && s.waiters[i].seen <= s.retired
         && s.retired - s.waiters[i].seen <= s.sem + s.owed
  }

  lemma {:induction false} SleepersHold(run: Run)
    requires Admits(run, UNDISTURBED)
    ensures SleepersOk(After(run))
  {
    match run
    case Start =>
    case Then(earlier, step) => SleepersHold(earlier);
  }

  /** With one waiter, no taker and a record for every completion no call sleeps on a resolved fence
      without a signal on its way. */
  lemma NobodyIsStranded(run: Run, i: nat)
    requires Admits(run, UNDISTURBED) && i < |After(run).waiters|
    ensures !Stranded(After(run), i)
  {
    SleepersHold(run);
  }

  // ---- each condition is needed --------------------------------------------------------------------

  /** One more step at the end of a run. */
  lemma Extend(run: Run, step: Step, s: State, r: State)
    requires s == After(run) && Enabled(s, step) && r == Do(s, step)
    ensures r == After(Then(run, step))
  {
  }

  /** A call waits for fence 1, and falls asleep before it is resolved. */
  function OneAsleep(start: Run): Run { Then(Then(start, Arrive(1)), Check(0)) }

  lemma OneAsleepEffect(start: Run, s: State)
    requires start == Start && s == INITIAL.(waiters := [Waiter(1, Sleeping, 0)])
    ensures s == After(OneAsleep(start))
  {
    assert INITIAL == After(start);
    hide After;
    var s1 := INITIAL.(waiters := [Waiter(1, Checking, 0)]);
    Extend(start, Arrive(1), INITIAL, s1);
    Extend(Then(start, Arrive(1)), Check(0), s1, s);
  }

  /** Two calls wait for the fences 1 and 2; the first signal goes to the second of them. */
  function TwoWaiters(start: Run): Run {
    var asleep := Then(Then(OneAsleep(start), Arrive(2)), Check(1));
    Then(Then(Then(Then(asleep, Retire(true)), Signal), Wake(1)), Check(1))
  }

  /** Then the call whose fence is resolved sleeps on. */
  lemma TwoWaitersStrandOne(start: Run)
    requires start == Start
    ensures var s := After(TwoWaiters(start));
      |s.waiters| == 2 && s.waiters[0].fence == 1 && s.retired == 1 && Stranded(s, 0)
  {
    hide After, OneAsleep;
    var first := Waiter(1, Sleeping, 0);
    var s0 := INITIAL.(waiters := [first]);
    OneAsleepEffect(start, s0);
    var r0 := OneAsleep(start);
    var s1 := s0.(waiters := [first, Waiter(2, Checking, 0)]);
    Extend(r0, Arrive(2), s0, s1);
    var r1 := Then(r0, Arrive(2));
    var s2 := s0.(waiters := [first, Waiter(2, Sleeping, 0)]);
    Extend(r1, Check(1), s1, s2);
    var r2 := Then(r1, Check(1));
    var s3 := s2.(retired := 1, records := 1, owed := 1);
    Extend(r2, Retire(true), s2, s3);
    var r3 := Then(r2, Retire(true));
    var s4 := s2.(retired := 1, records := 1, sem := 1);
    Extend(r3, Signal, s3, s4);
    var r4 := Then(r3, Signal);
    var s5 := s4.(sem := 0, waiters := [first, Waiter(2, Checking, 1)]);
    Extend(r4, Wake(1), s4, s5);
    Extend(Then(r4, Wake(1)), Check(1), s5, s5.(waiters := [first, Waiter(2, Sleeping, 1)]));
  }

  /** One call waits while another takes the record and, with it, the signal. */
  function TakenRecord(start: Run): Run {
    Then(Then(Then(Then(OneAsleep(start), Retire(true)), Signal), TakeRecord), TakeSignal)
  }

  lemma TakenRecordStrands(start: Run)
    requires start == Start
    ensures var s := After(TakenRecord(start));
      |s.waiters| == 1 && s.waiters[0].fence == 1 && s.retired == 1 && Stranded(s, 0)
  {
    hide After, OneAsleep;
    var s0 := INITIAL.(waiters := [Waiter(1, Sleeping, 0)]);
    OneAsleepEffect(start, s0);
    var r0 := OneAsleep(start);
    var s1 := s0.(retired := 1, records := 1, owed := 1);
    Extend(r0, Retire(true), s0, s1);
    var r1 := Then(r0, Retire(true));
    var s2 := s0.(retired := 1, records := 1, sem := 1);
    Extend(r1, Signal, s1, s2);
    var r2 := Then(r1, Signal);
    var s3 := s2.(records := 0, taking := 1);
    Extend(r2, TakeRecord, s2, s3);
    Extend(Then(r2, TakeRecord), TakeSignal, s3, s3.(taking := 0, sem := 0));
  }

  /** A completion for which no record could be allocated signals nobody. */
  lemma UnrecordedStrands(start: Run)
    requires start == Start
    ensures var s := After(Then(OneAsleep(start), Retire(false)));
      |s.waiters| == 1 && s.waiters[0].fence == 1 && s.retired == 1 && Stranded(s, 0)
  {
    hide After, OneAsleep;
    var s0 := INITIAL.(waiters := [Waiter(1, Sleeping, 0)]);
    OneAsleepEffect(start, s0);
    Extend(OneAsleep(start), Retire(false), s0, s0.(retired := 1));
  }

  // ---- exactly when ------------------------------------------------------------------------------

  ghost predicate StrandsNobody(allowed: Allowed) {
    forall run: Run, i: nat :: Admits(run, allowed) && i < |After(run).waiters| ==> !Stranded(After(run), i)
  }

  lemma OneAsleepIsAdmitted(start: Run, allowed: Allowed)
    requires start == Start
    ensures Admits(OneAsleep(start), allowed)
  {
  }

  lemma TwoWaitersIsAdmitted(start: Run, allowed: Allowed)
    requires start == Start && allowed.several
    ensures Admits(TwoWaiters(start), allowed)
  {
    hide OneAsleep, After;
    OneAsleepIsAdmitted(start, allowed);
    assert Admits(Then(Then(OneAsleep(start), Arrive(2)), Check(1)), allowed);
  }

  lemma TakenRecordIsAdmitted(start: Run, allowed: Allowed)
    requires start == Start && allowed.taking
    ensures Admits(TakenRecord(start), allowed)
  {
    hide OneAsleep, After;
    OneAsleepIsAdmitted(start, allowed);
    assert Admits(Then(Then(OneAsleep(start), Retire(true)), Signal), allowed);
  }

  /** The exact condition. Every run of a class strands nobody if and only if the class allows neither
      several waiters, nor taking records, nor completions without a record: any one of them, alone
      or with others, is enough to leave a call asleep for good. */
  lemma StrandsNobodyExactly(allowed: Allowed)
    ensures StrandsNobody(allowed) <==> allowed == UNDISTURBED
  {
    var start := Start;
    if allowed.several {
      TwoWaitersStrandOne(start);
      TwoWaitersIsAdmitted(start, allowed);
    } else if allowed.taking {
      TakenRecordStrands(start);
      TakenRecordIsAdmitted(start, allowed);
    } else if allowed.unrecorded {
      UnrecordedStrands(start);
      OneAsleepIsAdmitted(start, allowed);
      assert Admits(Then(OneAsleep(start), Retire(false)), allowed);
    } else {
      forall run: Run, i: nat | Admits(run, allowed) && i < |After(run).waiters| ensures !Stranded(After(run), i) {
        NobodyIsStranded(run, i);
      }
    }
    hide After, Admits, TwoWaiters, TakenRecord, OneAsleep;
  }
}
