/** The ticket protocol between callers and the command worker (Transaction.h, and the _Submit,
    _WorkerLoop, _ServiceOnce and Uninit parts of SdhciEngine.cpp), as a machine whose steps are the
    individual accesses to shared memory.

    The bus lock admits one caller at a time, so the machine has one caller position; callers
    that are still waiting for the lock do not touch anything. */
module Ticket {

  datatype Option<+T> = None | Some(value: T)

  // ---- the mailbox --------------------------------------------------------------------

  /** The slot after a compare-and-swap from empty. */
  function Posted(slot: Option<nat>, id: nat): Option<nat> {
    if slot == None then Some(id) else slot
  }

  /** The one-slot mailbox; tickets are named by their number. */
  class TransactionMailbox {
    var slot: Option<nat>

    constructor ()
      ensures slot == None
    {
      slot := None;
    }

    method Post(id: nat) returns (ok: bool)
      modifies this
      ensures slot == Posted(old(slot), id) && ok == (old(slot) == None)
    {
      ok := slot == None;
      if ok { slot := Some(id); }
    }

    method Claim() returns (claimed: Option<nat>)
      modifies this
      ensures claimed == old(slot) && slot == None
    {
      claimed := slot;
      slot := None;
    }

    method Reclaim(id: nat) returns (ok: bool)
      modifies this
      ensures ok == (old(slot) == Some(id)) && slot == (if ok then None else old(slot))
    {
      ok := slot == Some(id);
      if ok { slot := None; }
    }

    method Empty() returns (empty: bool)
      ensures empty == (slot == None)
    {
      empty := slot == None;
    }
  }

  // ---- the machine -------------------------------------------------------------------

  /** A ticket: references still held, whether it is marked done, and the published result. */
  datatype Record = Record(refs: int, done: bool, result: int)

  /** Where the caller inside the bus lock stands. */
  datatype CallerAt =
    | Outside
    | Draining      // discarding stale completion signals
    | Retaining     // about to take the worker's reference
    | Posting       // about to publish the ticket
    | Notifying     // about to pulse the condition variable
    | Checking      // about to test IsDone
    | Acquiring     // in acquire_sem
    | Copying       // saw IsDone, about to copy the result out
    | Failing       // acquire_sem reported an error
    | Releasing     // about to drop the holder's reference

  datatype WorkerAt =
    | Top           // testing the run flag
    | Claiming      // about to exchange the mailbox with empty
    | Driving(id: nat)
    | Signalling(id: nat)   // ticket marked done, completion not yet released
    | Dropping(id: nat)     // about to drop the worker's reference
    | Retesting     // testing the run flag again
    | Arming        // about to register on the condition variable
    | Looking       // about to test that the mailbox is empty
    | LookingAgain  // mailbox was empty, about to test the run flag
    | Waiting       // committed to the wait
    | Exited

  datatype StopAt = NotStopping | FlagCleared | Joining | Stopped

  /** `posted` holds the tickets whose publication failed because the slot was taken. */
  datatype State = State(
    tickets: seq<Record>,
    caller: CallerAt,
    worker: WorkerAt,
    stop: StopAt,
    slot: Option<nat>,
    completion: nat,
    semDeleted: bool,
    running: bool,
    armed: bool,
    notified: bool,
    refused: set<nat>)

  const INITIAL := State([], Outside, Top, NotStopping, None, 0, false, true, false, false, {})

  datatype Step =
    | Enter | DrainOne | DrainEnd | Retain | Post | Notify | Check | Acquire | Interrupted
    | AcquireError | Copy | Fail | Leave
    | WorkerTop | Claim | Finish(result: int) | Signal | Drop | Retest | Arm | Look | LookAgain | Wake
    | Meow
    | StopFlag | StopNotify | StopJoin

  /** The ticket of the caller inside the lock: always the youngest one. */
  function Mine(s: State): int { |s.tickets| - 1 }

  predicate Enabled(s: State, step: Step) {
    match step
    case Enter => s.caller == Outside
    case DrainOne => s.caller == Draining && s.completion > 0 && !s.semDeleted
    case DrainEnd => s.caller == Draining && (s.completion == 0 || s.semDeleted)
    case Retain => s.caller == Retaining && s.tickets != []
    case Post => s.caller == Posting && s.tickets != []
    case Notify => s.caller == Notifying
    case Check => s.caller == Checking && s.tickets != []
    case Acquire => s.caller == Acquiring && s.completion > 0 && !s.semDeleted
    case Interrupted => s.caller == Acquiring && !s.semDeleted
    case AcquireError => s.caller == Acquiring && s.semDeleted
    case Copy => s.caller == Copying
    case Fail => s.caller == Failing
    case Leave => s.caller == Releasing && s.tickets != []
    case WorkerTop => s.worker == Top
    case Claim => s.worker == Claiming
    case Finish(_) => s.worker.Driving? && s.worker.id < |s.tickets|
    case Signal => s.worker.Signalling?
    case Drop => s.worker.Dropping? && s.worker.id < |s.tickets|
    case Retest => s.worker == Retesting
    case Arm => s.worker == Arming
    case Look => s.worker == Looking
    case LookAgain => s.worker == LookingAgain
    case Wake => s.worker == Waiting && s.notified
    case Meow => true
    case StopFlag => s.stop == NotStopping
    case StopNotify => s.stop == FlagCleared
    case StopJoin => s.stop == Joining && s.worker == Exited
  }

  /** The caller's steps; the others belong to the worker, the interrupt line and the shutdown. */
  predicate IsCallerStep(step: Step) {
    match step
    case Enter | DrainOne | DrainEnd | Retain | Post | Notify | Check | Acquire | Interrupted
         | AcquireError | Copy | Fail | Leave => true
    case _ => false
  }

  /** The worker's steps that move a ticket. */
  predicate MovesTicket(step: Step) { step == Claim || step.Finish? || step == Signal || step == Drop }

  function AddRef(s: State, id: nat, delta: int): seq<Record>
    requires id < |s.tickets|
  {
    s.tickets[id := s.tickets[id].(refs := s.tickets[id].refs + delta)]
  }

  /** A pulse reaches a registered entry and is lost otherwise. */
  function Pulse(s: State): State { s.(notified := s.notified || s.armed) }

  function Apply(s: State, step: Step): State
    requires Enabled(s, step)
  {
    match step
    case Enter => s.(tickets := s.tickets + [Record(1, false, 0)], caller := Draining)
    case DrainOne => s.(completion := s.completion - 1)
    case DrainEnd => s.(caller := Retaining)
    case Retain => s.(tickets := AddRef(s, Mine(s), 1), caller := Posting)
    case Post => s.(slot := Posted(s.slot, Mine(s)), caller := Notifying,
                    refused := if s.slot == None then s.refused else s.refused + {Mine(s)})
    case Notify => Pulse(s).(caller := Checking)
    case Check => s.(caller := if s.tickets[Mine(s)].done then Copying else Acquiring)
    case Acquire => s.(completion := s.completion - 1, caller := Checking)
    case Interrupted => s.(caller := Checking)
    case AcquireError => s.(caller := Failing)
    case Copy => s.(caller := Releasing)
    case Fail => s.(caller := Releasing)
    case Leave => s.(tickets := AddRef(s, Mine(s), -1), caller := Outside)
    case WorkerTop => s.(worker := if s.running then Claiming else Exited)
    case Claim => s.(slot := None, worker := if s.slot == None then Retesting else Driving(s.slot.value))
    case Finish(v) => s.(tickets := s.tickets[s.worker.id := s.tickets[s.worker.id].(done := true, result := v)],
                         worker := Signalling(s.worker.id))
    case Signal => s.(completion := s.completion + 1, worker := Dropping(s.worker.id))
    case Drop => s.(tickets := AddRef(s, s.worker.id, -1), worker := Retesting)
    case Retest => s.(worker := if s.running then Arming else Exited)
    case Arm => s.(worker := Looking, armed := true, notified := false)
    case Look => if s.slot == None then s.(worker := LookingAgain) else s.(worker := Top, armed := false)
    case LookAgain => if s.running then s.(worker := Waiting) else s.(worker := Top, armed := false)
    case Wake => s.(worker := Top, armed := false, notified := false)
    case Meow => Pulse(s)
    case StopFlag => s.(running := false, stop := FlagCleared)
    case StopNotify => Pulse(s).(stop := Joining)
    case StopJoin => s.(stop := Stopped, semDeleted := true)
  }

  /** A schedule: the steps that were attempted, the latest outermost. */
  datatype Run = Start | Then(earlier: Run, step: Step)

  /** The state after a schedule. An entry that is not possible when its turn comes is skipped, so
      the schedules cover every interleaving. */
  function After(run: Run): State {
    match run
    case Start => INITIAL
    case Then(earlier, step) =>
      var s := After(earlier);
      if Enabled(s, step) then Apply(s, step) else s
  }

  // ---- the invariant -----------------------------------------------------------------

  function One(b: bool): int { if b then 1 else 0 }

  predicate Inside(s: State) { s.caller != Outside }

  predicate Awaiting(s: State) { s.caller == Notifying || s.caller == Checking || s.caller == Acquiring }

  predicate BeforePost(s: State) { s.caller == Draining || s.caller == Retaining || s.caller == Posting }

  predicate WorkerHolds(s: State, id: int) {
    (s.worker.Driving? || s.worker.Signalling? || s.worker.Dropping?) && s.worker.id == id
  }

  /** The references on a ticket are exactly those of its caller, of the mailbox or the worker, and
      of a publication that was refused. */
  function Holders(s: State, id: int): int {
    One(Inside(s) && id == Mine(s)) + One(s.caller == Posting && id == Mine(s))
    + One(s.slot == Some(id)) + One(WorkerHolds(s, id)) + One(id in s.refused)
  }

  predicate RefsAreHolders(s: State) {
    forall id :: 0 <= id < |s.tickets| ==> s.tickets[id].refs == Holders(s, id)
  }

  predicate PlacesAreSound(s: State) {
    && (Inside(s) ==> s.tickets != [])
    && (s.slot.Some? ==> s.slot.value < |s.tickets|)
    && (s.worker.Driving? || s.worker.Signalling? || s.worker.Dropping? ==> s.worker.id < |s.tickets|)
    && (forall id :: id in s.refused ==> id < |s.tickets|)
  }

  predicate DoneIsSound(s: State)
    requires PlacesAreSound(s)
  {
    && (s.slot.Some? ==> !s.tickets[s.slot.value].done)
    && (s.worker.Driving? ==> !s.tickets[s.worker.id].done && s.slot != Some(s.worker.id))
    && (s.worker.Signalling? || s.worker.Dropping? ==> s.tickets[s.worker.id].done)
    && (BeforePost(s) ==> !s.tickets[Mine(s)].done && !WorkerHolds(s, Mine(s))
                          && s.slot != Some(Mine(s)) && Mine(s) !in s.refused)
    && (s.caller == Copying ==> s.tickets[Mine(s)].done)
    && (s.caller == Failing ==> s.semDeleted)
  }

  /** A ticket whose publication was refused never reaches the worker. */
  predicate RefusedIsSound(s: State) {
    forall id :: id in s.refused && id < |s.tickets| ==>
      !s.tickets[id].done && s.slot != Some(id) && s.worker != Driving(id)
  }

  /** A ticket is unclaimed only while its caller is still waiting for it, unless the engine has
      been shut down. */
  predicate NoStrayTicket(s: State)
    requires PlacesAreSound(s)
  {
    && (!s.semDeleted ==> s.refused == {})
    && (s.slot.Some? && !s.semDeleted ==>
          s.slot == Some(Mine(s)) && Awaiting(s))
    && (s.worker.Driving? ==> s.worker.id == Mine(s) && Awaiting(s))
    && (Awaiting(s) && !s.semDeleted && !s.tickets[Mine(s)].done ==>
          s.slot == Some(Mine(s)) || s.worker == Driving(Mine(s)))
  }

  /** A caller asleep on a finished ticket has a signal waiting or about to be given. */
  predicate NoLostCompletion(s: State)
    requires PlacesAreSound(s)
  {
    s.caller == Acquiring && s.tickets[Mine(s)].done ==>
      s.completion > 0 || s.worker == Signalling(Mine(s)) || s.semDeleted
  }

  /** A worker committed to sleep has been notified of whatever it could miss, or is about to be. */
  predicate NoLostWakeup(s: State) {
    && (s.armed <==> (s.worker == Looking || s.worker == LookingAgain || s.worker == Waiting))
    && ((s.worker == LookingAgain || s.worker == Waiting) && !s.notified && s.slot.Some? ==> s.caller == Notifying)
    && (s.worker == Waiting && !s.notified && !s.running ==> s.stop == FlagCleared)
  }

  predicate StopIsSound(s: State) {
    && (s.running <==> s.stop == NotStopping)
    && (s.worker == Exited ==> !s.running)
    && (s.semDeleted <==> s.stop == Stopped)
    && (s.stop == Stopped ==> s.worker == Exited)
  }

  predicate Inv(s: State) {
    && PlacesAreSound(s) && RefsAreHolders(s) && DoneIsSound(s) && RefusedIsSound(s)
    && NoStrayTicket(s) && NoLostCompletion(s) && NoLostWakeup(s) && StopIsSound(s)
  }

  lemma PlacesStep(s: State, step: Step)
    requires Inv(s) && Enabled(s, step)
    ensures PlacesAreSound(Apply(s, step))
  {
    hide RefsAreHolders, DoneIsSound, NoLostCompletion, NoStrayTicket, NoLostWakeup, StopIsSound;
  }

  lemma StopStep(s: State, step: Step)
    requires Inv(s) && Enabled(s, step)
    ensures StopIsSound(Apply(s, step))
  {
    hide RefsAreHolders, DoneIsSound, NoLostCompletion, NoStrayTicket, NoLostWakeup;
  }

  lemma CallerKeepsRefs(s: State, step: Step)
    requires Inv(s) && Enabled(s, step) && IsCallerStep(step)
    ensures RefsAreHolders(Apply(s, step))
  {
    hide NoLostCompletion, NoLostWakeup, StopIsSound, NoStrayTicket;
    var s' := Apply(s, step);
    forall id | 0 <= id < |s'.tickets| ensures s'.tickets[id].refs == Holders(s', id) {
      assert id < |s.tickets| ==> s.tickets[id].refs == Holders(s, id);
      match step
      case Enter =>
      case Retain =>
      case Post =>
      case Check =>
      case Leave =>
      case _ =>
    }
  }

  lemma WorkerKeepsRefs(s: State, step: Step)
    requires Inv(s) && Enabled(s, step) && MovesTicket(step)
    ensures RefsAreHolders(Apply(s, step))
  {
    hide RefusedIsSound, NoLostCompletion, NoLostWakeup, StopIsSound, NoStrayTicket;
    var s' := Apply(s, step);
    forall id | 0 <= id < |s'.tickets| ensures s'.tickets[id].refs == Holders(s', id) {
      assert s.tickets[id].refs == Holders(s, id);
    }
  }

  lemma OthersKeepRefs(s: State, step: Step)
    requires Inv(s) && Enabled(s, step) && !IsCallerStep(step) && !MovesTicket(step)
    ensures RefsAreHolders(Apply(s, step))
  {
    hide DoneIsSound, RefusedIsSound, NoLostCompletion, NoLostWakeup, StopIsSound, NoStrayTicket;
    var s' := Apply(s, step);
    forall id | 0 <= id < |s'.tickets| ensures s'.tickets[id].refs == Holders(s', id) {
      assert s.tickets[id].refs == Holders(s, id);
    }
  }

  lemma CallerKeepsDone(s: State, step: Step)
    requires Inv(s) && Enabled(s, step) && IsCallerStep(step) && PlacesAreSound(Apply(s, step))
    ensures DoneIsSound(Apply(s, step))
  {
    hide RefsAreHolders, RefusedIsSound, NoLostCompletion, NoLostWakeup;
    match step
    case Enter =>
    case Retain =>
    case Post =>
    case Check =>
    case Leave =>
    case _ =>
  }

  lemma WorkerKeepsDone(s: State, step: Step)
    requires Inv(s) && Enabled(s, step) && MovesTicket(step) && PlacesAreSound(Apply(s, step))
    ensures DoneIsSound(Apply(s, step))
  {
    hide RefsAreHolders, RefusedIsSound, NoStrayTicket, StopIsSound, NoLostCompletion, NoLostWakeup;
    match step
    case Claim =>
    case Finish(_) =>
    case Signal =>
    case Drop =>
  }

  lemma OthersKeepDone(s: State, step: Step)
    requires Inv(s) && Enabled(s, step) && !IsCallerStep(step) && !MovesTicket(step) && PlacesAreSound(Apply(s, step))
    ensures DoneIsSound(Apply(s, step))
  {
    hide RefsAreHolders, RefusedIsSound, NoStrayTicket, StopIsSound, NoLostCompletion, NoLostWakeup;
    IdleStepKeepsTickets(s, step);
    hide Apply, Enabled;
  }

  lemma IdleStepKeepsTickets(s: State, step: Step)
    requires Enabled(s, step) && !IsCallerStep(step) && !MovesTicket(step)
    ensures var r := Apply(s, step);
      && r.tickets == s.tickets && r.slot == s.slot && r.caller == s.caller && r.refused == s.refused
      && (r.worker == s.worker || !(r.worker.Driving? || r.worker.Signalling? || r.worker.Dropping?))
      && (s.semDeleted ==> r.semDeleted)
  {
    match step
    case Arm | Look | LookAgain | WorkerTop | Retest | Wake =>
    case _ =>
  }

  lemma RefusedStep(s: State, step: Step)
    requires Inv(s) && Enabled(s, step)
    ensures RefusedIsSound(Apply(s, step))
  {
    hide RefsAreHolders, NoLostCompletion, NoLostWakeup, NoStrayTicket;
    match step
    case Enter =>
    case Post =>
    case Claim =>
    case Finish(_) =>
    case _ =>
  }

  lemma CallerKeepsNoStray(s: State, step: Step)
    requires Inv(s) && Enabled(s, step) && IsCallerStep(step) && PlacesAreSound(Apply(s, step))
    ensures NoStrayTicket(Apply(s, step))
  {
    hide RefsAreHolders, RefusedIsSound, NoLostCompletion, NoLostWakeup;
    match step
    case Enter =>
    case Retain =>
    case Post =>
    case Check =>
    case Leave =>
    case _ =>
  }

  lemma OthersKeepNoStray(s: State, step: Step)
    requires Inv(s) && Enabled(s, step) && !IsCallerStep(step) && PlacesAreSound(Apply(s, step))
    ensures NoStrayTicket(Apply(s, step))
  {
    hide RefsAreHolders, RefusedIsSound, NoLostCompletion, NoLostWakeup;
    match step
    case Claim =>
    case Finish(_) =>
    case Signal =>
    case Drop =>
    case Arm =>
    case Look =>
    case LookAgain =>
    case _ =>
  }

  lemma CallerKeepsCompletion(s: State, step: Step)
    requires Inv(s) && Enabled(s, step) && IsCallerStep(step) && PlacesAreSound(Apply(s, step))
    ensures NoLostCompletion(Apply(s, step))
  {
    hide RefsAreHolders, NoLostWakeup;
    match step
    case Enter =>
    case Retain =>
    case Post =>
    case Check =>
    case Leave =>
    case _ =>
  }

  lemma OthersKeepCompletion(s: State, step: Step)
    requires Inv(s) && Enabled(s, step) && !IsCallerStep(step) && PlacesAreSound(Apply(s, step))
    ensures NoLostCompletion(Apply(s, step))
  {
    hide RefsAreHolders, NoLostWakeup;
    match step
    case Claim =>
    case Finish(_) =>
    case Signal =>
    case Drop =>
    case Arm =>
    case Look =>
    case LookAgain =>
    case _ =>
  }

  lemma CallerKeepsWakeup(s: State, step: Step)
    requires Inv(s) && Enabled(s, step) && IsCallerStep(step) && PlacesAreSound(Apply(s, step))
    ensures NoLostWakeup(Apply(s, step))
  {
    hide RefsAreHolders, NoLostCompletion, DoneIsSound;
    match step
    case Enter =>
    case Retain =>
    case Post =>
    case Check =>
    case Leave =>
    case _ =>
  }

  lemma OthersKeepWakeup(s: State, step: Step)
    requires Inv(s) && Enabled(s, step) && !IsCallerStep(step) && PlacesAreSound(Apply(s, step))
    ensures NoLostWakeup(Apply(s, step))
  {
    hide RefsAreHolders, NoLostCompletion, DoneIsSound;
    match step
    case Claim =>
    case Finish(_) =>
    case Signal =>
    case Drop =>
    case Arm =>
    case Look =>
    case LookAgain =>
    case _ =>
  }

  lemma InvStep(s: State, step: Step)
    requires Inv(s) && Enabled(s, step)
    ensures Inv(Apply(s, step))
  {
    hide Apply, Enabled, RefsAreHolders, DoneIsSound, NoStrayTicket, NoLostCompletion, NoLostWakeup, StopIsSound;
    PlacesStep(s, step);
    StopStep(s, step);
    RefusedStep(s, step);
    if IsCallerStep(step) {
      CallerKeepsRefs(s, step);
      CallerKeepsDone(s, step);
      CallerKeepsNoStray(s, step);
      CallerKeepsCompletion(s, step);
      CallerKeepsWakeup(s, step);
    } else {
      if MovesTicket(step) { WorkerKeepsRefs(s, step); } else { OthersKeepRefs(s, step); }
      if MovesTicket(step) { WorkerKeepsDone(s, step); } else { OthersKeepDone(s, step); }
      OthersKeepNoStray(s, step);
      OthersKeepCompletion(s, step);
      OthersKeepWakeup(s, step);
    }
  }

  lemma {:induction false} InvHolds(run: Run)
    ensures Inv(After(run))
  {
    hide Apply, Enabled, Inv;
    match run
    case Start => InitInv();
    case Then(earlier, step) =>
      InvHolds(earlier);
      if Enabled(After(earlier), step) { InvStep(After(earlier), step); }
  }

  lemma InitInv()
    ensures Inv(INITIAL)
  {
  }

  // ---- safety ------------------------------------------------------------------------

  /** The tickets a step reads or writes. */
  function Touched(s: State, step: Step): set<int> {
    match step
    case Retain | Post | Check | Copy | Leave => {Mine(s)}
    case Finish(_) | Drop => if s.worker.Driving? || s.worker.Dropping? then {s.worker.id} else {}
    case _ => {}
  }

  /** No step of any run touches a freed ticket, no count ever goes below zero, and a freed ticket
      stays freed. */
  lemma NoUseAfterFree(run: Run, s: State, step: Step, id: int)
    requires s == After(run) && Enabled(s, step) && 0 <= id < |s.tickets|
    ensures id in Touched(s, step) ==> s.tickets[id].refs > 0
    ensures s.tickets[id].refs >= 0
    ensures s.tickets[id].refs == 0 ==> id < |Apply(s, step).tickets| && Apply(s, step).tickets[id].refs == 0
  {
    hide After, NoLostWakeup, StopIsSound, NoLostCompletion, NoStrayTicket;
    InvHolds(run);
    assert s.tickets[id].refs == Holders(s, id);
  }

  /** How often a run has taken a step of this kind. */
  function Times(run: Run, kind: Step -> bool): nat {
    match run
    case Start => 0
    case Then(earlier, step) => Times(earlier, kind) + if kind(step) && Enabled(After(earlier), step) then 1 else 0
  }

  predicate IsSignal(step: Step) { step == Signal }
  predicate TakesSignal(step: Step) { step == DrainOne || step == Acquire }

  /** Every completion signal is released for one ticket marked done, and ends one wait or one round of
      the drain, or is still there. */
  lemma {:induction false} SignalsAreConserved(run: Run)
    ensures After(run).completion + Times(run, TakesSignal) == Times(run, IsSignal)
  {
    hide Apply, Enabled, TakesSignal, IsSignal;
    if run.Then? {
      SignalsAreConserved(run.earlier);
      if Enabled(After(run.earlier), run.step) { SignalsStep(After(run.earlier), run.step); }
    }
  }

  lemma SignalsStep(s: State, step: Step)
    requires Enabled(s, step)
    ensures Apply(s, step).completion + (if TakesSignal(step) then 1 else 0)
         == s.completion + (if IsSignal(step) then 1 else 0)
  {
    match step
    case DrainOne | Acquire | Signal =>
    case Post =>
    case _ =>
  }

  /** The bus lock alone keeps the mailbox protocol sound: a post finds the slot empty. Only a post
      that comes after the engine has been shut down can find an abandoned ticket in it. */
  lemma PostFindsSlotEmpty(run: Run)
    requires After(run).caller == Posting && !After(run).semDeleted
    ensures After(run).slot == None
  {
    InvHolds(run);
  }

  /** One more step of a schedule. */
  lemma Extend(run: Run, step: Step) returns (longer: Run)
    requires Enabled(After(run), step)
    ensures After(longer) == Apply(After(run), step)
  {
    longer := Then(run, step);
  }

  /** A caller alone in the protocol publishes its ticket and finds it unfinished. */
  lemma Publish(run: Run, record: Record) returns (longer: Run)
    requires After(run).caller == Outside && (After(run).completion == 0 || After(run).semDeleted)
    requires record == Record(2, false, 0)
    ensures var s, s' := After(run), After(longer);
      s' == Pulse(s).(tickets := s.tickets + [record], caller := Acquiring, slot := Posted(s.slot, |s.tickets|),
                      refused := if s.slot == None then s.refused else s.refused + {|s.tickets|})
  {
    hide After;
    var s := After(run);
    longer := Extend(run, Enter);
    longer := Extend(longer, DrainEnd);
    longer := Extend(longer, Retain);
    assert After(longer) == s.(tickets := s.tickets + [record], caller := Posting);
    longer := Extend(longer, Post);
    longer := Extend(longer, Notify);
    longer := Extend(longer, Check);
  }

  /** A waiting caller is turned away by the deleted semaphore and drops its reference. */
  lemma TurnedAway(run: Run) returns (longer: Run)
    requires After(run).caller == Acquiring && After(run).semDeleted && After(run).tickets != []
    ensures var s := After(run);
      After(longer) == s.(caller := Outside, tickets := AddRef(s, Mine(s), -1))
  {
    hide After;
    longer := Extend(run, AcquireError);
    longer := Extend(longer, Fail);
    longer := Extend(longer, Leave);
  }

  /** The exception is real: a call cut short by the shutdown leaves its ticket in the slot, the
      next caller's post is refused, and both tickets keep a reference for ever. */
  lemma ShutdownStrandsTickets() returns (run: Run)
    ensures var s := After(run);
      s.refused != {} && s.caller == Outside && s.worker == Exited && s.stop == Stopped && s.slot == Some(0)
      && |s.tickets| == 2 && s.tickets[0].refs == 1 && s.tickets[1].refs == 1
  {
    hide Enabled, Apply;
    run := Publish(Start, Record(2, false, 0));
    run := StopTheEngine(run);
    run := TurnedAway(run);
    run := Publish(run, Record(2, false, 0));
    run := TurnedAway(run);
  }

  lemma StopTheEngine(run: Run) returns (longer: Run)
    requires After(run).stop == NotStopping && After(run).worker == Top && !After(run).armed
    ensures After(longer) == After(run).(running := false, worker := Exited, stop := Stopped, semDeleted := true)
  {
    hide After;
    longer := Extend(run, StopFlag);
    longer := Extend(longer, StopNotify);
    longer := Extend(longer, WorkerTop);
    longer := Extend(longer, StopJoin);
  }

  /** A caller only ever copies the result out of its own, finished ticket, however many stale
      completion signals it met. */
  lemma CopiesOnlyWhenDone(run: Run)
    requires After(run).caller == Copying
    ensures After(run).tickets != [] && After(run).tickets[Mine(After(run))].done
  {
    InvHolds(run);
  }

  /** The life of a ticket: created, posted, claimed, finished, signalled, dropped. */
  function Phase(s: State, id: nat): nat
    requires id < |s.tickets|
  {
    if s.tickets[id].done then (if s.worker == Signalling(id) then 3 else if s.worker == Dropping(id) then 4 else 5)
    else if s.worker == Driving(id) then 2
    else if s.slot == Some(id) then 1
    else 0
  }

  /** Phases only advance. In particular each ticket is claimed, finished, signalled and dropped at
      most once, and its published result never changes afterwards. */
  lemma PhasesOnlyAdvance(run: Run, s: State, step: Step, id: nat)
    requires s == After(run) && Enabled(s, step) && id < |s.tickets|
    ensures var s' := Apply(s, step);
      && id < |s'.tickets|
      && Phase(s, id) <= Phase(s', id) <= Phase(s, id) + 1
      && (step == Claim && s.slot == Some(id) ==> Phase(s, id) == 1 && Phase(s', id) == 2)
      && (step.Finish? && s.worker == Driving(id) ==>
            Phase(s, id) == 2 && Phase(s', id) == 3 && s'.tickets[id].result == step.result)
      && (step == Signal && s.worker == Signalling(id) ==> Phase(s', id) == 4)
      && (step == Drop && s.worker == Dropping(id) ==> Phase(s', id) == 5)
      && (s.tickets[id].done ==> s'.tickets[id].done && s'.tickets[id].result == s.tickets[id].result)
  {
    hide After, Inv;
    InvHolds(run);
    if IsCallerStep(step) { CallerKeepsPhase(s, step, id); } else { WorkerAdvancesPhase(s, step, id); }
  }

  lemma CallerKeepsPhase(s: State, step: Step, id: nat)
    requires Inv(s) && Enabled(s, step) && IsCallerStep(step) && id < |s.tickets|
    ensures var s' := Apply(s, step);
      && id < |s'.tickets|
      && Phase(s, id) <= Phase(s', id) <= Phase(s, id) + 1
      && s'.tickets[id].done == s.tickets[id].done && s'.tickets[id].result == s.tickets[id].result
  {
    hide NoLostWakeup, StopIsSound, NoLostCompletion, RefsAreHolders, NoStrayTicket;
    match step
    case Enter =>
    case Retain =>
    case Post =>
    case Check =>
    case Leave =>
    case _ =>
  }

  lemma WorkerAdvancesPhase(s: State, step: Step, id: nat)
    requires Inv(s) && Enabled(s, step) && !IsCallerStep(step) && id < |s.tickets|
    ensures var s' := Apply(s, step);
      && id < |s'.tickets|
      && Phase(s, id) <= Phase(s', id) <= Phase(s, id) + 1
      && (step == Claim && s.slot == Some(id) ==> Phase(s, id) == 1 && Phase(s', id) == 2)
      && (step.Finish? && s.worker == Driving(id) ==>
            Phase(s, id) == 2 && Phase(s', id) == 3 && s'.tickets[id].result == step.result)
      && (step == Signal && s.worker == Signalling(id) ==> Phase(s', id) == 4)
      && (step == Drop && s.worker == Dropping(id) ==> Phase(s', id) == 5)
      && (s.tickets[id].done ==> s'.tickets[id].done && s'.tickets[id].result == s.tickets[id].result)
  {
    hide NoLostWakeup, StopIsSound, NoLostCompletion, RefsAreHolders, NoStrayTicket;
    match step
    case Claim =>
    case Finish(_) =>
    case Signal =>
    case Drop =>
    case Arm =>
    case Look =>
    case LookAgain =>
    case _ =>
  }

  /** As long as the engine runs, an idle protocol has freed every ticket it ever made. */
  lemma NothingLeaks(run: Run, id: nat)
    requires id < |After(run).tickets|
    requires After(run).caller == Outside && !After(run).semDeleted
    requires !WorkerHolds(After(run), id)
    ensures After(run).tickets[id].refs == 0
  {
    InvHolds(run);
    assert After(run).tickets[id].refs == Holders(After(run), id);
  }

  // ---- progress ----------------------------------------------------------------------

  /** The steps the caller and the worker take of their own accord. */
  predicate IsCore(step: Step) {
    !(step == Enter || step == Meow || step == Interrupted || step == StopFlag || step == StopNotify || step == StopJoin)
  }

  /** No state is stuck: while a caller is inside and the engine runs, the caller or the worker can
      move. In particular the worker never sleeps unnotified on a posted ticket, and the caller
      never sleeps for good on a finished one. */
  lemma SomeoneCanMove(run: Run) returns (step: Step)
    requires Inside(After(run)) && After(run).running
    ensures IsCore(step) && Enabled(After(run), step)
  {
    InvHolds(run);
    hide After;
    var s := After(run);
    if s.caller == Acquiring && s.completion == 0 {
      WorkerCanMove(s);
      step := WorkersNext(s);
    } else {
      CallerCanMove(s);
      step := CallersNext(s);
    }
  }

  lemma CallerCanMove(s: State)
    requires Inv(s) && Inside(s) && s.running && (s.caller == Acquiring ==> s.completion > 0)
    ensures IsCore(CallersNext(s)) && Enabled(s, CallersNext(s))
  {
    hide RefsAreHolders, RefusedIsSound, NoStrayTicket, NoLostCompletion, NoLostWakeup;
  }

  /** A caller asleep without a signal: its ticket is in the slot, or the worker has it. */
  lemma WorkerCanMove(s: State)
    requires Inv(s) && s.running && s.caller == Acquiring && s.completion == 0
    ensures IsCore(WorkersNext(s)) && Enabled(s, WorkersNext(s))
  {
    hide RefsAreHolders, RefusedIsSound;
  }

  /** What the caller does next, if it can. */
  function CallersNext(s: State): Step {
    match s.caller
    case Draining => if s.completion > 0 then DrainOne else DrainEnd
    case Retaining => Retain
    case Posting => Post
    case Notifying => Notify
    case Checking => Check
    case Acquiring => Acquire
    case Copying => Copy
    case Failing => Fail
    case Releasing | Outside => Leave
  }

  /** What the worker does next, if it can. */
  function WorkersNext(s: State): Step {
    match s.worker
    case Top => WorkerTop
    case Claiming => Claim
    case Driving(_) => Finish(0)
    case Signalling(_) => Signal
    case Dropping(_) => Drop
    case Retesting => Retest
    case Arming => Arm
    case Looking => Look
    case LookingAgain => LookAgain
    case Waiting => Wake
    case Exited => WorkerTop
  }

  function CallerStage(c: CallerAt): nat {
    match c
    case Draining => 7 case Retaining => 6 case Posting => 5 case Notifying => 4
    case Checking | Acquiring | Failing => 2
    case Copying => 1
    case Releasing | Outside => 0
  }

  /** Worker steps to the next sleep; a filled slot sends a looking worker round once more. */
  function WorkerStage(w: WorkerAt, filled: bool): nat {
    match w
    case Driving(_) => 17 case Signalling(_) => 16 case Dropping(_) => 15
    case Retesting => if filled then 14 else 5
    case Arming => if filled then 13 else 4
    case Looking => if filled then 12 else 3
    case Top => 7 case Claiming => 6
    case LookingAgain => 2
    case Waiting | Exited => 0
  }

  /** Completion signals still to come. */
  function SignalsOwed(s: State): int {
    One(Inside(s) && s.tickets != [] && !s.tickets[Mine(s)].done) + One(s.worker.Signalling?)
  }

  function Rank(s: State): int {
    40 * CallerStage(s.caller) + 2 * (s.completion + SignalsOwed(s)) + One(s.caller == Checking)
    + WorkerStage(s.worker, s.slot.Some?) + 15 * One(s.slot.Some?) + 10 * One(s.armed && s.notified)
  }

  lemma CallerStepLowersRank(s: State, step: Step)
    requires Inv(s) && Inside(s) && s.running && IsCore(step) && IsCallerStep(step) && Enabled(s, step)
    ensures Inside(Apply(s, step)) ==> Rank(Apply(s, step)) < Rank(s)
  {
    hide RefsAreHolders, NoLostWakeup, NoLostCompletion;
    match step
    case Enter =>
    case Retain =>
    case Post =>
    case Check =>
    case Leave =>
    case _ =>
  }

  lemma TicketStepLowersRank(s: State, step: Step)
    requires Inv(s) && Inside(s) && s.running && MovesTicket(step) && Enabled(s, step)
    ensures Rank(Apply(s, step)) < Rank(s)
  {
    hide RefsAreHolders, RefusedIsSound, NoLostCompletion, NoLostWakeup, StopIsSound;
    match step
    case Claim =>
    case Finish(_) => assert s.worker.id == Mine(s);
    case Signal =>
    case _ =>
  }

  lemma IdleStepLowersRank(s: State, step: Step)
    requires Inv(s) && Inside(s) && s.running && Enabled(s, step)
    requires IsCore(step) && !IsCallerStep(step) && !MovesTicket(step)
    ensures Rank(Apply(s, step)) < Rank(s)
  {
    hide RefsAreHolders, RefusedIsSound, NoLostCompletion, DoneIsSound, NoStrayTicket;
    match step
    case WorkerTop =>
    case Retest =>
    case Arm =>
    case Look =>
    case LookAgain =>
    case _ =>
  }

  lemma RankDecreases(s: State, step: Step)
    requires Inv(s) && Inside(s) && s.running && IsCore(step) && Enabled(s, step)
    ensures Inside(Apply(s, step)) ==> 0 <= Rank(Apply(s, step)) < Rank(s)
    ensures Apply(s, step).running
  {
    hide Inv, Rank;
    RankIsNatural(Apply(s, step));
    if IsCallerStep(step) {
      CallerStepLowersRank(s, step);
    } else if MovesTicket(step) {
      TicketStepLowersRank(s, step);
    } else {
      IdleStepLowersRank(s, step);
    }
  }

  /** All of `steps` are taken, one after the other from `s`, and the caller stays inside. */
  predicate StaysInside(s: State, steps: seq<Step>)
    decreases |steps|
  {
    Inside(s) &&
    (steps == [] || (IsCore(steps[0]) && Enabled(s, steps[0]) && StaysInside(Apply(s, steps[0]), steps[1..])))
  }

  /** Every call returns: once the caller is inside, no schedule of the caller's and the worker's own
      steps can keep it inside for more than `Rank` steps. Together with `SomeoneCanMove` this
      bounds the wait of every call, apart from interruptions. */
  lemma {:induction false} NoEndlessWait(s: State, steps: seq<Step>)
    requires Inv(s) && s.running && StaysInside(s, steps)
    ensures |steps| <= Rank(s)
    decreases |steps|
  {
    hide Apply, Enabled, Inv, Rank, IsCore;
    if steps == [] {
      RankIsNatural(s);
    } else {
      RankDecreases(s, steps[0]);
      InvStep(s, steps[0]);
      NoEndlessWait(Apply(s, steps[0]), steps[1..]);
    }
  }

  lemma RankIsNatural(s: State)
    ensures Rank(s) >= 0
  {
  }

  // ---- shutdown ----------------------------------------------------------------------

  predicate IsWorkerStep(step: Step) { IsCore(step) && !IsCallerStep(step) }

  /** A shutdown that waits for the worker is not stuck: wherever the worker stands, it can move. */
  lemma JoinIsNotStuck(run: Run)
    requires After(run).stop == Joining && After(run).worker != Exited
    ensures IsWorkerStep(WorkersNext(After(run))) && Enabled(After(run), WorkersNext(After(run)))
  {
    InvHolds(run);
  }

  /** Worker steps to its exit once the run flag is cleared. */
  function StepsToExit(w: WorkerAt): nat {
    match w
    case Claiming => 5
    case Driving(_) | Arming => 4
    case Signalling(_) | Looking => 3
    case Dropping(_) | LookingAgain | Waiting => 2
    case Top | Retesting => 1
    case Exited => 0
  }

  /** All of `steps` are taken, one after the other from `s`. */
  predicate Taken(s: State, steps: seq<Step>)
    decreases |steps|
  {
    steps == [] || (Enabled(s, steps[0]) && Taken(Apply(s, steps[0]), steps[1..]))
  }

  function WorkerSteps(steps: seq<Step>): nat {
    if steps == [] then 0 else (if IsWorkerStep(steps[0]) then 1 else 0) + WorkerSteps(steps[1..])
  }

  lemma ExitComesNearer(s: State, step: Step)
    requires !s.running && Enabled(s, step)
    ensures !Apply(s, step).running
    ensures StepsToExit(Apply(s, step).worker) + (if IsWorkerStep(step) then 1 else 0) <= StepsToExit(s.worker)
  {
    match step
    case WorkerTop =>
    case Claim =>
    case Retest =>
    case Look =>
    case LookAgain =>
    case _ =>
  }

  /** The join is bounded: once the run flag is cleared, the worker exits within five steps of its own,
      whatever the callers, the interrupt line and the shutdown do in between. */
  lemma {:induction false} JoinIsBounded(s: State, steps: seq<Step>)
    requires !s.running && Taken(s, steps)
    ensures WorkerSteps(steps) <= StepsToExit(s.worker) <= 5
    decreases |steps|
  {
    hide Apply, Enabled, IsWorkerStep;
    if steps != [] {
      ExitComesNearer(s, steps[0]);
      JoinIsBounded(Apply(s, steps[0]), steps[1..]);
    }
  }

  /** What is left when the engine has been shut down and its callers are gone: a ticket that nobody
      claimed, and those whose publication was refused. */
  lemma WhatShutdownStrands(run: Run, id: nat)
    requires After(run).stop == Stopped && After(run).caller == Outside && id < |After(run).tickets|
    ensures After(run).tickets[id].refs > 0 <==> After(run).slot == Some(id) || id in After(run).refused
  {
    InvHolds(run);
    assert After(run).tickets[id].refs == Holders(After(run), id);
  }

  /** No caller is inside when the run flag is cleared, and none comes in afterwards. */
  predicate StoppedAlone(run: Run) {
    match run
    case Start => true
    case Then(earlier, step) =>
      && StoppedAlone(earlier)
      && (step == StopFlag ==> After(earlier).caller == Outside)
      && (step == Enter ==> After(earlier).running)
  }

  lemma {:induction false} AloneMeansEmpty(run: Run)
    requires StoppedAlone(run)
    ensures var s := After(run);
      !s.running ==> s.caller == Outside && s.slot == None && s.refused == {} && !s.worker.Driving?
  {
    match run
    case Start =>
    case Then(earlier, step) =>
      AloneMeansEmpty(earlier);
      InvHolds(earlier);
      var s := After(earlier);
      if Enabled(s, step) { AloneStaysEmpty(s, step); }
      hide Apply, Enabled, Inv;
  }

  lemma AloneStaysEmpty(s: State, step: Step)
    requires Inv(s) && Enabled(s, step)
    requires step == StopFlag ==> s.caller == Outside
    requires step == Enter ==> s.running
    requires !s.running ==> s.caller == Outside && s.slot == None && s.refused == {} && !s.worker.Driving?
    ensures var r := Apply(s, step);
      !r.running ==> r.caller == Outside && r.slot == None && r.refused == {} && !r.worker.Driving?
  {
    hide RefsAreHolders, DoneIsSound, RefusedIsSound, NoLostCompletion, NoLostWakeup;
    match step
    case Enter =>
    case Claim =>
    case Post =>
    case StopFlag =>
    case _ =>
  }

  /** After a completed shutdown that met no caller every ticket is freed. */
  ghost predicate ShutdownFrees(overlapping: bool) {
    forall run: Run :: (overlapping || StoppedAlone(run)) && After(run).stop == Stopped && After(run).caller == Outside ==>
      forall id :: 0 <= id < |After(run).tickets| ==> After(run).tickets[id].refs == 0
  }

  /** The exact condition: shutting down frees every ticket in every run of a class if and only if the
      class keeps callers out from the clearing of the run flag on. */
  lemma ShutdownFreesExactly(overlapping: bool)
    ensures ShutdownFrees(overlapping) <==> !overlapping
  {
    if overlapping {
      var run := ShutdownStrandsTickets();
      assert After(run).tickets[0].refs == 1;
    } else {
      forall run: Run, id: int | StoppedAlone(run) && After(run).stop == Stopped && 0 <= id < |After(run).tickets|
        ensures After(run).tickets[id].refs == 0
      {
        AloneIsFreed(run, id);
      }
    }
    hide After;
  }

  lemma AloneIsFreed(run: Run, id: nat)
    requires StoppedAlone(run) && After(run).stop == Stopped && id < |After(run).tickets|
    ensures After(run).tickets[id].refs == 0
  {
    AloneMeansEmpty(run);
    InvHolds(run);
    assert After(run).tickets[id].refs == Holders(After(run), id);
    hide After, NoLostWakeup, NoLostCompletion;
  }
}
