/** Who may touch the card when it is removed, re-identified or ejected while requests are queued:
    the SDMA request thread, the callers that queue requests, the hot-plug watcher and eject, as a
    machine over their accesses to the media status word and the two locks
    (SdmaDisk.cpp, SdhciController.cpp, HotplugState.h). */
module MediaEpoch {
  import opened MediaStatus

  datatype HotplugAction = NoAction | Remove | Identify

  datatype Hotplug = Hotplug(present: bool, ejected: bool)

  /** HotplugState::Observe. */
  function Observe(h: Hotplug, present: bool, online: bool): (HotplugAction, Hotplug) {
    if !present then
      (if h.present || online || h.ejected then Remove else NoAction, Hotplug(false, false))
    else if h.ejected then
      (NoAction, Hotplug(true, true))
    else
      (if !h.present || !online then Identify else NoAction, Hotplug(true, false))
  }

  datatype Holder = Nobody | Watcher | Ejector | Runner

  /** A queued request: when its media word was captured, and how many re-identifications had
      started by then. */
  datatype Request = Request(at: nat, reids: nat)

  datatype WatcherAt =
    | Asleep
    | Deciding(present: bool, online: bool)
    | Removing                   // about to take the disk offline
    | Identifying                // about to take the disk offline before RecoverCard
    | Recovering                 // about to take the recovery lock
    | Entered                    // in RecoverCard, about to take the disk offline
    | Quiescing                  // about to take the media lock
    | Starting                   // about to re-identify
    | Reidentifying              // the identification commands are running
    | LeavingMedia(ok: bool)     // about to drop the media lock
    | LeavingRecovery(ok: bool)  // about to drop the recovery lock
    | Publishing                 // about to bring the disk online outside the locks

  datatype EjectorAt = Away | Inside | Marked | Offlined | Flushing | DroppingMedia | DroppingRecovery

  /** `checked` is the number of transitions at the last comparison of the media word. */
  datatype RunnerAt =
    | Idle
    | Locking(id: nat)
    | Held(id: nat)
    | Cleared(id: nat, checked: nat)
    | Transferring(id: nat, checked: nat)
    | Failing(id: nat)
    | Releasing

  datatype State = State(
    transitions: nat,
    hotplug: Hotplug,
    recovery: Holder,
    media: Holder,
    watcher: WatcherAt,
    ejector: EjectorAt,
    runner: RunnerAt,
    requests: seq<Request>,
    arriving: set<nat>,
    queue: seq<nat>,
    reids: nat,
    poweredOff: bool)

  datatype CallerMove = Capture | Admit(id: nat)

  datatype RunnerMove = Take | LockForRun | Check | Begin | End(ok: bool) | GoOffline | Finish | Release

  datatype WatcherMove =
    | Glance(present: bool) | Decide | SetRemoved | SetUnidentified | LockRecovery | SetRecovering
    | LockForRecovery | StartReidentify | EndReidentify(ok: bool) | UnlockAfterRecovery
    | UnlockRecovery | Publish

  datatype EjectorMove =
    | LockEject | MarkEjected | SetEjecting | LockForEject | EndFlush(ok: bool, present: bool)
    | UnlockAfterEject | UnlockEject

  datatype Step =
    | Caller(c: CallerMove)
    | Runs(r: RunnerMove)
    | Watches(w: WatcherMove)
    | Ejects(e: EjectorMove)

  /** The tracker starts online, so the disk is online after an even number of transitions. */
  predicate OnlineNow(s: State) { s.transitions % 2 == 0 }

  function Word(n: nat): int { StateAt(true, n) }

  /** `MediaStatusTracker.SetOnline` as one step: no transition when the bit is already right. */
  function SetOnline(s: State, online: bool): (r: State)
    ensures OnlineNow(r) == online && s.transitions <= r.transitions
    ensures r == s.(transitions := r.transitions)
  {
    if OnlineNow(s) == online then s else s.(transitions := s.transitions + 1)
  }

  predicate CallerCan(s: State, move: CallerMove) {
    match move
    case Capture => OnlineNow(s)
    case Admit(id) => id in s.arriving && id < |s.requests|
  }

  /** The caller's half of DoIO: capture the word, and queue only if it still shows. */
  function CallerStep(s: State, move: CallerMove): State
    requires CallerCan(s, move)
  {
    match move
    case Capture =>
      s.(requests := s.requests + [Request(s.transitions, s.reids)],
         arriving := s.arriving + {|s.requests|})
    case Admit(id) =>
      s.(arriving := s.arriving - {id},
         queue := if Word(s.requests[id].at) == Word(s.transitions) then s.queue + [id] else s.queue)
  }

  predicate RunnerCan(s: State, move: RunnerMove) {
    match move
    case Take => s.runner == Idle && s.queue != []
    case LockForRun => s.runner.Locking? && s.media == Nobody
    case Check => s.runner.Held? && s.runner.id < |s.requests|
    case Begin => s.runner.Cleared?
    case End(_) => s.runner.Transferring?
    case GoOffline => s.runner.Failing?
    case Finish => s.runner.Held?
    case Release => s.runner == Releasing
  }

  /** _RunRequest: the word is compared under the media lock before every transfer. */
  function RunnerStep(s: State, move: RunnerMove): State
    requires RunnerCan(s, move)
  {
    match move
    case Take => s.(runner := Locking(s.queue[0]), queue := s.queue[1..])
    case LockForRun => s.(media := Runner, runner := Held(s.runner.id))
    case Check =>
      s.(runner := if Word(s.requests[s.runner.id].at) == Word(s.transitions)
                   then Cleared(s.runner.id, s.transitions) else Releasing)
    case Begin => s.(runner := Transferring(s.runner.id, s.runner.checked))
    case End(ok) => s.(runner := if ok then Held(s.runner.id) else Failing(s.runner.id))
    case GoOffline => SetOnline(s, false).(runner := Releasing)
    case Finish => s.(runner := Releasing)
    case Release => s.(media := Nobody, runner := Idle)
  }

  predicate WatcherCan(s: State, move: WatcherMove) {
    match move
    case Glance(_) => s.watcher == Asleep
    case Decide => s.watcher.Deciding?
    case SetRemoved => s.watcher == Removing
    case SetUnidentified => s.watcher == Identifying
    case LockRecovery => s.watcher == Recovering && s.recovery == Nobody
    case SetRecovering => s.watcher == Entered
    case LockForRecovery => s.watcher == Quiescing && s.media == Nobody
    case StartReidentify => s.watcher == Starting
    case EndReidentify(_) => s.watcher == Reidentifying
    case UnlockAfterRecovery => s.watcher.LeavingMedia?
    case UnlockRecovery => s.watcher.LeavingRecovery?
    case Publish => s.watcher == Publishing
  }

  /** _WatcherLoop and the RecoverCard it calls. */
  function WatcherStep(s: State, move: WatcherMove): State
    requires WatcherCan(s, move)
  {
    match move
    case Glance(present) => s.(watcher := Deciding(present, OnlineNow(s)))
    case Decide =>
      var (action, after) := Observe(s.hotplug, s.watcher.present, s.watcher.online);
      s.(hotplug := after,
         watcher := match action
                    case Remove => Removing
                    case Identify => Identifying
                    case NoAction => Asleep)
    case SetRemoved => SetOnline(s, false).(watcher := Asleep)
    case SetUnidentified => SetOnline(s, false).(watcher := Recovering)
    case LockRecovery => s.(recovery := Watcher, watcher := Entered)
    case SetRecovering => SetOnline(s, false).(watcher := Quiescing)
    case LockForRecovery => s.(media := Watcher, watcher := Starting)
    case StartReidentify => s.(reids := s.reids + 1, watcher := Reidentifying, poweredOff := false)
    case EndReidentify(ok) =>
      (if ok then SetOnline(s, true) else s).(watcher := LeavingMedia(ok))
    case UnlockAfterRecovery => s.(media := Nobody, watcher := LeavingRecovery(s.watcher.ok))
    case UnlockRecovery =>
      s.(recovery := Nobody, watcher := if s.watcher.ok then Publishing else Asleep)
    case Publish => SetOnline(s, true).(watcher := Asleep)
  }

  predicate EjectorCan(s: State, move: EjectorMove) {
    match move
    case LockEject => s.ejector == Away && s.recovery == Nobody
    case MarkEjected => s.ejector == Inside
    case SetEjecting => s.ejector == Marked
    case LockForEject => s.ejector == Offlined && s.media == Nobody
    case EndFlush(_, _) => s.ejector == Flushing
    case UnlockAfterEject => s.ejector == DroppingMedia
    case UnlockEject => s.ejector == DroppingRecovery
  }

  /** EjectMedia. */
  function EjectorStep(s: State, move: EjectorMove): State
    requires EjectorCan(s, move)
  {
    match move
    case LockEject => s.(recovery := Ejector, ejector := Inside)
    case MarkEjected =>
      if OnlineNow(s) then s.(hotplug := s.hotplug.(ejected := true), ejector := Marked)
      else s.(ejector := DroppingRecovery)
    case SetEjecting => SetOnline(s, false).(ejector := Offlined)
    case LockForEject => s.(media := Ejector, ejector := Flushing)
    case EndFlush(ok, present) =>
      if ok then s.(poweredOff := true, ejector := DroppingMedia)
      else
        (if present then SetOnline(s, true) else s)
        .(hotplug := s.hotplug.(ejected := false), ejector := DroppingMedia)
    case UnlockAfterEject => s.(media := Nobody, ejector := DroppingRecovery)
    case UnlockEject => s.(recovery := Nobody, ejector := Away)
  }

  predicate Enabled(s: State, step: Step) {
    match step
    case Caller(move) => CallerCan(s, move)
    case Runs(move) => RunnerCan(s, move)
    case Watches(move) => WatcherCan(s, move)
    case Ejects(move) => EjectorCan(s, move)
  }

  function Do(s: State, step: Step): State
    requires Enabled(s, step)
  {
    match step
    case Caller(move) => CallerStep(s, move)
    case Runs(move) => RunnerStep(s, move)
    case Watches(move) => WatcherStep(s, move)
    case Ejects(move) => EjectorStep(s, move)
  }

  // ---- runs --------------------------------------------------------------------------

  /** `Start(empty)`: the disk is published, offline when no card was found. */
  datatype Run = Start(empty: bool) | Then(earlier: Run, step: Step)

  function Initial(empty: bool): State {
    State(if empty then 1 else 0, Hotplug(!empty, false), Nobody, Nobody, Asleep, Away, Idle,
          [], {}, [], 0, false)
  }

  /** The state after a run; a step that is not enabled changes nothing. */
  function After(run: Run): State {
    match run
    case Start(empty) => Initial(empty)
    case Then(earlier, step) =>
      var s := After(earlier);
      if Enabled(s, step) then Do(s, step) else s
  }

  // ---- what every step keeps -----------------------------------------------------------

  predicate WatcherInMedia(w: WatcherAt) { w == Starting || w == Reidentifying || w.LeavingMedia? }

  predicate WatcherInRecovery(w: WatcherAt) {
    w == Entered || w == Quiescing || w.LeavingRecovery? || WatcherInMedia(w)
  }

  predicate RunnerInMedia(r: RunnerAt) {
    r.Held? || r.Cleared? || r.Transferring? || r.Failing? || r == Releasing
  }

  predicate EjectorInMedia(e: EjectorAt) { e == Flushing || e == DroppingMedia }

  /** The holder of a lock is exactly the thread whose position lies inside. */
  predicate MediaLockOk(s: State) {
    && (s.media == Watcher <==> WatcherInMedia(s.watcher))
    && (s.media == Runner <==> RunnerInMedia(s.runner))
    && (s.media == Ejector <==> EjectorInMedia(s.ejector))
  }

  predicate RecoveryLockOk(s: State) {
    && (s.recovery == Watcher <==> WatcherInRecovery(s.watcher))
    && (s.recovery == Ejector <==> s.ejector != Away)
    && s.recovery != Runner
  }

  predicate LocksOk(s: State) { MediaLockOk(s) && RecoveryLockOk(s) }

  /** Between going offline and re-identifying, nothing brings the disk back. */
  predicate OfflineBeforeReidentify(s: State) {
    s.watcher == Quiescing || s.watcher == Starting ==> !OnlineNow(s)
  }

  /** A re-identification after the capture implies a transition after the capture. */
  predicate RequestOk(r: Request, transitions: nat, reids: nat) {
    && r.at <= transitions && r.at % 2 == 0 && r.reids <= reids
    && (r.reids < reids ==> r.at < transitions)
  }

  predicate RequestsOk(s: State) {
    forall i :: 0 <= i < |s.requests| ==> RequestOk(s.requests[i], s.transitions, s.reids)
  }

  predicate IdsOk(s: State) {
    && (forall i :: 0 <= i < |s.queue| ==> s.queue[i] < |s.requests|)
    && (s.runner.Locking? || s.runner.Held? || s.runner.Cleared? || s.runner.Transferring?
        ==> s.runner.id < |s.requests|)
  }

  /** What the last comparison established still holds while the media lock is held. */
  predicate ClearedOk(s: State) {
    (s.runner.Cleared? || s.runner.Transferring?) && s.runner.id < |s.requests| ==>
      var r := s.requests[s.runner.id];
      && s.runner.checked <= s.transitions
      && RequestOk(r, s.runner.checked, s.reids)
      && (s.runner.checked - r.at) % PERIOD == 0
  }

  predicate Inv(s: State) {
    LocksOk(s) && OfflineBeforeReidentify(s) && RequestsOk(s) && IdsOk(s) && ClearedOk(s)
  }

  lemma RunnerKeepsLocks(s: State, move: RunnerMove)
    requires LocksOk(s) && RunnerCan(s, move)
    ensures LocksOk(RunnerStep(s, move))
  {
    hide StateAt;
    match move case Check => case _ =>
  }

  lemma WatcherKeepsLocks(s: State, move: WatcherMove)
    requires LocksOk(s) && WatcherCan(s, move)
    ensures LocksOk(WatcherStep(s, move))
  {
    hide Observe, StateAt, SetOnline;
    match move
    case Glance(_) =>
    case Decide =>
    case SetRemoved =>
    case SetUnidentified =>
    case LockRecovery =>
    case SetRecovering =>
    case LockForRecovery =>
    case StartReidentify =>
    case EndReidentify(_) => hide EjectorInMedia, RunnerInMedia;
    case UnlockAfterRecovery =>
    case UnlockRecovery =>
    case Publish => hide EjectorInMedia, RunnerInMedia;
  }

  lemma EjectorKeepsLocks(s: State, move: EjectorMove)
    requires LocksOk(s) && EjectorCan(s, move)
    ensures LocksOk(EjectorStep(s, move))
  {
    match move case MarkEjected => case _ =>
  }

  lemma LocksStep(s: State, step: Step)
    requires LocksOk(s) && Enabled(s, step)
    ensures LocksOk(Do(s, step))
  {
    hide StateAt, RunnerStep, WatcherStep, EjectorStep;
    match step
    case Caller(_) =>
    case Runs(move) => RunnerKeepsLocks(s, move);
    case Watches(move) => WatcherKeepsLocks(s, move);
    case Ejects(move) => EjectorKeepsLocks(s, move);
  }

  lemma OfflineStep(s: State, step: Step)
    requires LocksOk(s) && OfflineBeforeReidentify(s) && Enabled(s, step)
    ensures OfflineBeforeReidentify(Do(s, step))
  {
    match step
    case Caller(_) =>
    case Runs(move) => { match move case Check => case _ => }
    case Watches(move) => { match move case Decide => case _ => }
    case Ejects(move) => { match move case MarkEjected => case _ => }
  }

  /** Every step moves time forward: transitions, re-identifications and requests only grow. */
  lemma Monotone(s: State, step: Step)
    requires Enabled(s, step)
    ensures var r := Do(s, step);
      && s.transitions <= r.transitions && s.reids <= r.reids
      && (r.requests == s.requests
          || (step == Caller(Capture) && r.requests == s.requests + [Request(s.transitions, s.reids)]))
      && (r.reids != s.reids ==> step == Watches(StartReidentify) && r.transitions == s.transitions)
  {
    match step
    case Caller(_) =>
    case Runs(move) => { match move case Check => case _ => }
    case Watches(move) => { match move case Decide => case _ => }
    case Ejects(move) => { match move case MarkEjected => case _ => }
  }

  lemma RequestsStep(s: State, step: Step)
    requires Inv(s) && Enabled(s, step)
    ensures RequestsOk(Do(s, step))
  {
    var r := Do(s, step);
    Monotone(s, step);
    hide Do, LocksOk, ClearedOk, IdsOk;
    forall i | 0 <= i < |r.requests|
      ensures RequestOk(r.requests[i], r.transitions, r.reids)
    {
      if i < |s.requests| {
        assert r.requests[i] == s.requests[i];
        assert RequestOk(s.requests[i], s.transitions, s.reids);
      }
    }
  }

  lemma IdsStep(s: State, step: Step)
    requires IdsOk(s) && Enabled(s, step)
    ensures IdsOk(Do(s, step))
  {
    Monotone(s, step);
    match step
    case Caller(_) =>
    case Runs(move) => { match move case Check => case _ => }
    case Watches(move) => { match move case Decide => case _ => }
    case Ejects(move) => { match move case MarkEjected => case _ => }
  }

  /** The one place where the word itself matters: equal words mean a whole number of periods. */
  lemma CheckStep(s: State)
    requires Inv(s) && Enabled(s, Runs(Check))
    ensures ClearedOk(Do(s, Runs(Check)))
  {
    var r := s.requests[s.runner.id];
    SameStateExactly(true, r.at, s.transitions);
    hide StateAt;
  }

  lemma ClearedStep(s: State, step: Step)
    requires Inv(s) && Enabled(s, step)
    ensures ClearedOk(Do(s, step))
  {
    if step == Runs(Check) {
      CheckStep(s);
    } else {
      OtherStepsKeepCleared(s, step);
    }
  }

  lemma OthersLeaveRunner(s: State, step: Step)
    requires Enabled(s, step) && !step.Runs?
    ensures Do(s, step).runner == s.runner
  {
    hide StateAt, Observe, RunnerStep;
    match step
    case Caller(_) =>
    case Watches(move) => { match move case Decide => case _ => }
    case Ejects(move) => { match move case MarkEjected => case _ => }
  }

  lemma RunnerKeepsCleared(s: State, move: RunnerMove)
    requires RunnerCan(s, move) && move != Check
    ensures var r := RunnerStep(s, move).runner;
      r.Cleared? || r.Transferring? ==> s.runner.Cleared? && r.id == s.runner.id && r.checked == s.runner.checked
  {
  }

  /** A cleared request stays the one that was checked, and meanwhile nothing is re-identified. */
  lemma ClearedIsKept(s: State, step: Step)
    requires MediaLockOk(s) && Enabled(s, step) && step != Runs(Check)
    ensures var r := Do(s, step);
      r.runner.Cleared? || r.runner.Transferring? ==>
        && (s.runner.Cleared? || s.runner.Transferring?)
        && r.runner.id == s.runner.id && r.runner.checked == s.runner.checked && r.reids == s.reids
  {
    hide CallerStep, RunnerStep, WatcherStep, EjectorStep;
    Monotone(s, step);
    if step.Runs? { RunnerKeepsCleared(s, step.r); } else { OthersLeaveRunner(s, step); }
  }

  lemma OtherStepsKeepCleared(s: State, step: Step)
    requires Inv(s) && Enabled(s, step) && step != Runs(Check)
    ensures ClearedOk(Do(s, step))
  {
    Monotone(s, step);
    ClearedIsKept(s, step);
    hide Do, Enabled;
  }

  lemma {:induction false} InvHolds(run: Run)
    ensures Inv(After(run))
  {
    match run
    case Start(_) =>
    case Then(earlier, step) =>
      InvHolds(earlier);
      var s := After(earlier);
      if Enabled(s, step) {
        LocksStep(s, step);
        OfflineStep(s, step);
        RequestsStep(s, step);
        IdsStep(s, step);
        ClearedStep(s, step);
      }
  }

  // ---- the theorems ----------------------------------------------------------------------

  lemma WithinOnePeriod(r: Request, checked: nat, reids: nat)
    requires RequestOk(r, checked, reids) && (checked - r.at) % PERIOD == 0
    ensures checked - r.at < PERIOD ==> r.reids == reids
    ensures r.reids < reids ==> r.at < checked
  {
  }

  /** No transfer of a request starts or runs after a re-identification that followed the capture
      of its word, unless at least 2^31 transitions have happened since: then the word may have
      come round, and it did so a whole number of times. */
  lemma TransfersBelongToTheirMedia(run: Run, s: State)
    requires s == After(run) && (s.runner.Cleared? || s.runner.Transferring?)
    ensures s.runner.id < |s.requests| && s.runner.checked <= s.transitions
    ensures var r := s.requests[s.runner.id];
      s.transitions - r.at < PERIOD ==> r.reids == s.reids
    ensures var r := s.requests[s.runner.id];
      r.reids < s.reids ==> r.at < s.runner.checked && (s.runner.checked - r.at) % PERIOD == 0
  {
    InvHolds(run);
    hide After, LocksOk, RequestsOk, OfflineBeforeReidentify;
    WithinOnePeriod(s.requests[s.runner.id], s.runner.checked, s.reids);
  }

  /** A re-identification, an eject flush and a transfer never overlap. */
  lemma ReidentifyExcludesTransfer(run: Run, s: State)
    requires s == After(run) && (s.watcher == Reidentifying || s.ejector == Flushing)
    ensures !s.runner.Cleared? && !s.runner.Transferring?
    ensures s.watcher == Reidentifying ==> s.ejector != Flushing
  {
    InvHolds(run);
  }

  // ---- the bound is exact ------------------------------------------------------------------

  /** Nothing in progress except, perhaps, a request waiting for the media lock. */
  predicate Quiet(s: State) {
    && OnlineNow(s) && s.hotplug == Hotplug(true, false)
    && s.recovery == Nobody && s.media == Nobody
    && s.watcher == Asleep && s.ejector == Away && !s.poweredOff
  }

  /** One more step at the end of a run. */
  lemma Extend(run: Run, step: Step, s: State, r: State)
    requires s == After(run) && Enabled(s, step) && r == Do(s, step)
    ensures r == After(Then(run, step))
  {
  }

  /** The watcher misses the card once. */
  function Removal(run: Run): Run {
    Then(Then(Then(run, Watches(Glance(false))), Watches(Decide)), Watches(SetRemoved))
  }

  lemma RemovalEffect(run: Run, s: State, t: State)
    requires s == After(run) && Quiet(s)
    requires t == s.(transitions := s.transitions + 1, hotplug := Hotplug(false, false))
    ensures t == After(Removal(run))
  {
    hide After, CallerStep, RunnerStep, EjectorStep, StateAt;
    var s1 := s.(watcher := Deciding(false, true));
    Extend(run, Watches(Glance(false)), s, s1);
    var s2 := s.(watcher := Removing, hotplug := Hotplug(false, false));
    Extend(Then(run, Watches(Glance(false))), Watches(Decide), s1, s2);
    Extend(Then(Then(run, Watches(Glance(false))), Watches(Decide)), Watches(SetRemoved), s2, t);
  }

  /** The watcher finds a card and gets as far as the recovery lock. */
  function Insertion(run: Run): Run {
    Then(Then(Then(Then(run, Watches(Glance(true))), Watches(Decide)), Watches(SetUnidentified)), Watches(LockRecovery))
  }

  lemma InsertionEffect(run: Run, s: State, t: State)
    requires s == After(run) && !OnlineNow(s) && s.watcher == Asleep && s.hotplug == Hotplug(false, false)
    requires s.recovery == Nobody
    requires t == s.(hotplug := Hotplug(true, false), watcher := Entered, recovery := Watcher)
    ensures t == After(Insertion(run))
  {
    hide After, CallerStep, RunnerStep, EjectorStep, StateAt;
    var r1 := Then(run, Watches(Glance(true)));
    var s1 := s.(watcher := Deciding(true, false));
    Extend(run, Watches(Glance(true)), s, s1);
    var s2 := s.(watcher := Identifying, hotplug := Hotplug(true, false));
    Extend(r1, Watches(Decide), s1, s2);
    var s3 := s2.(watcher := Recovering);
    Extend(Then(r1, Watches(Decide)), Watches(SetUnidentified), s2, s3);
    Extend(Then(Then(r1, Watches(Decide)), Watches(SetUnidentified)), Watches(LockRecovery), s3, t);
  }

  /** RecoverCard succeeds, up to dropping its locks. */
  function Recovery(run: Run): Run {
    var started := Then(Then(Then(run, Watches(SetRecovering)), Watches(LockForRecovery)), Watches(StartReidentify));
    Then(Then(Then(started, Watches(EndReidentify(true))), Watches(UnlockAfterRecovery)), Watches(UnlockRecovery))
  }

  lemma RecoveryEffect(run: Run, s: State, t: State)
    requires s == After(run) && !OnlineNow(s) && s.watcher == Entered && s.media == Nobody
    requires t == s.(transitions := s.transitions + 1, reids := s.reids + 1, poweredOff := false,
                     watcher := Publishing, recovery := Nobody)
    ensures t == After(Recovery(run))
  {
    hide After, CallerStep, RunnerStep, EjectorStep, Observe, StateAt;
    var s1 := s.(watcher := Quiescing);
    Extend(run, Watches(SetRecovering), s, s1);
    var r1 := Then(run, Watches(SetRecovering));
    var s2 := s.(watcher := Starting, media := Watcher);
    Extend(r1, Watches(LockForRecovery), s1, s2);
    var r2 := Then(r1, Watches(LockForRecovery));
    var s3 := s2.(watcher := Reidentifying, reids := s.reids + 1, poweredOff := false);
    Extend(r2, Watches(StartReidentify), s2, s3);
    var r3 := Then(r2, Watches(StartReidentify));
    var s4 := s3.(watcher := LeavingMedia(true), transitions := s.transitions + 1);
    Extend(r3, Watches(EndReidentify(true)), s3, s4);
    var r4 := Then(r3, Watches(EndReidentify(true)));
    var s5 := s4.(watcher := LeavingRecovery(true), media := Nobody);
    Extend(r4, Watches(UnlockAfterRecovery), s4, s5);
    Extend(Then(r4, Watches(UnlockAfterRecovery)), Watches(UnlockRecovery), s5, t);
  }

  /** The card is taken out and put back; the watcher has not yet published it. */
  function Swap(run: Run): Run { Recovery(Insertion(Removal(run))) }

  lemma SwapEffect(run: Run, s: State, t: State)
    requires s == After(run) && Quiet(s)
    requires t == s.(transitions := s.transitions + 2, reids := s.reids + 1, watcher := Publishing)
    ensures t == After(Swap(run))
  {
    hide After, Removal, Insertion, Recovery;
    var s1 := s.(transitions := s.transitions + 1, hotplug := Hotplug(false, false));
    RemovalEffect(run, s, s1);
    var s2 := s1.(hotplug := Hotplug(true, false), watcher := Entered, recovery := Watcher);
    InsertionEffect(Removal(run), s1, s2);
    RecoveryEffect(Insertion(Removal(run)), s2, t);
  }

  /** The card is taken out and put back `n` times. */
  function Swaps(run: Run, n: nat): Run {
    if n == 0 then run else Then(Swap(Swaps(run, n - 1)), Watches(Publish))
  }

  lemma {:induction false} SwapsEffect(run: Run, n: nat, s: State, t: State)
    requires s == After(run) && Quiet(s)
    requires t == s.(transitions := s.transitions + 2 * n, reids := s.reids + n)
    ensures t == After(Swaps(run, n))
  {
    hide After, Swap, CallerStep, RunnerStep, EjectorStep, Observe, StateAt;
    if n == 0 {
    } else {
      var before := s.(transitions := s.transitions + 2 * (n - 1), reids := s.reids + (n - 1));
      SwapsEffect(run, n - 1, s, before);
      var swapped := before.(transitions := s.transitions + 2 * n, reids := s.reids + n,
                             watcher := Publishing);
      SwapEffect(Swaps(run, n - 1), before, swapped);
      Extend(Swap(Swaps(run, n - 1)), Watches(Publish), swapped, t);
    }
  }

  /** A request is captured, queued and taken by the request thread. */
  function Queued(run: Run): Run { Then(Then(Then(run, Caller(Capture)), Caller(Admit(0))), Runs(Take)) }

  lemma QueuedEffect(run: Run, s: State, t: State)
    requires s == After(run) && OnlineNow(s) && s.runner == Idle
    requires s.requests == [] && s.arriving == {} && s.queue == []
    requires t == s.(requests := [Request(s.transitions, s.reids)], runner := Locking(0))
    ensures t == After(Queued(run))
  {
    hide After, WatcherStep, EjectorStep, Observe, StateAt;
    var m := s.(requests := [Request(s.transitions, s.reids)]);
    Extend(run, Caller(Capture), s, m.(arriving := {0}));
    var r1 := Then(run, Caller(Capture));
    Extend(r1, Caller(Admit(0)), m.(arriving := {0}), m.(queue := [0]));
    Extend(Then(r1, Caller(Admit(0))), Runs(Take), m.(queue := [0]), t);
  }

  /** The request thread gets the lock, finds the word unchanged and starts the transfer. */
  function Started(run: Run): Run { Then(Then(Then(run, Runs(LockForRun)), Runs(Check)), Runs(Begin)) }

  lemma StartedEffect(run: Run, s: State, t: State)
    requires s == After(run) && s.runner.Locking? && s.media == Nobody && s.runner.id < |s.requests|
    requires Word(s.requests[s.runner.id].at) == Word(s.transitions)
    requires t == s.(media := Runner, runner := Transferring(s.runner.id, s.transitions))
    ensures t == After(Started(run))
  {
    hide After, CallerStep, WatcherStep, EjectorStep, Observe, StateAt;
    var s1 := s.(media := Runner, runner := Held(s.runner.id));
    Extend(run, Runs(LockForRun), s, s1);
    var s2 := s.(media := Runner, runner := Cleared(s.runner.id, s.transitions));
    Extend(Then(run, Runs(LockForRun)), Runs(Check), s1, s2);
    Extend(Then(Then(run, Runs(LockForRun)), Runs(Check)), Runs(Begin), s2, t);
  }

  /** The card is swapped `n` times while the request thread waits for the media lock. */
  function AgedRun(n: nat): Run { Started(Swaps(Queued(Start(false)), n)) }

  /** With exactly 2^31 transitions the stale request is transferred to re-identified media. */
  lemma AgedWordIsAccepted(n: nat)
    requires 2 * n == PERIOD
    ensures var s := After(AgedRun(n));
      && s.runner == Transferring(0, PERIOD) && s.transitions == PERIOD
      && s.requests == [Request(0, 0)] && s.reids == n
  {
    var run, s := Start(false), Initial(false);
    assert s == After(run);
    hide After, StateAt, Swaps, Queued, Started, Do, Enabled;
    var s1 := s.(requests := [Request(0, 0)], runner := Locking(0));
    QueuedEffect(run, s, s1);
    var s2 := s1.(transitions := PERIOD, reids := n);
    SwapsEffect(Queued(run), n, s1, s2);
    SameStateExactly(true, 0, PERIOD);
    var s3 := s2.(media := Runner, runner := Transferring(0, PERIOD));
    StartedEffect(Swaps(Queued(run), n), s2, s3);
  }

  // ---- eject ---------------------------------------------------------------------------

  /** No transfer is cleared or running without power, and none can be: the disk is offline. */
  predicate EjectedSafely(s: State) {
    s.poweredOff ==> !OnlineNow(s) && !s.runner.Cleared? && !s.runner.Transferring?
  }

  /** Eject never takes the disk offline while the watcher is about to bring it online. */
  predicate Unraced(run: Run) {
    match run
    case Start(_) => true
    case Then(earlier, step) =>
      Unraced(earlier) && (step == Ejects(SetEjecting) ==> After(earlier).watcher != Publishing)
  }

  predicate Reidentified(w: WatcherAt) {
    w == Reidentifying || w.LeavingMedia? || w.LeavingRecovery? || w == Publishing
  }

  /** From going offline to the power cut, and then until the next re-identification, nobody can bring
      the disk online. */
  predicate EjectOk(s: State) {
    && (s.ejector == Offlined || s.ejector == Flushing ==> !OnlineNow(s) && s.watcher != Publishing)
    && (s.ejector == Marked || s.ejector == Offlined || s.ejector == Flushing ==> !s.poweredOff)
    && (s.poweredOff ==> !Reidentified(s.watcher))
    && EjectedSafely(s)
  }

  /** The comparison of the word refuses every request while the disk is offline. */
  lemma OfflineIsNotCleared(s: State)
    requires RequestsOk(s) && IdsOk(s) && Enabled(s, Runs(Check)) && !OnlineNow(s)
    ensures Do(s, Runs(Check)).runner == Releasing
  {
    hide StateAt;
    var r := s.requests[s.runner.id];
    assert RequestOk(r, s.transitions, s.reids);
    SameStateExactly(true, r.at, s.transitions);
  }

  lemma EjectStep(s: State, step: Step)
    requires Inv(s) && EjectOk(s) && Enabled(s, step)
    requires step == Ejects(SetEjecting) ==> s.watcher != Publishing
    ensures EjectOk(Do(s, step))
  {
    hide StateAt, Observe, RequestsOk, IdsOk, ClearedOk;
    match step
    case Caller(_) =>
    case Runs(move) => {
      match move
      case Check => if s.poweredOff { OfflineIsNotCleared(s); }
      case _ =>
    }
    case Watches(move) => { match move case Decide => case _ => }
    case Ejects(move) => { match move case MarkEjected => case _ => }
  }

  /** When eject is safe. In every run in which it does not take the disk offline while the watcher is
      about to publish, a powered-off card is offline and no transfer is cleared or running. */
  lemma {:induction false} EjectIsSafe(run: Run)
    requires Unraced(run)
    ensures EjectOk(After(run))
  {
    match run
    case Start(_) =>
    case Then(earlier, step) =>
      EjectIsSafe(earlier);
      InvHolds(earlier);
      if Enabled(After(earlier), step) { EjectStep(After(earlier), step); }
      hide Do, Enabled, Inv, EjectOk;
  }

  /** An eject that succeeds in cutting the power. */
  function Ejection(run: Run): Run {
    var locked :=
      Then(Then(Then(Then(run, Ejects(LockEject)), Ejects(MarkEjected)), Ejects(SetEjecting)), Ejects(LockForEject));
    Then(Then(Then(locked, Ejects(EndFlush(true, true))), Ejects(UnlockAfterEject)), Ejects(UnlockEject))
  }

  lemma EjectionEffect(run: Run, s: State, t: State)
    requires s == After(run) && OnlineNow(s) && s.ejector == Away
    requires s.recovery == Nobody && s.media == Nobody
    requires t == s.(transitions := s.transitions + 1, poweredOff := true,
                     hotplug := s.hotplug.(ejected := true))
    ensures t == After(Ejection(run))
  {
    hide After, CallerStep, RunnerStep, WatcherStep, Observe, StateAt;
    var s1 := s.(recovery := Ejector, ejector := Inside);
    Extend(run, Ejects(LockEject), s, s1);
    var r1 := Then(run, Ejects(LockEject));
    var s2 := s1.(hotplug := s.hotplug.(ejected := true), ejector := Marked);
    Extend(r1, Ejects(MarkEjected), s1, s2);
    var r2 := Then(r1, Ejects(MarkEjected));
    var s3 := s2.(transitions := s.transitions + 1, ejector := Offlined);
    Extend(r2, Ejects(SetEjecting), s2, s3);
    var r3 := Then(r2, Ejects(SetEjecting));
    var s4 := s3.(media := Ejector, ejector := Flushing);
    Extend(r3, Ejects(LockForEject), s3, s4);
    var r4 := Then(r3, Ejects(LockForEject));
    var s5 := s4.(poweredOff := true, ejector := DroppingMedia);
    Extend(r4, Ejects(EndFlush(true, true)), s4, s5);
    var r5 := Then(r4, Ejects(EndFlush(true, true)));
    var s6 := s5.(media := Nobody, ejector := DroppingRecovery);
    Extend(r5, Ejects(UnlockAfterEject), s5, s6);
    Extend(Then(r5, Ejects(UnlockAfterEject)), Ejects(UnlockEject), s6, t);
  }

  /** Eject runs between the watcher's unlock and its last SetOnline. */
  function RacedEject(start: Run): Run { Then(Ejection(Swap(start)), Watches(Publish)) }

  lemma RacedEjectEffect(start: Run, s: State, t: State)
    requires s == After(start) && Quiet(s)
    requires t == s.(transitions := s.transitions + 4, reids := s.reids + 1, poweredOff := true,
                     hotplug := Hotplug(true, true))
    ensures t == After(RacedEject(start))
  {
    hide After, StateAt, Swap, Ejection, CallerStep, RunnerStep, EjectorStep, Observe;
    var s1 := s.(transitions := s.transitions + 2, reids := s.reids + 1, watcher := Publishing);
    SwapEffect(start, s, s1);
    var s2 := t.(transitions := s.transitions + 3, watcher := Publishing);
    EjectionEffect(Swap(start), s1, s2);
    Extend(Ejection(Swap(start)), Watches(Publish), s2, t);
  }

  function UndoneEjectRun(): Run { Started(Queued(RacedEject(Start(false)))) }

  /** The epoch does not protect an ejected card: the watcher's last SetOnline runs outside the
      recovery lock, so a transfer can start after eject has cut the power. */
  lemma EjectCanBeUndone()
    ensures var s := After(UndoneEjectRun());
      s.runner.Transferring? && s.poweredOff && s.hotplug.ejected && s.reids == 1
  {
    var start, s := Start(false), Initial(false);
    assert s == After(start);
    hide After, StateAt, RacedEject, Queued, Started, Do;
    var s1 := s.(transitions := 4, reids := 1, poweredOff := true, hotplug := Hotplug(true, true));
    RacedEjectEffect(start, s, s1);
    var s2 := s1.(requests := [Request(4, 1)], runner := Locking(0));
    QueuedEffect(RacedEject(start), s1, s2);
    StartedEffect(Queued(RacedEject(start)), s2, s2.(media := Runner, runner := Transferring(0, 4)));
  }

  ghost predicate EjectAlwaysSafe(raced: bool) {
    forall run: Run :: raced || Unraced(run) ==> EjectedSafely(After(run))
  }

  /** The exact condition: ejecting is safe in every run of a class if and only if the class keeps
      eject from going offline between the watcher's unlock and its last SetOnline. */
  lemma EjectIsSafeExactly(raced: bool)
    ensures EjectAlwaysSafe(raced) <==> !raced
  {
    if raced {
      EjectCanBeUndone();
      hide After, UndoneEjectRun;
      assert !EjectedSafely(After(UndoneEjectRun()));
    } else {
      forall run: Run | Unraced(run) ensures EjectedSafely(After(run)) { EjectIsSafe(run); }
    }
  }
}
