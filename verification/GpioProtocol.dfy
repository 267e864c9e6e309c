/** The pins, the interrupt handler, the event worker and the threads that watch and stop watching,
    as a machine (BayTrailController.cpp). The lock-protected parts are single steps; a scan of the
    due pins takes one step a pin and lets callers in between, which the lock does not. */
module GpioProtocol {
  import opened GpioEvents

  datatype Option<+T> = None | Some(value: T)

  /** What happened in the slot's latest watch. `missed` is set when the pin changed between the
      read of its level and the enabling of its trigger, until the next sample. `sampledAt` holds the
      time of each sample, `collectedAt` that of the latest collection. */
  datatype Watch = Watch(
    id: nat,
    edge: Edge,
    initial: Level,
    samples: seq<Level>,
    events: seq<Level>,
    startedAt: nat,
    sampledAt: seq<nat>,
    collectedAt: nat,
    missed: bool)

  datatype Slot = Slot(
    watching: bool,
    armed: bool,
    pending: bool,
    due: nat,
    debounce: nat,
    lastLevel: Level,
    dispatching: nat,
    watch: Watch)

  datatype WorkerAt =
    | Looping                          // about to collect
    | Scanning(next: nat)              // about to look at a pin
    | Calling(pin: nat, id: nat)       // in the handler of a watch
    | Planning                         // about to compute the deadline
    | Waiting(deadline: Option<nat>)   // in acquire_sem, with or without a timeout

  /** A StopWatching call off the worker thread: the watch it removed, if it found one, and the
      latest watch of its pin. */
  datatype StopCall = StopCall(pin: nat, id: nat, removed: bool, returned: bool)

  /** `owners[w]` is the pin of watch `w`; `arming` is the pin whose Watch call holds the lock. */
  datatype State = State(
    slots: seq<Slot>,
    levels: seq<Level>,
    latched: set<nat>,
    raised: set<nat>,
    sem: nat,
    owed: nat,
    now: nat,
    owners: seq<nat>,
    arming: Option<nat>,
    worker: WorkerAt,
    stops: seq<StopCall>)

  datatype HardwareMove = Change(pin: nat, level: Level) | Tick
  datatype InterruptMove = Raise | ReleaseSem
  datatype CallerMove =
    | StartWatch(pin: nat, edge: Edge, debounce: nat) | Arm
    | Stop(pin: nat) | StopReturns(call: nat) | StopInHandler(pin: nat)
  datatype WorkerMove = Collect | Scan | HandlerReturns | Plan | Wake | TimeOut

  datatype Step =
    | Hardware(h: HardwareMove)
    | Interrupt(i: InterruptMove)
    | Caller(c: CallerMove)
    | Worker(w: WorkerMove)

  predicate HardwareCan(s: State, move: HardwareMove) {
    match move
    case Change(pin, level) => pin < |s.levels| && |s.slots| == |s.levels| && s.levels[pin] != level
    case Tick => true
  }

  /** A change latches the pin's status bit when its trigger is set for that edge. */
  function HardwareDo(s: State, move: HardwareMove): State
    requires HardwareCan(s, move)
  {
    match move
    case Change(pin, level) =>
      s.(levels := s.levels[pin := level],
         latched := if s.slots[pin].armed && EdgeMatches(s.slots[pin].watch.edge, s.levels[pin], level)
                    then s.latched + {pin} else s.latched)
    case Tick => s.(now := s.now + 1)
  }

  /** The latched bits the interrupt handler takes over. */
  function Hits(s: State): set<nat> {
    set p | p in s.latched && p < |s.slots| && s.slots[p].watching
  }

  predicate InterruptCan(s: State, move: InterruptMove) {
    match move
    case Raise => Hits(s) != {}
    case ReleaseSem => s.owed > 0
  }

  function InterruptDo(s: State, move: InterruptMove): State
    requires InterruptCan(s, move)
  {
    match move
    case Raise => s.(latched := s.latched - Hits(s), raised := s.raised + Hits(s), owed := s.owed + 1)
    case ReleaseSem => s.(owed := s.owed - 1, sem := s.sem + 1)
  }

  predicate CallerCan(s: State, move: CallerMove) {
    match move
    case StartWatch(pin, _, _) =>
      s.arming.None? && pin < |s.slots| && pin < |s.levels| && !s.slots[pin].watching
    case Arm => s.arming.Some? && s.arming.value < |s.slots| && s.arming.value < |s.levels|
    case Stop(pin) => s.arming.None? && pin < |s.slots|
    case StopReturns(call) =>
      && s.arming.None? && call < |s.stops| && s.stops[call].pin < |s.slots|
      && (s.stops[call].removed ==> s.slots[s.stops[call].pin].dispatching == 0)
    case StopInHandler(pin) => s.arming.None? && s.worker.Calling? && pin < |s.slots|
  }

  /** The slot without its watch. */
  function Removed(slot: Slot): Slot { slot.(watching := false, armed := false, pending := false) }

  function CallerDo(s: State, move: CallerMove): State
    requires CallerCan(s, move)
  {
    match move
    case StartWatch(pin, edge, debounce) =>
      var watch := Watch(|s.owners|, edge, s.levels[pin], [], [], s.now, [], s.now, false);
      s.(slots := s.slots[pin := s.slots[pin].(watching := true, armed := false, pending := false,
                                               debounce := debounce, lastLevel := s.levels[pin], watch := watch)],
         latched := s.latched - {pin}, owners := s.owners + [pin], arming := Some(pin))
    case Arm =>
      var pin := s.arming.value;
      var slot := s.slots[pin];
      s.(slots := s.slots[pin := slot.(armed := true,
                                       watch := slot.watch.(missed := s.levels[pin] != slot.lastLevel))],
         arming := None)
    case Stop(pin) =>
      var found := s.slots[pin].watching;
      var call := StopCall(pin, s.slots[pin].watch.id, found, !found);
      if found then
        s.(slots := s.slots[pin := Removed(s.slots[pin])], latched := s.latched - {pin}, stops := s.stops + [call])
      else s.(stops := s.stops + [call])
    case StopReturns(call) => s.(stops := s.stops[call := s.stops[call].(returned := true)])
    case StopInHandler(pin) =>
      if s.slots[pin].watching then
        s.(slots := s.slots[pin := Removed(s.slots[pin])], latched := s.latched - {pin})
      else s
  }

  predicate WorkerCan(s: State, move: WorkerMove) {
    match move
    case Collect => s.arming.None? && s.worker == Looping
    case Scan => s.arming.None? && s.worker.Scanning? && |s.slots| == |s.levels|
    case HandlerReturns =>
      s.arming.None? && s.worker.Calling? && s.worker.pin < |s.slots| && s.slots[s.worker.pin].dispatching > 0
    case Plan => s.arming.None? && s.worker == Planning
    case Wake => s.worker.Waiting? && s.sem > 0
    case TimeOut => s.worker.Waiting? && s.worker.deadline.Some? && s.worker.deadline.value <= s.now
  }

  function CollectedSlot(slot: Slot, hit: bool, now: nat): Slot {
    if hit && slot.watching
    then slot.(pending := true, due := now + slot.debounce, watch := slot.watch.(collectedAt := now))
    else slot
  }

  predicate IsDue(slot: Slot, now: nat) { slot.watching && slot.pending && slot.due <= now }

  /** A due pin is read once; an event is delivered if the level differs the watched way. */
  function SampledSlot(slot: Slot, level: Level, now: nat): Slot {
    var fires := EdgeMatches(slot.watch.edge, slot.lastLevel, level);
    slot.(pending := false, lastLevel := level, dispatching := slot.dispatching + (if fires then 1 else 0),
          watch := slot.watch.(samples := slot.watch.samples + [level],
                               events := slot.watch.events + (if fires then [level] else []),
                               sampledAt := slot.watch.sampledAt + [now],
                               missed := false))
  }

  /** The least due time of the pending watched pins among the first `n`. */
  function Deadline(slots: seq<Slot>, n: nat): Option<nat>
    requires n <= |slots|
  {
    if n == 0 then None
    else
      var least := Deadline(slots, n - 1);
      var slot := slots[n - 1];
      if slot.watching && slot.pending && (least.None? || slot.due < least.value) then Some(slot.due) else least
  }

  function WorkerDo(s: State, move: WorkerMove): State
    requires WorkerCan(s, move)
  {
    match move
    case Collect =>
      s.(slots := seq(|s.slots|, p requires 0 <= p < |s.slots| => CollectedSlot(s.slots[p], p in s.raised, s.now)),
         raised := {}, worker := Scanning(0))
    case Scan =>
      var pin := s.worker.next;
      if pin >= |s.slots| then s.(worker := Planning)
      else if !IsDue(s.slots[pin], s.now) then s.(worker := Scanning(pin + 1))
      else
        var slot := s.slots[pin];
        s.(slots := s.slots[pin := SampledSlot(slot, s.levels[pin], s.now)],
           worker := if EdgeMatches(slot.watch.edge, slot.lastLevel, s.levels[pin])
                     then Calling(pin, slot.watch.id) else Scanning(pin + 1))
    case HandlerReturns =>
      var slot := s.slots[s.worker.pin];
      s.(slots := s.slots[s.worker.pin := slot.(dispatching := slot.dispatching - 1)], worker := Scanning(0))
    case Plan => s.(worker := Waiting(Deadline(s.slots, |s.slots|)))
    case Wake => s.(sem := s.sem - 1, worker := Looping)
    case TimeOut => s.(worker := Looping)
  }

  predicate Enabled(s: State, step: Step) {
    match step
    case Hardware(move) => HardwareCan(s, move)
    case Interrupt(move) => InterruptCan(s, move)
    case Caller(move) => CallerCan(s, move)
    case Worker(move) => WorkerCan(s, move)
  }

  function Do(s: State, step: Step): State
    requires Enabled(s, step)
  {
    match step
    case Hardware(move) => HardwareDo(s, move)
    case Interrupt(move) => InterruptDo(s, move)
    case Caller(move) => CallerDo(s, move)
    case Worker(move) => WorkerDo(s, move)
  }

  /** `Start(levels)`: what the pins show when the controller starts. */
  datatype Run = Start(levels: seq<Level>) | Then(earlier: Run, step: Step)

  const NO_WATCH := Watch(0, Both, Low, [], [], 0, [], 0, false)
  const FREE_SLOT := Slot(false, false, false, 0, 0, Low, 0, NO_WATCH)

  function Initial(levels: seq<Level>): State {
    State(seq(|levels|, p => FREE_SLOT), levels, {}, {}, 0, 0, 0, [], None, Looping, [])
  }

  /** The state after a run; a step that is not enabled changes nothing. */
  function After(run: Run): State {
    match run
    case Start(levels) => Initial(levels)
    case Then(earlier, step) =>
      var s := After(earlier);
      if Enabled(s, step) then Do(s, step) else s
  }

  /** How often a run has taken a step. */
  function Times(run: Run, what: Step): nat {
    match run
    case Start(_) => 0
    case Then(earlier, step) => Times(earlier, what) + if step == what && Enabled(After(earlier), step) then 1 else 0
  }

  /** Every raised interrupt wakes the worker once, or its release is made or owed. */
  lemma {:induction false} WakesAreConserved(run: Run)
    ensures var s := After(run);
      s.sem + s.owed + Times(run, Worker(Wake)) == Times(run, Interrupt(Raise))
  {
    if run.Then? { WakesAreConserved(run.earlier); }
  }

  // ---- what every step keeps ------------------------------------------------------------

  /** Watch ids are never reused, and a handler call belongs to the pin of its watch. */
  predicate OwnersOk(s: State) {
    && |s.slots| == |s.levels|
    && (forall p :: 0 <= p < |s.slots| && s.slots[p].watching ==>
          s.slots[p].watch.id < |s.owners| && s.owners[s.slots[p].watch.id] == p)
    && (s.worker.Calling? ==>
          && s.worker.pin < |s.slots| && s.worker.id < |s.owners| && s.owners[s.worker.id] == s.worker.pin)
  }

  /** `dispatching` counts the one call the worker may be in. */
  predicate DispatchingOk(s: State) {
    forall p :: 0 <= p < |s.slots| ==>
      s.slots[p].dispatching == if s.worker.Calling? && s.worker.pin == p then 1 else 0
  }

  /** A stop that removed its watch: the watch is gone for good, and once the call has returned the
      worker is not in the watch's handler. */
  predicate StopOk(s: State, call: StopCall) {
    call.removed ==>
      && call.id < |s.owners| && call.pin < |s.slots| && s.owners[call.id] == call.pin
      && (s.slots[call.pin].watching ==> s.slots[call.pin].watch.id != call.id)
      && (call.returned ==> !(s.worker.Calling? && s.worker.id == call.id))
  }

  predicate StopsOk(s: State) {
    forall k :: 0 <= k < |s.stops| ==> StopOk(s, s.stops[k])
  }

  /** The log of a watch is what its samples call for, and a pending pin is due its debounce time
      after the last collection. */
  predicate SlotOk(slot: Slot) {
    && slot.watch.events == Events(slot.watch.edge, slot.watch.initial, slot.watch.samples)
    && (slot.watching ==> slot.lastLevel == Last(slot.watch.initial, slot.watch.samples))
    && (slot.pending ==> slot.watching && slot.due == slot.watch.collectedAt + slot.debounce)
    && (slot.armed ==> slot.watching)
  }

  /** The earliest time the next sample of the watch may belong to. */
  function LastSampled(watch: Watch): nat {
    if watch.sampledAt == [] then watch.startedAt else watch.sampledAt[|watch.sampledAt| - 1]
  }

  /** Every time is at least `gap` later than the one before, and the first than `start`. */
  predicate Spaced(start: nat, times: seq<nat>, gap: nat) {
    && (times != [] ==> start + gap <= times[0])
    && forall i :: 0 < i < |times| ==> times[i - 1] + gap <= times[i]
  }

  /** The samples are a debounce time apart, and so is the next one. */
  predicate TimesOk(slot: Slot, now: nat) {
    var w := slot.watch;
    && |w.sampledAt| == |w.samples|
    && Spaced(w.startedAt, w.sampledAt, slot.debounce)
    && w.collectedAt <= now && LastSampled(w) <= now
    && (slot.pending ==> LastSampled(w) <= w.collectedAt && slot.due == w.collectedAt + slot.debounce)
  }

  predicate AllTimesOk(s: State) {
    forall p :: 0 <= p < |s.slots| ==> TimesOk(s.slots[p], s.now)
  }

  /** Some interrupt of the pin is on its way to the worker. */
  predicate Outstanding(s: State, p: nat)
    requires p < |s.slots|
  {
    p in s.latched || p in s.raised || s.slots[p].pending
  }

  /** A pin that shows the edge that is watched for is outstanding, or it changed too early; one that
      changed too early, both edges being watched, differs until something of it is outstanding. */
  predicate CaughtOk(s: State, p: nat)
    requires p < |s.slots| && p < |s.levels|
  {
    var slot := s.slots[p];
    && (slot.armed && EdgeMatches(slot.watch.edge, slot.lastLevel, s.levels[p]) ==>
          slot.watch.missed || Outstanding(s, p))
    && (slot.armed && slot.watch.edge == Both && slot.watch.missed && !Outstanding(s, p) ==>
          slot.lastLevel != s.levels[p])
    && (slot.watching && !slot.armed ==> s.arming == Some(p))
    && (s.arming == Some(p) ==> slot.watching && !slot.armed)
  }

  predicate PinsOk(s: State) {
    && (forall p :: 0 <= p < |s.slots| ==> SlotOk(s.slots[p]))
    && |s.slots| == |s.levels|
    && (s.arming.Some? ==> s.arming.value < |s.slots|)
    && forall p :: 0 <= p < |s.slots| ==> CaughtOk(s, p)
  }

  /** The worker's waits end in time: its timeout is no later than any due pin, and a raised
      interrupt has a release behind it that the worker has not used yet. */
  predicate WaitsOk(s: State) {
    && (s.worker.Waiting? ==>
          forall p :: 0 <= p < |s.slots| && s.slots[p].watching && s.slots[p].pending ==>
            s.worker.deadline.Some? && s.worker.deadline.value <= s.slots[p].due)
    && (s.raised != {} ==> s.sem + s.owed > 0 || s.worker == Looping)
  }

  predicate Inv(s: State) {
    OwnersOk(s) && DispatchingOk(s) && StopsOk(s) && PinsOk(s) && AllTimesOk(s) && WaitsOk(s)
  }

  lemma OwnersStep(s: State, step: Step)
    requires OwnersOk(s) && Enabled(s, step)
    ensures OwnersOk(Do(s, step))
  {
    hide EdgeMatches, Deadline;
    match step
    case Hardware(move) => { match move case Change(_, _) => case Tick => }
    case Interrupt(move) =>
    case Caller(move) => { match move case StartWatch(_, _, _) => case Stop(_) => case _ => }
    case Worker(move) => { match move case Scan => case Collect => case _ => }
  }

  lemma DispatchingStep(s: State, step: Step)
    requires DispatchingOk(s) && Enabled(s, step)
    ensures DispatchingOk(Do(s, step))
  {
    hide EdgeMatches, Deadline;
    match step
    case Hardware(move) =>
    case Interrupt(move) =>
    case Caller(move) => { match move case StartWatch(_, _, _) => case Stop(_) => case _ => }
    case Worker(move) => { match move case Scan => case Collect => case _ => }
  }

  lemma StopsStep(s: State, step: Step)
    requires OwnersOk(s) && DispatchingOk(s) && StopsOk(s) && Enabled(s, step)
    ensures StopsOk(Do(s, step))
  {
    hide EdgeMatches, Deadline;
    var r := Do(s, step);
    forall k | 0 <= k < |r.stops| ensures StopOk(r, r.stops[k]) {
      if k < |s.stops| { assert StopOk(s, s.stops[k]); }
      match step
      case Hardware(move) =>
      case Interrupt(move) =>
      case Caller(move) => { match move case StartWatch(_, _, _) => case Stop(_) => case _ => }
      case Worker(move) => { match move case Scan => case Collect => case _ => }
    }
  }

  lemma {:induction false} DeadlineIsLeast(slots: seq<Slot>, n: nat)
    requires n <= |slots|
    ensures forall p :: 0 <= p < n && slots[p].watching && slots[p].pending ==>
      Deadline(slots, n).Some? && Deadline(slots, n).value <= slots[p].due
  {
    if n > 0 { DeadlineIsLeast(slots, n - 1); }
  }

  lemma WaitsStep(s: State, step: Step)
    requires WaitsOk(s) && Enabled(s, step)
    ensures WaitsOk(Do(s, step))
  {
    hide EdgeMatches, Deadline;
    DeadlineIsLeast(s.slots, |s.slots|);
    match step
    case Hardware(move) =>
    case Interrupt(move) =>
    case Caller(move) => { match move case StartWatch(_, _, _) => case Stop(_) => case _ => }
    case Worker(move) => { match move case Scan => case Collect => case _ => }
  }

  /** One more sample extends the log as the filter says. */
  lemma SampledOk(slot: Slot, level: Level, now: nat)
    requires SlotOk(slot) && slot.watching
    ensures SlotOk(SampledSlot(slot, level, now))
  {
    var samples := slot.watch.samples;
    assert (samples + [level])[..|samples|] == samples;
  }

  predicate PinOk(s: State, p: nat)
    requires p < |s.slots| && p < |s.levels|
  {
    SlotOk(s.slots[p]) && CaughtOk(s, p)
  }

  lemma CallerKeepsPin(s: State, move: CallerMove, p: nat)
    requires |s.slots| == |s.levels| && p < |s.slots| && PinOk(s, p) && CallerCan(s, move)
    ensures PinOk(CallerDo(s, move), p)
  {
    match move case StartWatch(_, _, _) => case Stop(_) => case Arm => case _ =>
  }

  lemma WorkerKeepsPin(s: State, move: WorkerMove, p: nat)
    requires |s.slots| == |s.levels| && p < |s.slots| && PinOk(s, p) && WorkerCan(s, move)
    ensures PinOk(WorkerDo(s, move), p)
  {
    hide Deadline;
    match move
    case Scan =>
      if s.worker.next == p && IsDue(s.slots[p], s.now) { SampledOk(s.slots[p], s.levels[p], s.now); }
      hide Events;
    case _ =>
  }

  /** Every step keeps every pin right; the interrupt handler, for one, moves the bit of a watched pin
      from the hardware to the worker. */
  lemma PinStep(s: State, step: Step, p: nat)
    requires |s.slots| == |s.levels| && p < |s.slots| && PinOk(s, p) && Enabled(s, step)
    ensures PinOk(Do(s, step), p)
  {
    match step
    case Hardware(move) => { match move case Change(_, _) => case Tick => }
    case Interrupt(move) =>
      assert p in s.latched && s.slots[p].watching ==> p in Hits(s);
    case Caller(move) => CallerKeepsPin(s, move, p);
    case Worker(move) => WorkerKeepsPin(s, move, p);
  }

  /** The number of pins never changes. */
  lemma SameSize(s: State, step: Step)
    requires |s.slots| == |s.levels| && Enabled(s, step)
    ensures |Do(s, step).slots| == |Do(s, step).levels| == |s.slots|
    ensures Do(s, step).arming.Some? ==> s.arming == Do(s, step).arming || Do(s, step).arming.value < |s.slots|
  {
    hide EdgeMatches, Deadline;
    match step
    case Hardware(move) => { match move case Change(_, _) => case Tick => }
    case Interrupt(move) =>
    case Caller(move) => { match move case StartWatch(_, _, _) => case Stop(_) => case _ => }
    case Worker(move) => { match move case Scan => case Collect => case _ => }
  }

  lemma PinsStep(s: State, step: Step)
    requires PinsOk(s) && Enabled(s, step)
    ensures PinsOk(Do(s, step))
  {
    SameSize(s, step);
    var r := Do(s, step);
    hide Do, Enabled, SlotOk, CaughtOk;
    forall p | 0 <= p < |r.slots| ensures SlotOk(r.slots[p]) && CaughtOk(r, p) {
      assert SlotOk(s.slots[p]) && CaughtOk(s, p);
      PinStep(s, step, p);
    }
  }

  lemma SampleTimes(slot: Slot, level: Level, now: nat)
    requires TimesOk(slot, now) && IsDue(slot, now)
    ensures TimesOk(SampledSlot(slot, level, now), now)
  {
  }

  lemma CollectTimes(slot: Slot, hit: bool, now: nat)
    requires TimesOk(slot, now)
    ensures TimesOk(CollectedSlot(slot, hit, now), now)
  {
  }

  lemma TimesStep(s: State, step: Step, p: nat)
    requires p < |s.slots| && TimesOk(s.slots[p], s.now) && Enabled(s, step)
    ensures p < |Do(s, step).slots| && TimesOk(Do(s, step).slots[p], Do(s, step).now)
  {
    hide EdgeMatches, Deadline, SampledSlot;
    match step
    case Hardware(move) => { match move case Change(_, _) => case Tick => }
    case Interrupt(move) =>
    case Caller(move) => { match move case StartWatch(_, _, _) => case Stop(_) => case _ => }
    case Worker(move) => {
      match move
      case Scan => if s.worker.next == p && IsDue(s.slots[p], s.now) { SampleTimes(s.slots[p], s.levels[p], s.now); }
      case HandlerReturns =>
      case Collect => CollectTimes(s.slots[p], p in s.raised, s.now);
      case _ =>
    }
  }

  lemma AllTimesStep(s: State, step: Step)
    requires |s.slots| == |s.levels| && AllTimesOk(s) && Enabled(s, step)
    ensures AllTimesOk(Do(s, step))
  {
    SameSize(s, step);
    var r := Do(s, step);
    hide Do, Enabled, TimesOk;
    forall p | 0 <= p < |r.slots| ensures TimesOk(r.slots[p], r.now) { TimesStep(s, step, p); }
  }

  lemma {:induction false} InvHolds(run: Run)
    ensures Inv(After(run))
  {
    match run
    case Start(_) =>
    case Then(earlier, step) =>
      InvHolds(earlier);
      var s := After(earlier);
      if Enabled(s, step) {
        OwnersStep(s, step);
        DispatchingStep(s, step);
        StopsStep(s, step);
        PinsStep(s, step);
        AllTimesStep(s, step);
        WaitsStep(s, step);
      }
      hide Do, Enabled, OwnersOk, DispatchingOk, StopsOk, PinsOk, AllTimesOk, WaitsOk;
  }

  // ---- the theorems ------------------------------------------------------------------------

  /** The stop barrier: once a StopWatching call off the worker thread that removed a watch has
      returned, the worker is not in the handler of that watch, and the watch is not installed, so
      it will not be called again. */
  lemma StopIsABarrier(run: Run, s: State, k: nat)
    requires s == After(run) && k < |s.stops| && s.stops[k].removed && s.stops[k].returned
    ensures !(s.worker.Calling? && s.worker.id == s.stops[k].id)
    ensures forall p :: 0 <= p < |s.slots| && s.slots[p].watching ==> s.slots[p].watch.id != s.stops[k].id
  {
    InvHolds(run);
    assert StopOk(s, s.stops[k]);
    hide After;
  }

  /** The waiting stopper is woken by the handler's return: it waits only while the worker is in a
      handler of its pin. */
  lemma StopperWaitsForTheHandler(run: Run, s: State, k: nat)
    requires s == After(run) && k < |s.stops| && s.stops[k].removed && s.arming.None?
    ensures Enabled(s, Caller(StopReturns(k))) <==> !(s.worker.Calling? && s.worker.pin == s.stops[k].pin)
    ensures Enabled(s, Caller(StopReturns(k))) ==>
      var r := Do(s, Caller(StopReturns(k)));
      r == s.(stops := r.stops) && k < |r.stops| && r.stops[k].returned
  {
    InvHolds(run);
    assert StopOk(s, s.stops[k]);
    hide After;
  }

  /** Within one watch, what was delivered is what the samples call for. */
  lemma EventsAreTheSamplesThatMatch(run: Run, s: State, p: nat)
    requires s == After(run) && p < |s.slots|
    ensures var w := s.slots[p].watch;
      && w.events == Events(w.edge, w.initial, w.samples)
      && (w.edge == Both ==>
            && (w.events != [] ==> w.events[0] != w.initial)
            && (forall i :: 0 < i < |w.events| ==> w.events[i] != w.events[i - 1])
            && (s.slots[p].watching ==> s.slots[p].lastLevel == Last(w.initial, w.events)))
  {
    InvHolds(run);
    assert SlotOk(s.slots[p]);
    hide After;
    BothEdgesAlternate(s.slots[p].watch.initial, s.slots[p].watch.samples);
  }

  /** Within one watch, every sample is at least a debounce time later than the one before, and the
      first one than the start of the watch. So a pin that chatters, however fast, does not call its
      handler more often than once in a debounce time. */
  lemma SamplesAreDebounced(run: Run, s: State, p: nat)
    requires s == After(run) && p < |s.slots|
    ensures var w := s.slots[p].watch;
      && |w.sampledAt| == |w.samples|
      && Spaced(w.startedAt, w.sampledAt, s.slots[p].debounce)
      && |w.events| * s.slots[p].debounce <= s.now - w.startedAt
  {
    hide After;
    InvHolds(run);
    assert SlotOk(s.slots[p]) && TimesOk(s.slots[p], s.now);
    var w := s.slots[p].watch;
    NoMoreEventsThanSamples(w.edge, w.initial, w.samples);
    TimeGoesBy(w.startedAt, w.sampledAt, s.slots[p].debounce);
    MoreTakesLonger(|w.events|, |w.samples|, s.slots[p].debounce);
  }

  lemma {:induction false} NoMoreEventsThanSamples(edge: Edge, initial: Level, samples: seq<Level>)
    ensures |Events(edge, initial, samples)| <= |samples|
  {
    if samples != [] { NoMoreEventsThanSamples(edge, initial, samples[..|samples| - 1]); }
  }

  lemma MoreTakesLonger(m: nat, n: nat, each: nat)
    requires m <= n
    ensures m * each <= n * each
  {
  }

  lemma {:induction false} TimeGoesBy(start: nat, times: seq<nat>, gap: nat)
    requires Spaced(start, times, gap)
    ensures start + |times| * gap <= if times == [] then start else times[|times| - 1]
  {
    if times != [] {
      TimeGoesBy(start, times[..|times| - 1], gap);
      assert |times| * gap == (|times| - 1) * gap + gap;
    }
  }

  /** When nothing of a pin is outstanding, a handler that watches both edges knows the level the pin
      shows now if and only if the pin did not change while its trigger was not yet enabled. */
  lemma QuietMeansCurrent(run: Run, s: State, p: nat)
    requires s == After(run) && p < |s.slots| && s.slots[p].armed && s.slots[p].watch.edge == Both
    requires !Outstanding(s, p)
    ensures p < |s.levels|
    ensures Last(s.slots[p].watch.initial, s.slots[p].watch.events) == s.levels[p] <==> !s.slots[p].watch.missed
  {
    InvHolds(run);
    assert SlotOk(s.slots[p]) && CaughtOk(s, p);
    hide After;
    BothEdgesAlternate(s.slots[p].watch.initial, s.slots[p].watch.samples);
  }

  /** With any edges watched: when nothing of a pin is outstanding and it did not change too early, the
      pin does not show an edge that its handler was to hear of since the last sample. */
  lemma NoEdgeIsOverlooked(run: Run, s: State, p: nat)
    requires s == After(run) && p < |s.slots| && s.slots[p].armed
    requires !Outstanding(s, p) && !s.slots[p].watch.missed
    ensures p < |s.levels|
    ensures !EdgeMatches(s.slots[p].watch.edge, Last(s.slots[p].watch.initial, s.slots[p].watch.samples), s.levels[p])
  {
    InvHolds(run);
    assert SlotOk(s.slots[p]) && CaughtOk(s, p);
    hide After;
  }

  /** Outside its wait the worker always has its next step, but for a Watch call that holds the lock; in
      particular every handler call can be left. */
  lemma WorkerIsNeverStuck(run: Run, s: State)
    requires s == After(run) && s.arming.None? && !s.worker.Waiting?
    ensures Enabled(s, Worker(match s.worker
                              case Looping => Collect
                              case Scanning(_) => Scan
                              case Calling(_, _) => HandlerReturns
                              case _ => Plan))
  {
    InvHolds(run);
    hide After;
  }

  /** The worker does not sleep on work: a pending pin bounds its wait, and behind a raised interrupt
      there is a release that ends it. */
  lemma WorkerWakesUp(run: Run, s: State)
    requires s == After(run) && s.worker.Waiting?
    ensures forall p :: 0 <= p < |s.slots| && s.slots[p].pending && s.slots[p].due <= s.now ==>
      Enabled(s, Worker(TimeOut))
    ensures s.raised != {} ==> Enabled(s, Worker(Wake)) || Enabled(s, Interrupt(ReleaseSem))
  {
    InvHolds(run);
    forall p | 0 <= p < |s.slots| && s.slots[p].pending && s.slots[p].due <= s.now
      ensures Enabled(s, Worker(TimeOut))
    {
      assert SlotOk(s.slots[p]);
    }
    hide After;
  }

  // ---- what does not hold -----------------------------------------------------------------------

  /** One more step at the end of a run. */
  lemma Extend(run: Run, step: Step, s: State, r: State)
    requires s == After(run) && Enabled(s, step) && r == Do(s, step)
    ensures r == After(Then(run, step))
  {
  }

  /** A pin is watched, shows an edge, and the worker gets into the handler. */
  function Called(levels: seq<Level>): Run {
    var watched := Then(Then(Start(levels), Caller(StartWatch(0, Both, 0))), Caller(Arm));
    var raised := Then(Then(watched, Hardware(Change(0, High))), Interrupt(Raise));
    Then(Then(raised, Worker(Collect)), Worker(Scan))
  }

  lemma CalledEffect(levels: seq<Level>, s: State)
    requires levels == [Low] && s == After(Called(levels))
    ensures |s.slots| == 1 && s.slots[0].watching && s.slots[0].watch.id == 0 && s.arming.None?
    ensures s.worker == Calling(0, 0) && s.stops == []
  {
    var run := Start(levels);
    var i := Initial(levels);
    assert i == After(run);
    hide After;
    var watch := Watch(0, Both, Low, [], [], 0, [], 0, false);
    var slot := Slot(true, false, false, 0, 0, Low, 0, watch);
    var s1 := i.(slots := [slot], owners := [0], arming := Some(0));
    assert i.slots[0 := slot] == [slot];
    Extend(run, Caller(StartWatch(0, Both, 0)), i, s1);
    var r1 := Then(run, Caller(StartWatch(0, Both, 0)));
    var armed := slot.(armed := true);
    var s2 := s1.(slots := [armed], arming := None);
    assert s1.slots[0 := armed] == [armed];
    Extend(r1, Caller(Arm), s1, s2);
    var r2 := Then(r1, Caller(Arm));
    var s3 := s2.(levels := [High], latched := {0});
    assert s2.levels[0 := High] == [High];
    Extend(r2, Hardware(Change(0, High)), s2, s3);
    var r3 := Then(r2, Hardware(Change(0, High)));
    assert 0 in Hits(s3);
    assert Hits(s3) == {0};
    var s4 := s3.(latched := {}, raised := {0}, owed := 1);
    assert s3.latched - {0} == {};
    Extend(r3, Interrupt(Raise), s3, s4);
    var r4 := Then(r3, Interrupt(Raise));
    var pending := armed.(pending := true);
    var s5 := s4.(slots := [pending], raised := {}, worker := Scanning(0));
    assert seq(|s4.slots|, p requires 0 <= p < |s4.slots| => CollectedSlot(s4.slots[p], p in s4.raised, s4.now))
        == [pending];
    Extend(r4, Worker(Collect), s4, s5);
    var sampled := SampledSlot(pending, High, s5.now);
    assert s5.slots[0 := sampled] == [sampled];
    var s6 := s5.(slots := [sampled], worker := Calling(0, 0));
    Extend(Then(r4, Worker(Collect)), Worker(Scan), s5, s6);
  }

  /** Only the call that removes the watch waits: a second StopWatching of the same pin returns at
      once, while the handler it was meant to stop is still running. */
  lemma SecondStopReturnsEarly(levels: seq<Level>)
    requires levels == [Low]
    ensures var s := After(Then(Then(Called(levels), Caller(Stop(0))), Caller(Stop(0))));
      && |s.stops| == 2
      && s.stops[0].removed && !s.stops[0].returned
      && !s.stops[1].removed && s.stops[1].returned && s.stops[1].id == 0
      && s.worker == Calling(0, 0)
  {
    var run, s := Called(levels), After(Called(levels));
    CalledEffect(levels, s);
    hide After, Called;
    var s1 := Do(s, Caller(Stop(0)));
    Extend(run, Caller(Stop(0)), s, s1);
    var s2 := Do(s1, Caller(Stop(0)));
    Extend(Then(run, Caller(Stop(0))), Caller(Stop(0)), s1, s2);
  }

  /** When a StopWatching call is no barrier: it returns at once with the worker in a handler of its
      pin if and only if it finds the pin unwatched while a dispatch of it has not finished. */
  lemma StopReturnsEarlyExactly(run: Run, s: State, p: nat)
    requires s == After(run) && Enabled(s, Caller(Stop(p)))
    ensures var r := Do(s, Caller(Stop(p)));
      r.stops[|r.stops| - 1].returned && r.worker.Calling? && r.worker.pin == p
      <==> !s.slots[p].watching && s.slots[p].dispatching > 0
  {
    hide After;
    InvHolds(run);
  }

  /** A pin that changes between the read of its level and the enabling of its trigger. */
  function Unarmed(levels: seq<Level>): Run {
    var started := Then(Start(levels), Caller(StartWatch(0, Both, 0)));
    Then(Then(started, Hardware(Change(0, High))), Caller(Arm))
  }

  /** That change is lost: the pin shows another level than the handler knows, and nothing of it is
      outstanding. */
  lemma EarlyChangeIsLost(levels: seq<Level>)
    requires levels == [Low]
    ensures var s := After(Unarmed(levels));
      && |s.slots| == 1 && s.slots[0].armed && s.slots[0].watch.missed && !Outstanding(s, 0)
      && s.levels == [High] && s.slots[0].lastLevel == Low && s.slots[0].watch.events == []
  {
    var run := Start(levels);
    var i := Initial(levels);
    assert i == After(run);
    hide After;
    var s1 := Do(i, Caller(StartWatch(0, Both, 0)));
    Extend(run, Caller(StartWatch(0, Both, 0)), i, s1);
    var r1 := Then(run, Caller(StartWatch(0, Both, 0)));
    var s2 := Do(s1, Hardware(Change(0, High)));
    Extend(r1, Hardware(Change(0, High)), s1, s2);
    var s3 := Do(s2, Caller(Arm));
    Extend(Then(r1, Hardware(Change(0, High))), Caller(Arm), s2, s3);
  }
}
