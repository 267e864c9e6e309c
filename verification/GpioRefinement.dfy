/** The machine of `GpioProtocol` takes the steps of the class of `GpioController`: seen through the
    slots the class keeps, every lock-protected step has the effect its method promises. */
module GpioRefinement {
  import opened GpioEvents
  import C = GpioController
  import opened GpioProtocol

  /** The slot the class keeps for a slot of the machine. */
  function Kept(slot: Slot): C.Slot {
    C.Slot(slot.watching, slot.pending, slot.due, slot.watch.edge, slot.debounce, slot.lastLevel, slot.dispatching)
  }

  function KeptAll(slots: seq<Slot>): (kept: seq<C.Slot>)
    ensures |kept| == |slots| && forall p :: 0 <= p < |slots| ==> kept[p] == Kept(slots[p])
  {
    seq(|slots|, p requires 0 <= p < |slots| => Kept(slots[p]))
  }

  function Watched(slots: seq<Slot>): set<nat> { set p: nat | p < |slots| && slots[p].watching }

  lemma KeptUpdate(slots: seq<Slot>, pin: nat, slot: Slot)
    requires pin < |slots|
    ensures KeptAll(slots[pin := slot]) == KeptAll(slots)[pin := Kept(slot)]
  {
  }

  /** StartWatch does to the slots and to the latched bits what a successful Watch does. */
  lemma StartWatchRefines(s: State, pin: nat, edge: Edge, debounce: nat)
    requires CallerCan(s, StartWatch(pin, edge, debounce))
    ensures var r := CallerDo(s, StartWatch(pin, edge, debounce));
      && KeptAll(r.slots)
           == KeptAll(s.slots)[pin := C.Installed(Kept(s.slots[pin]), edge, debounce, s.levels[pin])]
      && Watched(r.slots) == Watched(s.slots) + {pin}
      && r.latched == s.latched - {pin} && r.raised == s.raised
  {
    var r := CallerDo(s, StartWatch(pin, edge, debounce));
    KeptUpdate(s.slots, pin, r.slots[pin]);
  }

  /** Stop and StopInHandler do what RemoveWatch does, and keep the call to themselves if there was no
      watch. */
  lemma StopRefines(s: State, move: CallerMove)
    requires (move.Stop? || move.StopInHandler?) && CallerCan(s, move)
    ensures var r, pin := CallerDo(s, move), move.pin;
      if s.slots[pin].watching then
        && KeptAll(r.slots) == KeptAll(s.slots)[pin := C.Removed(Kept(s.slots[pin]))]
        && Watched(r.slots) == Watched(s.slots) - {pin}
        && r.latched == s.latched - {pin} && r.raised == s.raised
      else r == s.(stops := r.stops)
  {
    KeptUpdate(s.slots, move.pin, Removed(s.slots[move.pin]));
  }

  /** The return of a handler is FinishDispatch, and the pins are looked at from the first one again. */
  lemma ReturnRefines(s: State)
    requires WorkerCan(s, HandlerReturns)
    ensures var r, pin := WorkerDo(s, HandlerReturns), s.worker.pin;
      && KeptAll(r.slots) == KeptAll(s.slots)[pin := C.Dispatched(Kept(s.slots[pin]))]
      && r == s.(slots := r.slots, worker := Scanning(0))
  {
    KeptUpdate(s.slots, s.worker.pin, s.slots[s.worker.pin].(dispatching := s.slots[s.worker.pin].dispatching - 1));
  }

  /** Raise is HandleInterrupt, and is enabled when that returns true. */
  lemma RaiseRefines(s: State)
    ensures InterruptCan(s, Raise) <==> s.latched * Watched(s.slots) != {}
    ensures InterruptCan(s, Raise) ==>
      var r := InterruptDo(s, Raise);
      && r.raised == s.raised + s.latched * Watched(s.slots)
      && r.latched == s.latched - Watched(s.slots)
      && r.slots == s.slots
  {
    assert Hits(s) == s.latched * Watched(s.slots);
  }

  /** Collect is CollectPending. */
  lemma CollectRefines(s: State)
    requires WorkerCan(s, Collect)
    ensures var r := WorkerDo(s, Collect);
      r.raised == {} && C.IsCollected(KeptAll(s.slots), KeptAll(r.slots), s.raised, s.now)
  {
  }

  /** Plan waits for what NextDeadline answers. */
  lemma PlanRefines(s: State)
    requires WorkerCan(s, Plan)
    ensures var deadline := WorkerDo(s, Plan).worker.deadline;
      C.IsDeadline(KeptAll(s.slots), if deadline.Some? then C.Some(deadline.value) else C.None)
  {
    DeadlineIsExact(s.slots, |s.slots|);
    assert KeptAll(s.slots) == KeptAll(s.slots)[..|s.slots|];
  }

  lemma {:induction false} DeadlineIsExact(slots: seq<Slot>, n: nat)
    requires n <= |slots|
    ensures var deadline := Deadline(slots, n);
      C.IsDeadline(KeptAll(slots)[..n], if deadline.Some? then C.Some(deadline.value) else C.None)
  {
    if n > 0 {
      DeadlineIsExact(slots, n - 1);
      var kept := KeptAll(slots);
      assert forall p :: 0 <= p < n - 1 ==> kept[..n - 1][p] == kept[..n][p];
      assert kept[..n][n - 1] == Kept(slots[n - 1]);
    }
  }

  /** The scan steps of the worker from here on, nothing else happening, until it is past the pins or
      in a handler. */
  function ScanOn(s: State): State
    requires |s.slots| == |s.levels|
    decreases if !s.worker.Scanning? then 0 else if s.worker.next < |s.slots| then |s.slots| - s.worker.next + 1 else 1
  {
    if s.worker.Scanning? && WorkerCan(s, Scan) then ScanOn(WorkerDo(s, Scan)) else s
  }

  /** What the scan found, as the method answers it. */
  function Found(r: State): C.Option<C.Due> {
    if r.worker.Calling? && r.worker.pin < |r.levels| then C.Some(C.Due(r.worker.pin, r.levels[r.worker.pin]))
    else C.None
  }

  /** The scan steps taken together, with the lock held all along, are ScanDue. */
  lemma ScanRefines(s: State)
    requires s.arming.None? && s.worker == Scanning(0) && |s.slots| == |s.levels|
    ensures var r := ScanOn(s);
      && (r.worker == Planning || r.worker.Calling?)
      && r == s.(slots := r.slots, worker := r.worker)
      && C.IsScanned(KeptAll(s.slots), KeptAll(r.slots), s.levels, s.now, Found(r))
  {
    ScanFrom(s, s);
  }

  /** The pins before `n` have been passed without an event, the others not been looked at. */
  ghost predicate PassedUpTo(s: State, t: State, n: nat) {
    && |t.slots| == |s.slots| == |s.levels| && n <= |s.slots|
    && (forall p :: 0 <= p < n ==>
          !C.Fires(Kept(s.slots[p]), s.levels[p], s.now)
          && Kept(t.slots[p]) == C.Passed(Kept(s.slots[p]), s.levels[p], s.now))
    && (forall p :: n <= p < |s.slots| ==> t.slots[p] == s.slots[p])
    && t == s.(slots := t.slots, worker := t.worker)
  }

  lemma {:induction false} ScanFrom(s: State, t: State)
    requires s.arming.None? && t.worker.Scanning? && PassedUpTo(s, t, t.worker.next)
    ensures var r := ScanOn(t);
      && (r.worker == Planning || r.worker.Calling?)
      && r == s.(slots := r.slots, worker := r.worker)
      && C.IsScanned(KeptAll(s.slots), KeptAll(r.slots), s.levels, s.now, Found(r))
    decreases |t.slots| - t.worker.next
  {
    hide EdgeMatches, Watched;
    var next := WorkerDo(t, Scan);
    if next.worker.Scanning? {
      ScanFrom(s, next);
    }
  }

  // ---- no due pin is passed over ---------------------------------------------------------------

  /** The scan from pin `next` on samples every due pin it comes to: afterwards the pin is not pending
      and its watch has one sample more, the level it shows; only a handler called for an earlier pin
      comes first, and after it the scan starts again. */
  lemma {:induction false} DueIsSampled(s: State, p: nat)
    requires s.arming.None? && s.worker.Scanning? && |s.slots| == |s.levels|
    requires s.worker.next <= p < |s.slots| && IsDue(s.slots[p], s.now)
    ensures var r := ScanOn(s);
      && |r.slots| == |s.slots|
      && (|| (r.worker.Calling? && r.worker.pin < p && r.slots[p] == s.slots[p])
          || (&& !r.slots[p].pending
              && r.slots[p].watch.samples == s.slots[p].watch.samples + [s.levels[p]]))
    decreases |s.slots| - s.worker.next
  {
    hide EdgeMatches;
    var next := WorkerDo(s, Scan);
    if next.worker.Scanning? {
      if s.worker.next < p { DueIsSampled(next, p); } else { PassedIsLeft(next, p); }
    }
  }

  /** What the scan has passed it does not touch again. */
  lemma {:induction false} PassedIsLeft(s: State, p: nat)
    requires s.arming.None? && s.worker.Scanning? && |s.slots| == |s.levels|
    requires p < |s.slots| && p < s.worker.next
    ensures |ScanOn(s).slots| == |s.slots| && ScanOn(s).slots[p] == s.slots[p]
    decreases if s.worker.next < |s.slots| then |s.slots| - s.worker.next + 1 else 1
  {
    hide EdgeMatches;
    var next := WorkerDo(s, Scan);
    if next.worker.Scanning? { PassedIsLeft(next, p); }
  }

  /** A scan that gets past all pins leaves none of them due. */
  lemma ScanLeavesNothingDue(s: State, p: nat)
    requires s.arming.None? && s.worker == Scanning(0) && |s.slots| == |s.levels| && p < |s.slots|
    ensures ScanOn(s).worker == Planning ==> |ScanOn(s).slots| == |s.slots| && !IsDue(ScanOn(s).slots[p], s.now)
  {
    ScanRefines(s);
    var r := ScanOn(s);
    if r.worker == Planning {
      assert Kept(r.slots[p]) == C.Passed(Kept(s.slots[p]), s.levels[p], s.now) by {
        assert KeptAll(r.slots)[p] == C.Passed(KeptAll(s.slots)[p], s.levels[p], s.now);
      }
    }
    hide ScanOn;
  }
}
