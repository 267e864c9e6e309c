/** The loops of the GPIO interrupt path over words and pins (BayTrailController.cpp). A status
    word or a software word is the set of its pins. */
module GpioController {
  import opened GpioEvents

  datatype Option<+T> = None | Some(value: T)

  const PINS_PER_WORD: nat := 32
  const MAXIMUM_DEBOUNCE: int := 5_000_000

  datatype Slot = Slot(
    watching: bool,
    pending: bool,
    due: int,
    edge: Edge,
    debounce: int,
    lastLevel: Level,
    dispatching: nat)

  datatype Status = B_OK | B_BAD_VALUE | B_NOT_ALLOWED | B_BUSY | B_NOT_SUPPORTED

  datatype Due = Due(pin: nat, level: Level)

  /** A pin whose interrupt is collected at `now` becomes due after its debounce time. */
  function Collected(slot: Slot, raised: bool, now: int): Slot {
    if raised && slot.watching then slot.(pending := true, due := now + slot.debounce) else slot
  }

  predicate IsDue(slot: Slot, now: int) { slot.watching && slot.pending && slot.due <= now }

  /** A due pin is sampled once. */
  function Sampled(slot: Slot, level: Level): Slot { slot.(pending := false, lastLevel := level) }

  predicate Fires(slot: Slot, level: Level, now: int) {
    IsDue(slot, now) && EdgeMatches(slot.edge, slot.lastLevel, level)
  }

  /** A slot after the scan has gone past it without an event. */
  function Passed(slot: Slot, level: Level, now: int): Slot {
    if IsDue(slot, now) then Sampled(slot, level) else slot
  }

  /** A slot with a new watch; `level` is what the pin showed when it was installed. */
  function Installed(slot: Slot, edge: Edge, debounce: int, level: Level): Slot {
    Slot(true, false, slot.due, edge, debounce, level, slot.dispatching)
  }

  function Removed(slot: Slot): Slot { slot.(watching := false, pending := false) }

  /** A slot whose handler has returned. */
  function Dispatched(slot: Slot): Slot
    requires slot.dispatching > 0
  {
    slot.(dispatching := slot.dispatching - 1)
  }

  /** What _CollectPending leaves of the slots. */
  ghost predicate IsCollected(before: seq<Slot>, after: seq<Slot>, raised: set<nat>, now: int) {
    |after| == |before| && forall p: nat :: p < |before| ==> after[p] == Collected(before[p], p in raised, now)
  }

  /** What the locked scan leaves of the slots, if the pins showed `levels`: the due pins were sampled
      in order up to the first one that has an event. */
  ghost predicate IsScanned(before: seq<Slot>, after: seq<Slot>, levels: seq<Level>, now: int, found: Option<Due>) {
    var stop := if found.Some? then found.value.pin else |before|;
    && |after| == |levels| == |before| && stop <= |before|
    && (forall p :: 0 <= p < stop ==> !Fires(before[p], levels[p], now))
    && (forall p :: 0 <= p < stop ==> after[p] == Passed(before[p], levels[p], now))
    && (forall p :: stop < p < |before| ==> after[p] == before[p])
    && (found.Some? ==>
          && stop < |before| && Fires(before[stop], levels[stop], now) && found.value.level == levels[stop]
          && after[stop] == Sampled(before[stop], levels[stop]).(dispatching := before[stop].dispatching + 1))
  }

  /** One look at a pin's level. */
  datatype Reading = Reading(pin: nat, level: Level)

  /** The looks of a scan over the first `n` pins: one at every due pin, in order. */
  function DueReadings(slots: seq<Slot>, levels: seq<Level>, now: int, n: nat): seq<Reading>
    requires n <= |slots| == |levels|
  {
    if n == 0 then []
    else
      DueReadings(slots, levels, now, n - 1)
      + if IsDue(slots[n - 1], now) then [Reading(n - 1, levels[n - 1])] else []
  }

  predicate IsPending(slot: Slot) { slot.watching && slot.pending }

  /** `deadline` is the least due time of a pending watched pin, or none if there is no such pin. */
  ghost predicate IsDeadline(slots: seq<Slot>, deadline: Option<int>) {
    && (deadline.None? <==> forall p :: 0 <= p < |slots| ==> !IsPending(slots[p]))
    && (deadline.Some? ==>
          && (exists p :: 0 <= p < |slots| && IsPending(slots[p]) && slots[p].due == deadline.value)
          && (forall p :: 0 <= p < |slots| && IsPending(slots[p]) ==> deadline.value <= slots[p].due))
  }

  class Controller {
    const pinCount: nat
    /** The pins whose configuration register, and whose value register, lie in the mapped window. */
    const configurable: set<nat>
    const readable: set<nat>
    var slots: seq<Slot>
    /** Pins claimed by a driver, and pins wired to a direct interrupt by the firmware. */
    var claimed: set<nat>
    var direct: set<nat>
    /** The trigger bits of each pad. */
    var triggers: map<nat, Edge>
    var watched: set<nat>
    var raised: set<nat>
    /** The hardware's interrupt status bits. */
    var status: set<nat>
    /** What the pins have shown. */
    ghost var readings: seq<Reading>

    ghost predicate Valid()
      reads this
    {
      && |slots| == pinCount
      && (forall p :: p in raised || p in status ==> p < WordCount() * PINS_PER_WORD)
      && (forall p: nat :: p in watched <==> p < pinCount && slots[p].watching)
      && watched <= readable
    }

    function WordCount(): nat { (pinCount + 31) / 32 }

    constructor (pinCount: nat, configurable: set<nat>, readable: set<nat>)
      ensures Valid() && this.pinCount == pinCount
      ensures this.configurable == configurable && this.readable == readable
      ensures watched == {} && raised == {} && status == {}
      ensures claimed == {} && direct == {} && triggers == map[]
      ensures forall p :: 0 <= p < pinCount ==> !slots[p].watching && !slots[p].pending && slots[p].dispatching == 0
    {
      this.pinCount, this.configurable, this.readable := pinCount, configurable, readable;
      slots := seq(pinCount, i => Slot(false, false, 0, Rising, 0, Low, 0));
      watched, raised, status := {}, {}, {};
      claimed, direct, triggers, readings := {}, {}, map[], [];
    }

    /** _ReadLevelLocked of a pin whose register is mapped. */
    method ReadLevel(pin: nat) returns (level: Level)
      modifies this`readings
      ensures readings == old(readings) + [Reading(pin, level)]
    {
      level := *;
      readings := readings + [Reading(pin, level)];
    }

    /** The pin is mapped and may be watched with these arguments. */
    predicate Watchable(pin: nat, debounce: int, haveHandler: bool)
      reads this
    {
      haveHandler && 0 <= debounce <= MAXIMUM_DEBOUNCE && pin < pinCount && pin in claimed
    }

    /** Watch: the level read here is the one the first event is compared with, the trigger is
        enabled last, and an interrupt raised for an earlier watch stays raised. */
    method Watch(pin: nat, edge: Edge, debounce: int, haveHandler: bool) returns (result: Status, ghost level: Level)
      requires Valid()
      modifies this`slots, this`watched, this`status, this`triggers, this`readings
      ensures Valid()
      ensures result == B_OK <==>
        old(Watchable(pin, debounce, haveHandler) && !slots[pin].watching
            && pin in configurable && pin !in direct && pin in readable)
      ensures result == B_NOT_ALLOWED <==>
        haveHandler && 0 <= debounce <= MAXIMUM_DEBOUNCE && (pin >= pinCount || pin !in claimed)
      ensures result == B_BUSY <==> old(Watchable(pin, debounce, haveHandler) && slots[pin].watching)
      ensures result == B_NOT_SUPPORTED <==>
        old(Watchable(pin, debounce, haveHandler) && !slots[pin].watching && pin in configurable && pin in direct)
      ensures result in {B_OK, B_NOT_ALLOWED, B_BUSY, B_NOT_SUPPORTED, B_BAD_VALUE}
      ensures readings == old(readings) + if result == B_OK then [Reading(pin, level)] else []
      ensures result != B_OK ==>
        slots == old(slots) && watched == old(watched) && status == old(status) && triggers == old(triggers)
      ensures result == B_OK ==>
        && pin < pinCount && pin in claimed && !old(slots)[pin].watching
        && slots == old(slots)[pin := Installed(old(slots)[pin], edge, debounce, level)]
        && watched == old(watched) + {pin} && status == old(status) - {pin}
        && triggers == old(triggers)[pin := edge]
    {
      level := Low;
      if !haveHandler || debounce < 0 || debounce > MAXIMUM_DEBOUNCE { return B_BAD_VALUE, level; }
      if pin >= pinCount || pin !in claimed { return B_NOT_ALLOWED, level; }
      if slots[pin].watching { return B_BUSY, level; }
      if pin !in configurable { return B_BAD_VALUE, level; }
      if pin in direct { return B_NOT_SUPPORTED, level; }
      if pin !in readable { return B_BAD_VALUE, level; }
      var read := ReadLevel(pin);
      level := read;
      triggers := triggers - {pin};
      status := status - {pin};
      slots := slots[pin := slots[pin].(edge := edge, debounce := debounce, lastLevel := read, pending := false,
                                        watching := true)];
      watched := watched + {pin};
      triggers := triggers[pin := edge];
      return B_OK, level;
    }

    /** The part of StopWatching before its wait. `removed` says whether there was a watch; without
        one the call returns at once. */
    method RemoveWatch(pin: nat) returns (removed: bool)
      requires Valid()
      modifies this`slots, this`watched, this`status, this`triggers
      ensures Valid() && removed == (pin < pinCount && old(slots)[pin].watching)
      ensures !removed ==>
        slots == old(slots) && watched == old(watched) && status == old(status) && triggers == old(triggers)
      ensures removed ==>
        && slots == old(slots)[pin := Removed(old(slots)[pin])]
        && watched == old(watched) - {pin} && status == old(status) - {pin}
        && triggers == (if pin in direct then old(triggers) else old(triggers) - {pin})
    {
      if pin >= pinCount || !slots[pin].watching { return false; }
      if pin !in direct { triggers := triggers - {pin}; }
      watched := watched - {pin};
      status := status - {pin};
      slots := slots[pin := slots[pin].(watching := false, pending := false)];
      return true;
    }

    /** The interrupt handler takes over exactly the latched bits of watched pins. */
    method HandleInterrupt() returns (handled: bool)
      requires Valid()
      modifies this`raised, this`status
      ensures Valid()
      ensures raised == old(raised) + old(status) * watched
      ensures status == old(status) - watched
      ensures handled <==> old(status) * watched != {}
    {
      handled := false;
      for word := 0 to WordCount()
        invariant raised == old(raised) + set p | p in old(status) * watched && p < word * PINS_PER_WORD
        invariant status == old(status) - set p | p in old(status) * watched && p < word * PINS_PER_WORD
        invariant handled <==> exists p :: p in old(status) * watched && p < word * PINS_PER_WORD
      {
        var pending := set p | p in status && p in watched && word * PINS_PER_WORD <= p < (word + 1) * PINS_PER_WORD;
        if pending == {} {
          assert forall p :: p in old(status) * watched && p < (word + 1) * PINS_PER_WORD ==>
            p < word * PINS_PER_WORD || p in pending;
          continue;
        }
        var some :| some in pending;
        assert some in old(status) * watched && some < (word + 1) * PINS_PER_WORD;
        status := status - pending;
        raised := raised + pending;
        handled := true;
      }
    }

    /** _CollectPending: every raised pin that is watched becomes due after its debounce time. */
    method CollectPending(now: int)
      requires Valid()
      modifies this`raised, this`slots
      ensures Valid() && raised == {} && IsCollected(old(slots), slots, old(raised), now)
    {
      for word := 0 to WordCount()
        invariant |slots| == pinCount
        invariant raised == set p | p in old(raised) && p >= word * PINS_PER_WORD
        invariant forall p :: 0 <= p < pinCount ==>
          slots[p] == Collected(old(slots)[p], p in old(raised) && p < word * PINS_PER_WORD, now)
      {
        var pending := set p | p in raised && p < (word + 1) * PINS_PER_WORD;
        raised := raised - pending;
        CollectWord(word, pending, now);
      }
    }

    method CollectWord(word: nat, pending: set<nat>, now: int)
      requires |slots| == pinCount
      requires forall p :: p in pending ==> word * PINS_PER_WORD <= p < (word + 1) * PINS_PER_WORD
      modifies this`slots
      ensures |slots| == pinCount
      ensures forall p :: 0 <= p < pinCount ==> slots[p] == Collected(old(slots)[p], p in pending, now)
    {
      for bit := 0 to PINS_PER_WORD
        invariant |slots| == pinCount
        invariant forall p :: 0 <= p < pinCount ==>
          slots[p] == Collected(old(slots)[p], p in pending && p < word * PINS_PER_WORD + bit, now)
      {
        var pin := word * PINS_PER_WORD + bit;
        if pin !in pending || pin >= pinCount { continue; }
        if !slots[pin].watching { continue; }
        slots := slots[pin := slots[pin].(pending := true, due := now + slots[pin].debounce)];
      }
    }

    /** The locked scan of _DispatchDue: the due pins are sampled in order up to the first one that
        has an event. `levels` is what the pins showed when they were read. */
    method ScanDue(now: int) returns (found: Option<Due>, ghost levels: seq<Level>)
      requires Valid()
      modifies this`slots, this`readings
      ensures Valid() && IsScanned(old(slots), slots, levels, now, found)
      ensures readings == old(readings)
        + DueReadings(old(slots), levels, now, if found.Some? then found.value.pin + 1 else pinCount)
    {
      hide EdgeMatches, DueReadings;
      levels := seq(pinCount, i => Low);
      NextReading(slots, levels, now, 0);
      for pin := 0 to pinCount
        invariant |slots| == pinCount && |levels| == pinCount
        invariant forall p :: 0 <= p < pin ==> !Fires(old(slots)[p], levels[p], now)
        invariant forall p :: 0 <= p < pin ==> slots[p] == Passed(old(slots)[p], levels[p], now)
        invariant forall p :: pin <= p < pinCount ==> slots[p] == old(slots)[p]
        invariant readings == old(readings) + DueReadings(old(slots), levels, now, pin)
      {
        var slot := slots[pin];
        NextReading(old(slots), levels, now, pin);
        if !slot.watching || !slot.pending || slot.due > now { continue; }
        var level := ReadLevel(pin);
        SameReadings(old(slots), levels, pin, level, now);
        levels := levels[pin := level];
        NextReading(old(slots), levels, now, pin);
        slots := slots[pin := slot.(pending := false, lastLevel := level)];
        if !EdgeMatches(slot.edge, slot.lastLevel, level) { continue; }
        slots := slots[pin := slots[pin].(dispatching := slot.dispatching + 1)];
        return Some(Due(pin, level)), levels;
      }
      return None, levels;
    }

    /** The locked section behind a handler; `idle` wakes the calls that wait for the pin. */
    method FinishDispatch(pin: nat) returns (idle: bool)
      requires Valid() && pin < pinCount && slots[pin].dispatching > 0
      modifies this`slots
      ensures Valid() && slots == old(slots)[pin := Dispatched(old(slots)[pin])]
      ensures idle <==> slots[pin].dispatching == 0
    {
      slots := slots[pin := slots[pin].(dispatching := slots[pin].dispatching - 1)];
      idle := slots[pin].dispatching == 0;
    }

    lemma NextReading(before: seq<Slot>, levels: seq<Level>, now: int, pin: nat)
      requires pin <= |before| == |levels|
      ensures DueReadings(before, levels, now, 0) == []
      ensures pin < |before| ==>
        DueReadings(before, levels, now, pin + 1)
        == DueReadings(before, levels, now, pin) + if IsDue(before[pin], now) then [Reading(pin, levels[pin])] else []
    {
    }

    lemma SameReadings(before: seq<Slot>, levels: seq<Level>, pin: nat, level: Level, now: int)
      requires pin < |before| == |levels|
      ensures DueReadings(before, levels[pin := level], now, pin) == DueReadings(before, levels, now, pin)
    {
      EarlierReadings(before, levels, levels[pin := level], now, pin);
    }

    lemma {:induction false} EarlierReadings(before: seq<Slot>, a: seq<Level>, b: seq<Level>, now: int, n: nat)
      requires n <= |before| == |a| == |b| && a[..n] == b[..n]
      ensures DueReadings(before, a, now, n) == DueReadings(before, b, now, n)
    {
      if n > 0 {
        assert a[..n][..n - 1] == a[..n - 1] && b[..n][..n - 1] == b[..n - 1];
        assert a[n - 1] == a[..n][n - 1] && b[n - 1] == b[..n][n - 1];
        EarlierReadings(before, a, b, now, n - 1);
      }
    }

    /** _NextDeadline: the least due time of a pending watched pin, or none. */
    method NextDeadline() returns (deadline: Option<int>)
      requires Valid()
      ensures IsDeadline(slots, deadline)
    {
      deadline := None;
      for pin := 0 to pinCount
        invariant IsDeadline(slots[..pin], deadline)
      {
        var slot := slots[pin];
        if slot.watching && slot.pending && (deadline.None? || slot.due < deadline.value) {
          deadline := Some(slot.due);
        }
      }
    }
  }
}
