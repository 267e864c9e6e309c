/** Which samples of a watched pin become events (BayTrailRegisters.h, BayTrailController.cpp). */
module GpioEvents {

  datatype Level = Low | High

  datatype Edge = Rising | Falling | Both

  predicate EdgeMatches(edge: Edge, before: Level, after: Level) {
    if before == after then false
    else if before == Low && after == High then edge == Rising || edge == Both
    else edge == Falling || edge == Both
  }

  /** The level after a list of samples, starting from `initial`. */
  function Last(initial: Level, samples: seq<Level>): Level {
    if samples == [] then initial else samples[|samples| - 1]
  }

  /** The events of one watch: the samples that differ from the one before in the watched sense. */
  function Events(edge: Edge, initial: Level, samples: seq<Level>): seq<Level> {
    if samples == [] then []
    else
      var n := |samples| - 1;
      Events(edge, initial, samples[..n])
      + if EdgeMatches(edge, Last(initial, samples[..n]), samples[n]) then [samples[n]] else []
  }

  /** With both edges watched the events alternate, the first one differs from the level at the
      start of the watch, and the handler's last news is always the last sample. */
  lemma {:induction false} BothEdgesAlternate(initial: Level, samples: seq<Level>)
    ensures var events := Events(Both, initial, samples);
      && (events != [] ==> events[0] != initial)
      && (forall i :: 0 < i < |events| ==> events[i] != events[i - 1])
      && Last(initial, events) == Last(initial, samples)
  {
    if samples != [] {
      BothEdgesAlternate(initial, samples[..|samples| - 1]);
    }
  }

  /** With one edge watched every event shows the level after that edge. */
  lemma {:induction false} OneEdgeShowsItsLevel(edge: Edge, initial: Level, samples: seq<Level>)
    requires edge != Both
    ensures forall i :: 0 <= i < |Events(edge, initial, samples)| ==>
      Events(edge, initial, samples)[i] == if edge == Rising then High else Low
  {
    if samples != [] {
      OneEdgeShowsItsLevel(edge, initial, samples[..|samples| - 1]);
    }
  }

  /** With one edge watched, samples that all show the level after that edge give one event at most,
      however many edges caused them: a second event needs a sample of the other level between. */
  lemma {:induction false} OneEdgeFiresOnce(edge: Edge, initial: Level, samples: seq<Level>, shown: Level)
    requires edge != Both && shown == (if edge == Rising then High else Low)
    requires forall i :: 0 <= i < |samples| ==> samples[i] == shown
    ensures Events(edge, initial, samples) == if samples != [] && initial != shown then [shown] else []
  {
    if samples != [] {
      OneEdgeFiresOnce(edge, initial, samples[..|samples| - 1], shown);
    }
  }
}
