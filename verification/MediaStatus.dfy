/** The media epoch: a 32-bit word holding a generation and the online bit (MediaStatus.h). */
module MediaStatus {

  const WORD: int := 0x1_0000_0000
  /** Transitions after which the word repeats. */
  const PERIOD: int := 0x8000_0000

  datatype Status = B_OK | B_DEV_NO_MEDIA | B_DEV_MEDIA_CHANGED

  predicate Online(state: int) { state % 2 == 1 }

  function Bit(online: bool): int { if online then 1 else 0 }

  /** The word one transition later: the generation advances by one and wraps. */
  function NextState(oldState: int, online: bool): int {
    (oldState - oldState % 2 + 2) % WORD + Bit(online)
  }

  /** The word after `n` transitions from a tracker created online or offline. */
  function StateAt(createdOnline: bool, n: nat): int {
    (2 * n) % WORD + Bit((n % 2 == 0) == createdOnline)
  }

  lemma StateAtBit(createdOnline: bool, n: nat)
    ensures Online(StateAt(createdOnline, n)) <==> (n % 2 == 0) == createdOnline
    ensures 0 <= StateAt(createdOnline, n) < WORD
  {
    var high := (2 * n) % WORD;
    assert high % 2 == 0 by {
      var q := (2 * n) / WORD;
      assert high == 2 * (n - PERIOD * q);
    }
  }

  /** Changing the online bit is exactly one transition. */
  lemma NextIsOneTransition(createdOnline: bool, n: nat)
    ensures var s := StateAt(createdOnline, n);
      && NextState(s, !Online(s)) == StateAt(createdOnline, n + 1)
      && Online(StateAt(createdOnline, n + 1)) == !Online(s)
  {
    StateAtBit(createdOnline, n);
    StateAtBit(createdOnline, n + 1);
    Successor(n);
  }

  lemma Successor(n: nat)
    ensures var high := (2 * n) % WORD;
      high % 2 == 0 && (high + 2) % WORD == (2 * (n + 1)) % WORD
  {
    var q, r := n / PERIOD, n % PERIOD;
    assert 2 * n == WORD * q + 2 * r;
    assert (2 * n) % WORD == 2 * r;
    if r == PERIOD - 1 {
      assert 2 * (n + 1) == WORD * (q + 1);
    } else {
      assert 2 * (n + 1) == WORD * q + (2 * r + 2);
    }
  }

  /** The generation part of the word, without the online bit. */
  lemma Generation(createdOnline: bool, n: nat)
    ensures StateAt(createdOnline, n) / 2 == n % PERIOD
  {
    var q, r := n / PERIOD, n % PERIOD;
    assert 2 * n == WORD * q + 2 * r;
    assert (2 * n) % WORD == 2 * r;
  }

  /** Two moments show the same word if and only if a multiple of 2^31 transitions lies between. */
  lemma SameStateExactly(createdOnline: bool, i: nat, j: nat)
    requires i <= j
    ensures StateAt(createdOnline, i) == StateAt(createdOnline, j) <==> (j - i) % PERIOD == 0
  {
    Generation(createdOnline, i);
    Generation(createdOnline, j);
    StateAtBit(createdOnline, i);
    StateAtBit(createdOnline, j);
    SameRemainder(i, j);
    if (j - i) % PERIOD == 0 {
      SameParity(i, j);
    }
    hide StateAt;
  }

  lemma SameRemainder(i: nat, j: nat)
    requires i <= j
    ensures i % PERIOD == j % PERIOD <==> (j - i) % PERIOD == 0
  {
    var qi, qj := i / PERIOD, j / PERIOD;
    assert i == PERIOD * qi + i % PERIOD && j == PERIOD * qj + j % PERIOD;
    if i % PERIOD == j % PERIOD {
      assert j - i == PERIOD * (qj - qi);
    }
  }

  lemma SameParity(i: nat, j: nat)
    requires i <= j && (j - i) % PERIOD == 0
    ensures (i % 2 == 0) == (j % 2 == 0)
  {
    assert j == i + 2 * (0x4000_0000 * ((j - i) / PERIOD));
  }

  class MediaStatusTracker {
    const createdOnline: bool
    var state: int
    var changePending: bool
    /** How many transitions have happened. */
    ghost var transitions: nat
    /** How often other threads came in between, and the notification as they last left it. */
    ghost var visits: nat
    ghost var left: bool

    ghost predicate Valid()
      reads this
    {
      state == StateAt(createdOnline, transitions)
    }

    constructor (online: bool)
      ensures Valid() && createdOnline == online && transitions == 0 && !changePending
      ensures Online(state) == online
    {
      createdOnline := online;
      state := if online then 1 else 0;
      changePending := false;
      transitions, visits, left := 0, 0, false;
    }

    /** What other threads may do between two accesses: any number of transitions. */
    method Interfere()
      requires Valid()
      modifies this
      ensures Valid() && transitions >= old(transitions)
      ensures visits == old(visits) + 1 && left == changePending
    {
      hide StateAt, NextState, Online;
      visits := visits + 1;
      var n: nat := *;
      while n > 0
        invariant Valid() && transitions >= old(transitions) && visits == old(visits) + 1
      {
        NextIsOneTransition(createdOnline, transitions);
        state := NextState(state, !Online(state));
        transitions := transitions + 1;
        changePending := *;
        n := n - 1;
      }
      left := changePending;
    }

    /** The compare-and-swap loop; `moved` is true when this call made a transition itself. It raises
        the notification if it brought the medium online, and otherwise leaves it as it found it or as
        other threads left it. `patience` is how often those win the race for the word. */
    method SetOnline(online: bool) returns (ghost moved: bool)
      requires Valid()
      modifies this
      ensures Valid() && Online(state) == online
      ensures transitions >= old(transitions) + (if moved then 1 else 0)
      ensures changePending == ((moved && online) || if visits == old(visits) then old(changePending) else left)
      ensures visits == old(visits) ==>
        (moved <==> old(Online(state)) != online) && transitions == old(transitions) + (if moved then 1 else 0)
      ensures old(Online(state)) != online ==> transitions > old(transitions)
    {
      hide StateAt, NextState, Online;
      var patience: nat := *;
      while true
        invariant Valid() && transitions >= old(transitions)
        invariant transitions == old(transitions) ==> state == old(state)
        invariant visits >= old(visits)
        invariant changePending == if visits == old(visits) then old(changePending) else left
        invariant visits == old(visits) ==> transitions == old(transitions)
        decreases patience
      {
        var oldState := state;
        if Online(oldState) == online {
          return false;
        }
        var newState := NextState(oldState, online);
        if patience > 0 {
          Interfere();
          patience := patience - 1;
          if state != oldState { continue; }
        }
        NextIsOneTransition(createdOnline, transitions);
        state := newState;
        transitions := transitions + 1;
        if online { changePending := true; }
        return true;
      }
    }

    /** The one-shot notification: it is handed out at most once and leaves the epoch alone. */
    method ConsumeStatus() returns (status: Status)
      modifies this`changePending
      ensures !changePending
      ensures status == B_DEV_MEDIA_CHANGED <==> old(changePending) && Online(state)
      ensures status == B_DEV_NO_MEDIA <==> !Online(state)
    {
      var changed := changePending;
      changePending := false;
      if !Online(state) {
        return B_DEV_NO_MEDIA;
      }
      return if changed then B_DEV_MEDIA_CHANGED else B_OK;
    }

    method RestoreChange()
      modifies this`changePending
      ensures changePending == (old(changePending) || Online(state))
    {
      if Online(state) { changePending := true; }
    }
  }
}
