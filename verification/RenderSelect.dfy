/** Round-robin selection of the next client (SelectReadyClientLocked): the circular scan as a
    function of the ready flags, and how long a ready client can be passed over. */
module RenderSelect {
  import opened RenderClient

  /** The position `offset` places after `start` on the circular list. */
  function At(start: nat, offset: nat, n: nat): (i: nat)
    requires start < n && offset <= n
    ensures i < n
  {
    if start + offset < n then start + offset else start + offset - n
  }

  /** How many places `i` lies after `start`. */
  function Distance(start: nat, i: nat, n: nat): (d: nat)
    requires start < n && i < n
    ensures d < n && At(start, d, n) == i
  {
    if start <= i then i - start else i + n - start
  }

  /** The first ready position at or after `offset` places from `start`. */
  function PickFrom(ready: seq<bool>, start: nat, offset: nat): (r: Option<nat>)
    requires start < |ready| && offset <= |ready|
    ensures r.Some? ==> r.value < |ready| && ready[r.value]
    decreases |ready| - offset
  {
    if offset == |ready| then None
    else if ready[At(start, offset, |ready|)] then Some(At(start, offset, |ready|))
    else PickFrom(ready, start, offset + 1)
  }

  /** Where the scan starts: after the client served last, or at the head of the list. */
  function StartOf(cursor: Option<nat>, n: nat): (start: nat)
    requires 0 < n && (cursor.Some? ==> cursor.value < n)
    ensures start < n
  {
    if cursor.Some? && cursor.value + 1 < n then cursor.value + 1 else 0
  }

  function Pick(ready: seq<bool>, cursor: Option<nat>): (r: Option<nat>)
    requires cursor.Some? ==> cursor.value < |ready|
    ensures r.Some? ==> r.value < |ready| && ready[r.value]
  {
    if ready == [] then None else PickFrom(ready, StartOf(cursor, |ready|), 0)
  }

  // ---- the scan misses nothing -----------------------------------------------------------

  /** A ready position not yet passed is found, and what is found lies no farther. */
  lemma {:induction false} PickFromFinds(ready: seq<bool>, start: nat, offset: nat, i: nat)
    requires start < |ready| && i < |ready| && ready[i]
    requires offset <= Distance(start, i, |ready|)
    ensures PickFrom(ready, start, offset).Some?
    ensures Distance(start, PickFrom(ready, start, offset).value, |ready|) <= Distance(start, i, |ready|)
    decreases |ready| - offset
  {
    if !ready[At(start, offset, |ready|)] {
      PickFromFinds(ready, start, offset + 1, i);
    }
  }

  /** Nobody is picked if and only if nobody is ready. */
  lemma PickFindsAnyReady(ready: seq<bool>, cursor: Option<nat>)
    requires cursor.Some? ==> cursor.value < |ready|
    ensures Pick(ready, cursor).None? <==> forall i :: 0 <= i < |ready| ==> !ready[i]
  {
    forall i | 0 <= i < |ready| && ready[i] ensures Pick(ready, cursor).Some? {
      PickFromFinds(ready, StartOf(cursor, |ready|), 0, i);
    }
  }

  // ---- bounded waiting ---------------------------------------------------------------------

  /** Each selection of somebody else brings the scan's start closer to a ready client. */
  lemma PassingOverComesCloser(ready: seq<bool>, cursor: Option<nat>, x: nat)
    requires x < |ready| && ready[x] && (cursor.Some? ==> cursor.value < |ready|)
    ensures Pick(ready, cursor).Some?
    ensures Pick(ready, cursor) != Some(x) ==>
      Distance(StartOf(Pick(ready, cursor), |ready|), x, |ready|) < Distance(StartOf(cursor, |ready|), x, |ready|)
  {
    PickFromFinds(ready, StartOf(cursor, |ready|), 0, x);
  }

  /** The clients picked in consecutive rounds; `rounds[t]` holds the ready flags of round `t`. */
  function Picks(rounds: seq<seq<bool>>, n: nat, cursor: Option<nat>): (r: seq<Option<nat>>)
    requires forall t :: 0 <= t < |rounds| ==> |rounds[t]| == n
    requires cursor.Some? ==> cursor.value < n
    ensures |r| == |rounds|
  {
    if rounds == [] then []
    else
      var picked := Pick(rounds[0], cursor);
      [picked] + Picks(rounds[1..], n, if picked.Some? then picked else cursor)
  }

  /** With a fixed list of n clients, a client that stays ready is picked within as many rounds as
      it lies from the start of the scan, that is after at most n - 1 selections of others. */
  lemma {:induction false} ReadyClientIsServed(rounds: seq<seq<bool>>, n: nat, cursor: Option<nat>, x: nat)
    requires x < n && (cursor.Some? ==> cursor.value < n)
    requires forall t :: 0 <= t < |rounds| ==> |rounds[t]| == n && rounds[t][x]
    requires forall t :: 0 <= t < |rounds| ==> Picks(rounds, n, cursor)[t] != Some(x)
    ensures |rounds| <= Distance(StartOf(cursor, n), x, n) <= n - 1
  {
    if rounds != [] {
      var picked := Pick(rounds[0], cursor);
      PassingOverComesCloser(rounds[0], cursor, x);
      var rest := Picks(rounds[1..], n, picked);
      assert Picks(rounds, n, cursor)[0] == picked;
      forall t | 0 <= t < |rounds| - 1 ensures rest[t] != Some(x) {
        assert rest[t] == Picks(rounds, n, cursor)[t + 1];
      }
      ReadyClientIsServed(rounds[1..], n, picked, x);
    }
  }

  /** The bound is reached: when everybody is always ready, the client served last waits for all
      the n - 1 others. */
  lemma {:induction false} BoundIsReached(n: nat, m: nat, x: nat, cursor: nat)
    requires x < n && cursor < n && Distance(StartOf(Some(cursor), n), x, n) == m
    ensures var rounds := seq(m, t => seq(n, i => true));
      && |rounds| == m
      && (forall t :: 0 <= t < m ==> |rounds[t]| == n && rounds[t][x])
      && forall t :: 0 <= t < m ==> Picks(rounds, n, Some(cursor))[t] != Some(x)
  {
    var ready := seq(n, i => true);
    var rounds := seq(m, t => seq(n, i => true));
    if m > 0 {
      var start := StartOf(Some(cursor), n);
      assert rounds[0] == ready && Pick(ready, Some(cursor)) == Some(start);
      BoundIsReached(n, m - 1, x, start);
      assert rounds[1..] == seq(m - 1, t => seq(n, i => true));
    }
  }
}
