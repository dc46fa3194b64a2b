/** MPEG timestamps wrap every 2^33 ticks; a reference time tells which turn was meant. */
module Timestamps {
  import opened Wrappers

  const TURN: int := 0x2_0000_0000
  const HALF_TURN: int := 0x1_0000_0000

  function Distance(a: int, b: int): nat { if a < b then b - a else a - b }

  /** Moves a timestamp by whole turns, always in the direction chosen at the start. */
  method NormalizePts(value: int, reference: Option<int>) returns (t: int)
    ensures reference.None? ==> t == value
    ensures reference.Some? ==> t == Unwrap(value, reference.value)
  {
    t := value;
    if reference.None? {
      return;
    }
    var e := reference.value;
    var r := if e < t then -TURN else TURN;
    while Distance(t, e) > HALF_TURN
      invariant Unwrap(t, e) == Unwrap(value, e)
      invariant Distance(t, e) > HALF_TURN ==> (r == if e < t then -TURN else TURN)
      decreases Distance(t, e)
    {
      t := t + r;
    }
  }

  /** The turn of the timestamp nearest to the reference. */
  function Unwrap(t: int, e: int): int
    decreases Distance(t, e)
  {
    if Distance(t, e) <= HALF_TURN then t
    else Unwrap(if e < t then t - TURN else t + TURN, e)
  }

  /** The result differs from the input by whole turns, lies within half a turn of the reference, and is stable. */
  lemma {:induction false} UnwrapIs(t: int, e: int)
    ensures Distance(Unwrap(t, e), e) <= HALF_TURN
    ensures Unwrap(t, e) % TURN == t % TURN
    ensures Unwrap(Unwrap(t, e), e) == Unwrap(t, e)
    decreases Distance(t, e)
  {
    if Distance(t, e) > HALF_TURN {
      var next := if e < t then t - TURN else t + TURN;
      UnwrapIs(next, e);
      assert next % TURN == t % TURN;
    }
  }

  /** Any time less than half a turn from the reference is recovered from its wrapped value. */
  lemma UnwrapRecovers(time: int, t: int, e: int)
    requires Distance(time, e) < HALF_TURN && t % TURN == time % TURN
    ensures Unwrap(t, e) == time
  {
    UnwrapIs(t, e);
    var u := Unwrap(t, e);
    assert (u - time) % TURN == 0;
    assert -TURN < u - time < TURN;
  }
}
