/** Generation roles. A module owns two (or, for the camera, three) backing
    buffers; the roles "current", "previous" (and "before previous") are
    indices into them and move on every rollover. */
module Roles {

  /** Two roles over buffers 0 and 1. */
  datatype Pair = Pair(current: nat, previous: nat) {

    /** Each role names one of the two buffers and the two are distinct. */
    predicate Valid() {
      current < 2 && previous < 2 && current != previous
    }

    /** `std::swap(current_tick, previous_tick)`. */
    function Swap(): (r: Pair)
      requires Valid()
      ensures r.Valid()
      ensures r.current == previous && r.previous == current
    {
      Pair(previous, current)
    }

    /** The explicit toggle written out by the light module: compare the
        current role with buffer 0 and assign both roles. */
    function Toggle(): (r: Pair)
      requires Valid()
      ensures r.Valid()
      ensures r.current != current
    {
      if current == 0 then Pair(1, 0) else Pair(0, 1)
    }
  }

  const Initial: Pair := Pair(0, 1)

  /** The toggle and the swap are the same rollover. */
  lemma ToggleIsSwap(r: Pair)
    requires r.Valid()
    ensures r.Toggle() == r.Swap()
  {
  }

  /** The roles after `n` rollovers. */
  function Rollovers(r: Pair, n: nat): (s: Pair)
    requires r.Valid()
    ensures s.Valid()
  {
    if n == 0 then r else Rollovers(r, n - 1).Swap()
  }

  /** Parity: after `n` rollovers the current role is the starting one when
      `n` is even and the other buffer when `n` is odd; no role is ever lost
      or duplicated. */
  lemma {:induction false} RolloverParity(r: Pair, n: nat)
    requires r.Valid()
    ensures Rollovers(r, n) == if n % 2 == 0 then r else r.Swap()
  {
    if n > 0 {
      RolloverParity(r, n - 1);
    }
  }

  /** Three roles over buffers 0, 1 and 2, oldest first. */
  datatype Triple = Triple(prev2: nat, prev1: nat, current: nat) {

    /** The roles are a permutation of the three buffers. */
    predicate Valid() {
      prev2 < 3 && prev1 < 3 && current < 3
      && prev2 != prev1 && prev1 != current && prev2 != current
    }

    /** `swap(prev2, prev1)` followed by `swap(prev1, current)`: the old
        current becomes the newest history entry, the old `prev1` ages to
        `prev2`, and the oldest buffer is recycled for the fresh capture. */
    function Rotate(): (r: Triple)
      requires Valid()
      ensures r.Valid()
      ensures r.prev1 == current && r.prev2 == prev1 && r.current == prev2
    {
      var afterFirst := Triple(prev1, prev2, current);
      Triple(afterFirst.prev2, afterFirst.current, afterFirst.prev1)
    }
  }

  const InitialTriple: Triple := Triple(0, 1, 2)

  /** Three rotations bring every role back to its buffer. */
  lemma RotateThrice(t: Triple)
    requires t.Valid()
    ensures t.Rotate().Rotate().Rotate() == t
  {
  }

  /** Every buffer holds exactly one role after a rotation. */
  lemma RotateIsPermutation(t: Triple)
    requires t.Valid()
    ensures {t.Rotate().prev2, t.Rotate().prev1, t.Rotate().current} == {0, 1, 2}
  {
  }
}
