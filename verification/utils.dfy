/**
 The optional-index stepper of `Utils`: an index over `[0, maxval)` that
 may also be "none", stepped cyclically as
 none -> 0 -> 1 -> ... -> maxval-1 -> none.
 */
module Utils {
  import opened PyStr

  /** `x` is none or an index in `[0, maxval)`. */
  predicate InRange(x: Option<int>, maxval: int) {
    x.None? || 0 <= x.value < maxval
  }

  /** `Utils.prev_cyclic`: zero is tested first, so 0 steps back to none
      and none steps back to the last index. */
  function PrevCyclic(current: Option<int>, maxval: int): (r: Option<int>)
    ensures maxval >= 1 && InRange(current, maxval) ==> InRange(r, maxval)
  {
    if current == Some(0) then None
    else if current.None? then Some(maxval - 1)
    else Some(current.value - 1)
  }

  /** `Utils.next_cyclic`: the last index is tested first, so it steps to
      none, and none steps to 0. */
  function NextCyclic(current: Option<int>, maxval: int): (r: Option<int>)
    ensures maxval >= 1 && InRange(current, maxval) ==> InRange(r, maxval)
  {
    if current == Some(maxval - 1) then None
    else if current.None? then Some(0)
    else Some(current.value + 1)
  }

  /** The step table of both functions, every branch of the source. */
  lemma CyclicTable(k: int, maxval: int)
    ensures NextCyclic(Some(maxval - 1), maxval) == None
    ensures NextCyclic(None, maxval) == Some(0)
    ensures k != maxval - 1 ==> NextCyclic(Some(k), maxval) == Some(k + 1)
    ensures PrevCyclic(Some(0), maxval) == None
    ensures PrevCyclic(None, maxval) == Some(maxval - 1)
    ensures k != 0 ==> PrevCyclic(Some(k), maxval) == Some(k - 1)
  {
  }

  /** On the proper range the two steppers undo each other. */
  lemma CyclicRoundTrip(x: Option<int>, maxval: int)
    requires maxval >= 1 && InRange(x, maxval)
    ensures PrevCyclic(NextCyclic(x, maxval), maxval) == x
    ensures NextCyclic(PrevCyclic(x, maxval), maxval) == x
  {
  }

  /** With an empty range nothing is in range, and both steppers leave
      none for a value outside it. */
  lemma CyclicEmptyRange()
    ensures NextCyclic(None, 0) == Some(0) && !InRange(Some(0), 0)
    ensures PrevCyclic(None, 0) == Some(-1) && !InRange(Some(-1), 0)
  {
  }

  /** `n` applications of `NextCyclic`. */
  function IterNext(x: Option<int>, n: nat, maxval: int): Option<int>
  {
    if n == 0 then x else NextCyclic(IterNext(x, n - 1, maxval), maxval)
  }

  /** Position of a value on the cycle: none is 0, index k is k+1. */
  function CyclePos(x: Option<int>): int {
    if x.None? then 0 else x.value + 1
  }

  lemma {:induction false} IterNextPos(x: Option<int>, n: nat, maxval: int)
    requires maxval >= 1 && InRange(x, maxval) && n <= maxval + 1
    ensures InRange(IterNext(x, n, maxval), maxval)
    ensures CyclePos(IterNext(x, n, maxval)) ==
              if CyclePos(x) + n <= maxval then CyclePos(x) + n else CyclePos(x) + n - maxval - 1
  {
    if n > 0 {
      IterNextPos(x, n - 1, maxval);
    }
  }

  /** Stepping forward `maxval + 1` times comes back to the start, and
      among the values visited on the way (after each step) none occurs
      exactly once. */
  lemma NextCyclicOrbit(x: Option<int>, maxval: int)
    requires maxval >= 1 && InRange(x, maxval)
    ensures IterNext(x, maxval + 1, maxval) == x
    ensures var j := maxval + 1 - CyclePos(x);
              1 <= j <= maxval + 1 && IterNext(x, j, maxval) == None
    ensures forall i :: 1 <= i <= maxval + 1 && IterNext(x, i, maxval) == None ==>
              i == maxval + 1 - CyclePos(x)
  {
    IterNextPos(x, maxval + 1, maxval);
    IterNextPos(x, maxval + 1 - CyclePos(x), maxval);
    forall i | 1 <= i <= maxval + 1 && IterNext(x, i, maxval) == None
      ensures i == maxval + 1 - CyclePos(x)
    {
      IterNextPos(x, i, maxval);
    }
  }
}
