/**
 * The "units remaining" counter: every two minutes it drops by one, but it
 * never goes below 100 on its own.
 */
module MechanismSection {

  const TickIntervalMs := 120000
  const Floor := 100

  /**
   * One interval tick: `prev > 100 ? prev - 1 : prev`. The counter drops by
   * exactly one while above 100, stays put otherwise, and never crosses
   * below 100 from 100 or more.
   */
  function Tick(prev: int): (next: int)
    ensures next == prev || next == prev - 1
    ensures next < prev <==> prev > Floor
    ensures prev >= Floor ==> next >= Floor
  {
    if prev > Floor then prev - 1 else prev
  }

  /** The value after `k` ticks. */
  function Ticks(units: int, k: nat): int {
    if k == 0 then units else Ticks(Tick(units), k - 1)
  }

  /**
   * After `k` ticks a value above 100 has dropped by `k`, stopping at 100;
   * a value at or below 100 has not moved.
   */
  lemma {:induction false} TicksClosedForm(units: int, k: nat)
    ensures units > Floor ==> Ticks(units, k) == if units - k > Floor then units - k else Floor
    ensures units <= Floor ==> Ticks(units, k) == units
  {
    if k > 0 {
      TicksClosedForm(Tick(units), k - 1);
    }
  }

  /** The counter never goes up, and from 100 or more it never goes below 100. */
  lemma TicksBounds(units: int, k: nat)
    ensures Ticks(units, k) <= units
    ensures units >= Floor ==> Ticks(units, k) >= Floor
  {
    TicksClosedForm(units, k);
  }

  /**
   * The counter `elapsedMs` milliseconds after mounting: one tick per whole
   * two-minute interval, so a value above 100 has dropped by that many,
   * stopping at 100.
   */
  function UnitsAfter(initial: int, elapsedMs: nat): (units: int)
    ensures initial > Floor ==>
      units == if initial - elapsedMs / TickIntervalMs > Floor then initial - elapsedMs / TickIntervalMs else Floor
    ensures initial <= Floor ==> units == initial
  {
    TicksClosedForm(initial, elapsedMs / TickIntervalMs);
    Ticks(initial, elapsedMs / TickIntervalMs)
  }

  class UnitsCounter {
    var unitsRemaining: int

    constructor (initialUnitsRemaining: int)
      ensures unitsRemaining == initialUnitsRemaining
    {
      unitsRemaining := initialUnitsRemaining;
    }

    /** The interval callback. */
    method OnTick()
      modifies this
      ensures unitsRemaining == Tick(old(unitsRemaining))
      ensures old(unitsRemaining) > Floor ==> unitsRemaining == old(unitsRemaining) - 1
      ensures old(unitsRemaining) <= Floor ==> unitsRemaining == old(unitsRemaining)
    {
      unitsRemaining := if unitsRemaining > Floor then unitsRemaining - 1 else unitsRemaining;
    }
  }
}
