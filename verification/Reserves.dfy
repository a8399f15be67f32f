/** The fee reserves that coin selection is attempted with (apollo.go). */
module Reserves {
  import opened Wrappers
  import opened Ledger

  /** What the inputs selected at each reserve need for their fee, where selection succeeds. */
  type Costs = imap<Int64, Int64>

  /** What is selected at this reserve needs more. */
  ghost predicate CostsMore(costs: Costs, reserve: Int64) {
    reserve in costs && costs[reserve] > reserve
  }

  /** The reserve that replaces this one: what its selection needs, if that is more. */
  ghost function NextReserve(costs: Costs, ceiling: Int64, reserve: Int64): Option<Int64> {
    if CostsMore(costs, reserve) && reserve < ceiling then Some(costs[reserve]) else None
  }

  /** Where the loop ends that has made this many attempts before the one at this reserve. */
  ghost function LastFrom(costs: Costs, ceiling: Int64, reserve: Int64, attempt: nat): Int64
    decreases 2 - attempt
  {
    match NextReserve(costs, ceiling, reserve)
    case None => reserve
    case Some(next) => if attempt < 2 then LastFrom(costs, ceiling, next, attempt + 1) else reserve
  }

  /** The reserve of the last attempt, three at most. */
  ghost function LastReserve(costs: Costs, ceiling: Int64, first: Int64): Int64 {
    LastFrom(costs, ceiling, first, 0)
  }

  ghost predicate Capped(costs: Costs, ceiling: Int64) {
    forall r :: r in costs ==> costs[r] <= ceiling
  }

  /** The loop keeps a selection that needs more than was reserved for it exactly when selection
      succeeds with such at three reserves in a row, each the need of the one before: the last of
      them is the third, and it is below the ceiling. */
  lemma ShortIff(costs: Costs, ceiling: Int64, first: Int64)
    requires Capped(costs, ceiling)
    ensures var last := LastReserve(costs, ceiling, first);
            CostsMore(costs, last) <==>
              CostsMore(costs, first) &&
              var second := costs[first];
              CostsMore(costs, second) &&
              var third := costs[second];
              CostsMore(costs, third) && last == third && first < second < third < ceiling
  {
    if CostsMore(costs, first) {
      var second := costs[first];
      assert LastReserve(costs, ceiling, first) == LastFrom(costs, ceiling, second, 1);
      if CostsMore(costs, second) {
        assert LastFrom(costs, ceiling, second, 1) == LastFrom(costs, ceiling, costs[second], 2) == costs[second];
      }
    }
  }

  /** Otherwise the reserve suffices, or selection fails at it. */
  lemma LastWithinCeiling(costs: Costs, ceiling: Int64, reserve: Int64, attempt: nat)
    requires Capped(costs, ceiling) && reserve <= ceiling
    ensures reserve <= LastFrom(costs, ceiling, reserve, attempt) <= ceiling
    decreases 2 - attempt
  {
  }
}
