/** The convergence controller: `plan`, `advance_cumulative`, `reset_for_new_canonical_day`. */
module Convergence {
  import opened Basics

  /** The `setTimeLeft` operation to issue. */
  datatype Op = Set | Subtract | Add | Noop

  const DEADBAND_S := 5
  const HARD_RESET_THRESHOLD_S := 300
  const REGRESSION_TOLERANCE_S := 90

  /** What the agent read from timekpr this tick. */
  datatype Observation = Observation(balance: int, spentLocal: int, limitToday: int)

  /** What the hub told the agent this tick. */
  datatype HubTarget = HubTarget(limitToday: int, globalSpent: int)

  datatype Plan = Plan(op: Op, seconds: int, newAppliedOffset: int)

  /** B* = G + (L_dev - L_eff): the balance at which time left is L_eff - G. */
  function TargetBalance(observed: Observation, target: HubTarget): int {
    target.globalSpent + observed.limitToday - target.limitToday
  }

  function MakePlan(observed: Observation, target: HubTarget, forceAbsolute: bool): Plan {
    var observedOffset := observed.balance - observed.spentLocal;
    var targetBalance := TargetBalance(observed, target);
    var correction := targetBalance - observed.balance;
    if forceAbsolute || observed.balance > observed.limitToday || Abs(correction) > HARD_RESET_THRESHOLD_S then
      Plan(Set, target.limitToday - target.globalSpent, targetBalance - observed.spentLocal)
    else if correction > DEADBAND_S then
      Plan(Subtract, correction, observedOffset + correction)
    else if correction < -DEADBAND_S then
      Plan(Add, -correction, observedOffset + correction)
    else
      Plan(Noop, 0, observedOffset)
  }

  /** The agent's own canonical-day counter. */
  datatype CumulativeState = CumulativeState(cumLocal: int, rawPrev: int)

  function AdvanceCumulative(state: CumulativeState, observed: int): CumulativeState {
    var prev := state.rawPrev;
    var cum :=
      if observed >= prev then state.cumLocal + (observed - prev)
      else if prev - observed <= REGRESSION_TOLERANCE_S then state.cumLocal
      else state.cumLocal + observed;
    CumulativeState(cum, observed)
  }

  function ResetForNewCanonicalDay(observed: int): CumulativeState {
    CumulativeState(0, observed)
  }
}
