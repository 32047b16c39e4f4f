/** The hard stop of a run (core/orchestration/budget.py). Costs are micro-cents. */
module Budgets {
  import opened Common

  datatype Stop = Cancelled | StepLimit | CostLimit | TimeLimit

  class BudgetGuard {
    const maxSteps: int
    const maxCost: int
    var stepsUsed: nat
    var spent: nat
    var warned: bool

    constructor (maxSteps: int, maxCost: int)
      ensures this.maxSteps == maxSteps && this.maxCost == maxCost && stepsUsed == 0 && spent == 0 && !warned
    {
      this.maxSteps, this.maxCost := maxSteps, maxCost;
      stepsUsed, spent, warned := 0, 0, false;
    }

    /** `check_before_step`, with the answers of the cancel flag and of the clock. It lets a call
        through only below both ceilings. */
    method CheckBeforeStep(cancelled: bool, late: bool) returns (r: Option<Stop>)
      ensures r.None? <==> !cancelled && !late && stepsUsed < maxSteps && spent < maxCost
      ensures r == Some(Cancelled) <==> cancelled
      ensures r == Some(StepLimit) <==> !cancelled && stepsUsed >= maxSteps
      ensures r == Some(CostLimit) <==> !cancelled && stepsUsed < maxSteps && spent >= maxCost
      ensures r == Some(TimeLimit) <==> !cancelled && stepsUsed < maxSteps && spent < maxCost && late
    {
      if cancelled {
        return Some(Cancelled);
      }
      if stepsUsed >= maxSteps {
        return Some(StepLimit);
      }
      if spent >= maxCost {
        return Some(CostLimit);
      }
      if late {
        return Some(TimeLimit);
      }
      return None;
    }

    method Record(cost: nat)
      modifies this`stepsUsed, this`spent
      ensures stepsUsed == old(stepsUsed) + 1 && spent == old(spent) + cost
    {
      stepsUsed := stepsUsed + 1;
      spent := spent + cost;
    }

    /** Four fifths of the ceiling, rounded toward zero as `int` does. */
    function WarnThreshold(): (threshold: int)
      ensures maxCost >= 0 ==> 5 * threshold <= 4 * maxCost < 5 * threshold + 5
      ensures maxCost < 0 ==> 5 * threshold - 5 < 4 * maxCost <= 5 * threshold
    {
      if maxCost >= 0 then maxCost * 4 / 5 else -(-maxCost * 4 / 5)
    }

    /** True once, the first time spend has reached the threshold. */
    method TakeWarning() returns (fire: bool)
      modifies this`warned
      ensures fire <==> !old(warned) && spent >= WarnThreshold()
      ensures warned == (old(warned) || fire)
    {
      if warned || spent < WarnThreshold() {
        return false;
      }
      warned := true;
      return true;
    }
  }
}
