/**
 * The two-phase signal plan of the array prototype (src/model/signals.py):
 * the north-south axis has green in the first half of every cycle, the
 * east-west axis in the second half. A zero cycle length makes Python's
 * float remainder raise ZeroDivisionError, so both queries require a
 * non-zero cycle.
 */
module Signals {
  import opened PyMath

  /** `SignalPlan`: the cycle length in seconds. */
  datatype SignalPlan = SignalPlan(cycle: real)
  {
    /** `is_green_ns(t)`: the time within the cycle falls in its first half. */
    predicate IsGreenNs(t: real)
      requires cycle != 0.0
    {
      FMod(t, cycle) < cycle / 2.0
    }

    /** `is_green_ew(t)`: the negation of `is_green_ns(t)`. */
    predicate IsGreenEw(t: real)
      requires cycle != 0.0
    {
      !IsGreenNs(t)
    }
  }

  /** The plan the source builds by default: a 60-second cycle. */
  const DefaultPlan: SignalPlan := SignalPlan(60.0)

  /**
   * Within the first cycle, north-south has green exactly before the half
   * cycle and east-west exactly from it on.
   */
  lemma FirstCycle(plan: SignalPlan, t: real)
    requires 0.0 <= t < plan.cycle
    ensures plan.IsGreenNs(t) <==> t < plan.cycle / 2.0
    ensures plan.IsGreenEw(t) <==> plan.cycle / 2.0 <= t
  {
    FModOfFirstPeriod(t, plan.cycle);
  }

  /** With a positive cycle, the north-south axis has green at time 0 and east-west does not. */
  lemma NsGreenAtStart(plan: SignalPlan)
    requires plan.cycle > 0.0
    ensures plan.IsGreenNs(0.0) && !plan.IsGreenEw(0.0)
  {
    FirstCycle(plan, 0.0);
  }

  /** Shifting the time by one cycle changes neither answer. */
  lemma GreenPeriodic(plan: SignalPlan, t: real)
    requires plan.cycle != 0.0
    ensures plan.IsGreenNs(t + plan.cycle) == plan.IsGreenNs(t)
    ensures plan.IsGreenEw(t + plan.cycle) == plan.IsGreenEw(t)
  {
    FModPeriodic(t, plan.cycle);
  }

  /** `t + k * c`, reached by `k` additions of `c`. */
  function Shifted(t: real, c: real, k: nat): (r: real)
    ensures r == t + c * k as real
  {
    if k == 0 then t
    else
      Distribute(c, 0.0, (k - 1) as real);
      Shifted(t, c, k - 1) + c
  }

  /** Shifting the time by any whole number of cycles changes neither answer. */
  lemma {:induction false} GreenPeriodicN(plan: SignalPlan, t: real, k: nat)
    requires plan.cycle != 0.0
    ensures plan.IsGreenNs(Shifted(t, plan.cycle, k)) == plan.IsGreenNs(t)
    ensures plan.IsGreenEw(Shifted(t, plan.cycle, k)) == plan.IsGreenEw(t)
  {
    if k > 0 {
      GreenPeriodicN(plan, t, k - 1);
      GreenPeriodic(plan, Shifted(t, plan.cycle, k - 1));
    }
  }

  /** Under the default 60-second plan, north-south has green for the first 30 seconds of each minute. */
  lemma DefaultPlanHalves(t: real)
    requires 0.0 <= t < 60.0
    ensures DefaultPlan.IsGreenNs(t) <==> t < 30.0
  {
    FirstCycle(DefaultPlan, t);
  }
}
