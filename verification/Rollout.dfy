/** The max-unavailable budget of internal/kube/rollout.go. */
module Rollout {
  import opened Common

  /** `intstr.IntOrString`; a string that is not a percentage makes the source panic and is left out. */
  datatype IntOrPercent = Count(n: int) | Percent(p: int)

  const DEFAULT_MAX_UNAVAILABLE := Percent(25)

  /** `intstr.GetScaledValueFromIntOrPercent(v, total, false)`: percentages round down. */
  function Scaled(v: IntOrPercent, total: nat): int {
    match v
    case Count(n) => n
    case Percent(p) => p * total / 100
  }

  /** How many of `desired` replicas may be unavailable: never less than one. */
  function Unavailable(maxUnavail: Option<IntOrPercent>, desired: nat): (u: int)
    ensures u >= 1
  {
    var v := if maxUnavail.None? then DEFAULT_MAX_UNAVAILABLE else maxUnavail.value;
    Max(1, Scaled(v, desired))
  }

  /** A percentage, 25 by default, allows the largest number of replicas within it, and a number allows itself; at least 1. */
  lemma UnavailableExactly(maxUnavail: Option<IntOrPercent>, desired: nat)
    ensures var u := Unavailable(maxUnavail, desired);
      match maxUnavail
      case None => (u > 1 ==> 4 * u <= desired < 4 * u + 4) && (u == 1 ==> desired < 8)
      case Some(Count(n)) => u == if n > 1 then n else 1
      case Some(Percent(p)) => (u > 1 ==> 100 * u <= p * desired < 100 * u + 100) && (u == 1 ==> p * desired < 200)
  {
  }

  /**
   * `ComputeRollout`: the largest number of replicas, at most `desired`, that can be taken down while
   * `desired - Unavailable` (or everything that was ready, if that is less) stays ready. The three clauses
   * admit exactly one value.
   */
  function ComputeRollout(maxUnavail: Option<IntOrPercent>, desired: nat, ready: nat): (r: int)
    ensures 0 <= r <= desired
    ensures ready - r >= Min(ready, desired - Unavailable(maxUnavail, desired))
    ensures r < desired ==> ready - (r + 1) < desired - Unavailable(maxUnavail, desired)
  {
    var unavail := Unavailable(maxUnavail, desired);
    var minAvail := desired - unavail;
    if ready <= minAvail then 0
    else
      var target := unavail - (desired - ready);
      if target > desired then desired else target
  }
}
