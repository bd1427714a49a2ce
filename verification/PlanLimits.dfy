/** Plan arithmetic of `internal/service/plan.go`. A limit of zero is "unlimited". */
module PlanLimits {
  predicate IsUnlimited(limit: int) {
    limit == 0
  }

  /** `planParallelScanCap`: min(limit, 3), or 3 when the plan is unlimited. */
  function ParallelCap(limit: int): (cap: int)
    ensures 1 <= cap <= 3
    ensures 0 < limit ==> cap <= limit
    ensures cap < 3 ==> cap == limit
  {
    if IsUnlimited(limit) || limit <= 0 then 3 else if limit < 3 then limit else 3
  }

  /** `planScansLeft`: -1 stands for unlimited. */
  function ScansLeft(limit: int, used: nat): int {
    if IsUnlimited(limit) then -1 else if limit - used < 0 then 0 else limit - used
  }
}
