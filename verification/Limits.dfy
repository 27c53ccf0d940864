/** Requests, definitions and states of the rate limiter. */
module Limits {

  datatype Kind = Rolling | Concurrency | OtherKind

  datatype Overage = Deny | Debt | OtherPolicy

  datatype Status = Active | Decreasing

  datatype Definition = Definition(
    key: string, kind: Kind, capacity: nat, windowSeconds: int, timeoutSeconds: int,
    unit: string, description: string, overage: Overage)

  datatype LimitState = LimitState(definition: Definition, status: Status, pendingDecreaseTo: nat)

  datatype Requirement = Requirement(key: string, amount: nat)

  datatype Actual = Actual(key: string, actualAmount: nat)

  datatype ReserveRequest = ReserveRequest(leaseID: string, jobID: string, requirements: seq<Requirement>)

  datatype ReserveResponse = ReserveResponse(allowed: bool, retryAfterMs: int, reservedAtUnixMs: int, error: string)

  datatype CompleteRequest = CompleteRequest(leaseID: string, jobID: string, actuals: seq<Actual>)

  datatype CompleteResponse = CompleteResponse(ok: bool, error: string)

  datatype Lease = Lease(reservedAtUnix: int, requirements: seq<Requirement>, reservedAmounts: map<string, nat>)

  /** Times are integers counting nanoseconds. */
  const SECOND: int := 1_000_000_000

  function UnixMilli(t: int): int {
    t / 1_000_000
  }

  ghost predicate DistinctKeys(reqs: seq<Requirement>) {
    forall i, j :: 0 <= i < j < |reqs| ==> reqs[i].key != reqs[j].key
  }
}
