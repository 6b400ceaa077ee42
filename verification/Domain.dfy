/** The value types of the monitoring domain. Instants and durations are integers counting
    microseconds, the resolution of the program's own clock. */
module Domain {
  const SECOND: int := 1_000_000
  const HOUR: int := 3600 * SECOND

  datatype Option<+T> = None | Some(value: T)

  datatype State = Operational | Degraded | Unavailable | Unknown

  datatype ObservationResult = Success | Failure | NotRun

  datatype Reason =
    | NoFreshEvidence
    | FullTestFailureConfirmed
    | ConflictingFreshEvidence
    | FullSuccessConfirmed
    | PartialOrUnconfirmedFailure
    | NoConclusiveEvidence

  /** `routeVerified` is Some(false) when the probe saw its traffic leave the intended path. */
  datatype Observation = Observation(
    source: string,
    result: ObservationResult,
    observedAt: int,
    freshUntil: int,
    fullVpnTest: bool,
    controlInternetOk: Option<bool>,
    reasonCode: Option<string>,
    routeVerified: Option<bool>)

  datatype Evaluation = Evaluation(
    state: State,
    reasonCode: Reason,
    observedAt: Option<int>,
    freshUntil: Option<int>,
    evidenceCount: nat,
    coverage: real)

  datatype ServerCandidate = ServerCandidate(
    serverId: int,
    evaluation: Evaluation,
    loadScore: Option<real>,
    completeProtocolCoverage: bool,
    priority: int)
}
