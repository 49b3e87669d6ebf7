/** Session domain: records, leases, configuration and the renewal decision.

    Timestamps and durations are counted in one unit from the epoch and are unbounded;
    the overflow panic of `SystemTime` addition is not modelled. Identifiers drawn by
    `Uuid::now_v7` are opaque numbers. */
module Sessions {
  import opened Wrappers

  type Time = nat
  type Duration = nat
  type SessionId = nat
  type FamilyId = nat
  type LeaseId = nat
  type TokenHash = string

  datatype Session = Session(
    sessionId: SessionId,
    familyId: FamilyId,
    subjectId: string,
    createdAt: Time,
    expiresAt: Time,
    lastSeenAt: Option<Time>,
    revoked: bool)
  {
    predicate IsActiveAt(now: Time) {
      !revoked && expiresAt > now
    }

    function Touched(at: Time): Session {
      this.(lastSeenAt := Some(at))
    }

    function Revoke(): Session {
      this.(revoked := true)
    }

    /** The fields that no renewal, touch or revocation may change. */
    function Identity(): (SessionId, FamilyId, string, Time) {
      (sessionId, familyId, subjectId, createdAt)
    }
  }

  function NewSession(sessionId: SessionId, familyId: FamilyId, subjectId: string, createdAt: Time,
                      expiresAt: Time): Session {
    Session(sessionId, familyId, subjectId, createdAt, expiresAt, None, false)
  }

  datatype SessionFamilyRecord = SessionFamilyRecord(
    familyId: FamilyId,
    subjectId: string,
    createdAt: Time,
    revoked: bool)

  datatype SessionRefreshRecord = SessionRefreshRecord(
    sessionId: SessionId,
    familyId: FamilyId,
    expiresAt: Time,
    revoked: bool)
  {
    predicate IsActiveAt(now: Time) {
      !revoked && expiresAt > now
    }
  }

  function NewRefreshRecord(session: Session): SessionRefreshRecord {
    SessionRefreshRecord(session.sessionId, session.familyId, session.expiresAt, false)
  }

  datatype SessionLookup = SessionLookup(
    session: Session,
    family: SessionFamilyRecord,
    refresh: SessionRefreshRecord)
  {
    predicate IsActiveAt(now: Time) {
      session.IsActiveAt(now) && !family.revoked && refresh.IsActiveAt(now)
    }
  }

  datatype RenewalLease = RenewalLease(
    sessionId: SessionId,
    leaseId: LeaseId,
    acquiredAt: Time,
    leaseUntil: Time)
  {
    predicate IsActiveAt(now: Time) {
      now < leaseUntil
    }
  }

  function LeaseFromTtl(sessionId: SessionId, leaseId: LeaseId, acquiredAt: Time, ttl: Duration): RenewalLease {
    RenewalLease(sessionId, leaseId, acquiredAt, acquiredAt + ttl)
  }

  /** A lease is that of its session from the acquisition on and blocks others for its lifetime. */
  lemma LeaseLastsItsTtl(sessionId: SessionId, leaseId: LeaseId, acquiredAt: Time, ttl: Duration, now: Time)
    ensures var lease := LeaseFromTtl(sessionId, leaseId, acquiredAt, ttl);
            && (lease.sessionId, lease.leaseId, lease.acquiredAt) == (sessionId, leaseId, acquiredAt)
            && (lease.IsActiveAt(now) <==> now < acquiredAt + ttl)
  {
  }

  datatype LeaseAcquisition =
    | Acquired(lease: RenewalLease)
    | HeldByOther(activeLease: RenewalLease)
    | Unavailable

  datatype SessionConfig = SessionConfig(
    authTokenTtl: Duration,
    refreshTokenTtl: Duration,
    proactiveRenewalWindow: Duration,
    renewalLeaseTtl: Duration,
    clockSkewTolerance: Duration)

  datatype ConfigError = InvalidConfig

  /** Validation accepts a configuration exactly when every lifetime is positive and the
      proactive window fits into the auth-token lifetime, and then returns it unchanged. */
  function Validate(config: SessionConfig): (r: Result<SessionConfig, ConfigError>)
    ensures r.Success? <==>
            config.authTokenTtl > 0 && config.refreshTokenTtl > 0 && config.renewalLeaseTtl > 0
            && config.proactiveRenewalWindow <= config.authTokenTtl
    ensures r.Success? ==> r.value == config
  {
    if config.authTokenTtl == 0 || config.refreshTokenTtl == 0 || config.renewalLeaseTtl == 0 then
      Failure(InvalidConfig)
    else if config.proactiveRenewalWindow > config.authTokenTtl then
      Failure(InvalidConfig)
    else
      Success(config)
  }

  predicate IsValid(config: SessionConfig) {
    Validate(config).Success?
  }

  datatype AuthTokenState =
    | Valid(expiresIn: Duration)
    | NearExpiry(expiresIn: Duration)
    | Expired(expiredFor: Duration)
    | Invalid

  datatype RenewalRequirement = Proactive | Required

  datatype RenewalDecision = NoRenewal | AttemptProactiveRenewal | RequireRenewal | Reject

  function DecideForState(state: AuthTokenState, requirement: RenewalRequirement): RenewalDecision {
    match (state, requirement)
    case (Invalid, _) => Reject
    case (Expired(_), _) => RequireRenewal
    case (NearExpiry(_), Proactive) => AttemptProactiveRenewal
    case (NearExpiry(_), Required) => RequireRenewal
    case (Valid(_), _) => NoRenewal
  }

  /** The auth-token states for which the decision lets a renewal go on to the repository. */
  predicate NeedsRenewal(state: AuthTokenState) {
    state.NearExpiry? || state.Expired?
  }

  /** An auth token and a refresh token issued together. */
  datatype TokenPair = TokenPair(authToken: string, refresh: string)

  /** The answer of `renew_session`; `Contended` is its `LeaseUnavailable`, renamed to keep it
      apart from the rotation outcome of that name. */
  datatype RenewalOutcome =
    | NotNeeded
    | Contended(acquisition: LeaseAcquisition)
    | Renewed(session: Session, pair: TokenPair)
    | ReplayDetected(sessionId: SessionId)
    | Rejected
}
