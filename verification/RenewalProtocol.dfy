/** Interleavings of session renewals, issuances, revocations and touches over one shared
    repository.

    Every repository call is one atomic step that may do whatever the repository contract
    allows. Between two steps of one request any number of steps of other requests may
    happen, the clock may advance, and the request may fail or be dropped. A renewal keeps
    the `now` of its start and the snapshot of its lookup until it ends.

    A plaintext refresh token is identified with its hash. Drawn session, family and lease
    identifiers and drawn hashes are fresh, and a client presents either a token that was
    returned to a caller or a value no issuer ever drew. */
module RenewalProtocol {
  import opened Wrappers
  import opened Sessions
  import opened RepositoryContract

  type RequestId = nat

  /** Where a call of `renew_session` stands. */
  datatype Phase =
    | Presented
    | Found(lookup: SessionLookup)
    | Holding(lookup: SessionLookup, lease: RenewalLease)
    | Ready(lookup: SessionLookup, lease: RenewalLease, pair: TokenPair)
    | Committed(session: Session, pair: TokenPair)
    | Replayed(lookup: SessionLookup)
    | Answered(outcome: RenewalOutcome)
    | Failed

  datatype Stage = Drawn | Persisted | Returned | Aborted

  datatype Request =
    | Renewal(now: Time, presented: TokenHash, phase: Phase)
    | Issuance(session: Session, pair: TokenPair, stage: Stage)

  /** One committed rotation, in the order of commits of its session. */
  datatype Rotation = Rotation(request: RequestId, previous: TokenHash, session: Session, pair: TokenPair)

  datatype System = System(
    config: SessionConfig,
    store: Store,
    clock: Time,
    requests: map<RequestId, Request>,
    // history: hashes that were ever active, rotations, and the values drawn, presented and returned so far
    known: map<TokenHash, SessionId>,
    rotations: map<SessionId, seq<Rotation>>,
    drawn: set<TokenHash>,
    presented: set<TokenHash>,
    released: set<TokenHash>,
    leaseIds: set<LeaseId>,
    sessionIds: set<SessionId>,
    familyIds: set<FamilyId>)

  datatype Step =
    | Tick(to: Time)
    | BeginRenewal(request: RequestId, state: AuthTokenState, requirement: RenewalRequirement, hash: TokenHash)
    | Lookup(request: RequestId, found: Option<SessionLookup>)
    | Acquire(request: RequestId, leaseId: LeaseId, judgedAt: Time, answer: LeaseAcquisition, post: Store)
    | Draw(request: RequestId, pair: TokenPair)
    | Rotate(request: RequestId, judgedAt: Time, outcome: RotateOutcome, post: Store)
    | RevokeReplayed(request: RequestId, post: Store)
    | Return(request: RequestId)
    | Fail(request: RequestId)
    | BeginIssuance(request: RequestId, sessionId: SessionId, familyId: FamilyId, subjectId: string, pair: TokenPair)
    | Create(request: RequestId, post: Store)
    | Revoke(id: SessionId, post: Store)
    | RevokeFamily(family: FamilyId, post: Store)
    | Touch(id: SessionId, at: Time, post: Store)

  function Initial(config: SessionConfig): System {
    System(config, Store(map[], map[], map[]), 0, map[], map[], map[], {}, {}, {}, {}, {}, {})
  }

  ghost predicate InPhase(s: System, r: RequestId) {
    r in s.requests && s.requests[r].Renewal?
  }

  /** The session a renewal asks the repository to write: the looked-up snapshot, touched
      and extended from the request's own `now`. */
  function NextSession(config: SessionConfig, lookup: SessionLookup, now: Time): Session {
    lookup.session.Touched(now).(expiresAt := now + config.refreshTokenTtl)
  }

  function RotateInput(config: SessionConfig, request: Request): RotateRefreshToken
    requires request.Renewal? && request.phase.Ready?
  {
    var next := NextSession(config, request.phase.lookup, request.now);
    RotateRefreshToken(next.sessionId, request.phase.lookup.family, request.phase.lease,
                       request.presented, request.phase.pair.refresh, next)
  }

  ghost predicate Enabled(s: System, step: Step) {
    match step
    case Tick(to) => s.clock <= to
    case BeginRenewal(r, _, _, hash) =>
      r !in s.requests && (hash in s.released || hash !in s.drawn)
    case Lookup(r, found) =>
      InPhase(s, r) && s.requests[r].phase.Presented? && LookedUp(s.store, s.known, s.requests[r].presented, found)
    case Acquire(r, leaseId, judgedAt, answer, post) =>
      && InPhase(s, r) && s.requests[r].phase.Found?
      && leaseId !in s.leaseIds
      && s.requests[r].now <= judgedAt <= s.clock
      && var id := s.requests[r].phase.lookup.session.sessionId;
      && LeaseAnswered(s.store, id, LeaseFromTtl(id, leaseId, s.requests[r].now, s.config.renewalLeaseTtl), judgedAt,
                       answer, post)
    case Draw(r, pair) =>
      InPhase(s, r) && s.requests[r].phase.Holding? && pair.refresh !in s.drawn && pair.refresh !in s.presented
    case Rotate(r, judgedAt, outcome, post) =>
      && InPhase(s, r) && s.requests[r].phase.Ready?
      && s.requests[r].now <= judgedAt <= s.clock
      && RotationAnswered(s.store, RotateInput(s.config, s.requests[r]), judgedAt, outcome, post)
    case RevokeReplayed(r, post) =>
      && InPhase(s, r) && s.requests[r].phase.Replayed?
      && FamilyRevoked(s.store, s.requests[r].phase.lookup.family.familyId, post)
    case Return(r) =>
      r in s.requests && match s.requests[r] {
        case Renewal(_, _, phase) => phase.Committed?
        case Issuance(_, _, stage) => stage.Persisted?
      }
    case Fail(r) =>
      r in s.requests && match s.requests[r] {
        case Renewal(_, _, phase) => !phase.Answered?
        case Issuance(_, _, stage) => !stage.Returned?
      }
    case BeginIssuance(r, sessionId, familyId, _, pair) =>
      && r !in s.requests
      && sessionId !in s.sessionIds && familyId !in s.familyIds
      && pair.refresh !in s.drawn && pair.refresh !in s.presented
    case Create(r, post) =>
      && r in s.requests && s.requests[r].Issuance? && s.requests[r].stage.Drawn?
      && Created(s.store, CreateSession(s.requests[r].session, s.requests[r].pair.refresh), post)
    case Revoke(id, post) => SessionRevoked(s.store, id, post)
    case RevokeFamily(family, post) => FamilyRevoked(s.store, family, post)
    case Touch(id, at, post) => Touched(s.store, id, at, post)
  }

  function Put(s: System, r: RequestId, request: Request): System {
    s.(requests := s.requests[r := request])
  }

  function PutPhase(s: System, r: RequestId, phase: Phase): System
    requires r in s.requests && s.requests[r].Renewal?
  {
    Put(s, r, s.requests[r].(phase := phase))
  }

  /** What a rotation outcome makes of the request. */
  function AfterRotation(s: System, r: RequestId, outcome: RotateOutcome): Phase
    requires r in s.requests && s.requests[r].Renewal? && s.requests[r].phase.Ready?
  {
    var request := s.requests[r];
    match outcome
    case Rotated => Committed(NextSession(s.config, request.phase.lookup, request.now), request.phase.pair)
    case SessionMissing => Answered(Rejected)
    case LeaseUnavailable => Answered(Contended(Unavailable))
    case RefreshTokenMismatch => Replayed(request.phase.lookup)
  }

  ghost function Next(s: System, step: Step): System
    requires Enabled(s, step)
  {
    match step
    case Tick(to) => s.(clock := to)
    case BeginRenewal(r, state, requirement, hash) =>
      var phase := match DecideForState(state, requirement) {
        case NoRenewal => Answered(NotNeeded)
        case Reject => Answered(Rejected)
        case _ => Presented
      };
      Put(s, r, Renewal(s.clock, hash, phase)).(presented := s.presented + {hash})
    case Lookup(r, found) =>
      PutPhase(s, r, match found {
        case None => Answered(Rejected)
        case Some(lookup) => if lookup.IsActiveAt(s.requests[r].now) then Found(lookup) else Answered(Rejected)
      })
    case Acquire(r, leaseId, _, answer, post) =>
      var phase := match answer {
        case Acquired(lease) => Holding(s.requests[r].phase.lookup, lease)
        case _ => Answered(Contended(answer))
      };
      PutPhase(s, r, phase).(store := post, leaseIds := s.leaseIds + {leaseId})
    case Draw(r, pair) =>
      PutPhase(s, r, Ready(s.requests[r].phase.lookup, s.requests[r].phase.lease, pair))
      .(drawn := s.drawn + {pair.refresh})
    case Rotate(r, _, outcome, post) =>
      var after := PutPhase(s, r, AfterRotation(s, r, outcome)).(store := post);
      if outcome != Rotated then after else
        var input := RotateInput(s.config, s.requests[r]);
        var log := if input.sessionId in s.rotations then s.rotations[input.sessionId] else [];
        after.(known := s.known[input.next := input.sessionId],
               rotations := s.rotations[input.sessionId :=
                 log + [Rotation(r, input.previous, input.nextSession, s.requests[r].phase.pair)]])
    case RevokeReplayed(r, post) =>
      PutPhase(s, r, Answered(ReplayDetected(s.requests[r].phase.lookup.session.sessionId))).(store := post)
    case Return(r) =>
      match s.requests[r] {
        case Renewal(_, _, phase) =>
          PutPhase(s, r, Answered(Renewed(phase.session, phase.pair))).(released := s.released + {phase.pair.refresh})
        case Issuance(_, pair, _) =>
          Put(s, r, s.requests[r].(stage := Returned)).(released := s.released + {pair.refresh})
      }
    case Fail(r) =>
      (match s.requests[r] {
         case Renewal(_, _, _) => PutPhase(s, r, Failed)
         case Issuance(_, _, _) => Put(s, r, s.requests[r].(stage := Aborted))
       })
    case BeginIssuance(r, sessionId, familyId, subjectId, pair) =>
      var session := NewSession(sessionId, familyId, subjectId, s.clock, s.clock + s.config.refreshTokenTtl);
      Put(s, r, Issuance(session, pair, Drawn)).(
        drawn := s.drawn + {pair.refresh},
        sessionIds := s.sessionIds + {sessionId},
        familyIds := s.familyIds + {familyId})
    case Create(r, post) =>
      var request := s.requests[r];
      Put(s, r, request.(stage := Persisted)).(
        store := post,
        known := s.known[request.pair.refresh := request.session.sessionId],
        rotations := s.rotations[request.session.sessionId := []])
    case Revoke(_, post) => s.(store := post)
    case RevokeFamily(_, post) => s.(store := post)
    case Touch(_, _, post) => s.(store := post)
  }

  /** A run: any finite sequence of enabled steps from the empty system. */
  ghost predicate IsRun(config: SessionConfig, states: seq<System>, steps: seq<Step>) {
    && |states| == |steps| + 1
    && states[0] == Initial(config)
    && forall i {:trigger steps[i]} | 0 <= i < |steps| ::
         Enabled(states[i], steps[i]) && states[i + 1] == Next(states[i], steps[i])
  }
}
