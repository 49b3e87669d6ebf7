/** Issuing, renewing and revoking sessions, one call at a time, over the in-process
    repository. Drawn identifiers, the clock and what the token issuers answer are inputs. */
module RenewalService {
  import opened Wrappers
  import opened Sessions
  import opened RepositoryContract
  import opened MemoryRepository
  import opened Tokens

  datatype SessionError = Token(error: TokenError) | Repository(cause: RepositoryError)

  datatype Persisted = Persisted(store: Store, index: map<TokenHash, SessionId>)

  /** One call of `renew_session`. */
  datatype Call = Call(
    state: AuthTokenState,
    requirement: RenewalRequirement,
    hash: Option<TokenHash>,
    now: Time,
    leaseId: LeaseId,
    issued: Result<IssuedTokens, TokenError>)

  datatype Answer = Answer(result: Result<RenewalOutcome, SessionError>, after: Persisted)

  /** The presented hash leads to a session that is active, with its family and refresh
      token, at `now`. */
  predicate Eligible(b: Persisted, hash: TokenHash, now: Time) {
    && hash in b.index
    && b.index[hash] in b.store.sessions
    && b.store.sessions[b.index[hash]].session.familyId in b.store.families
    && Snapshot(b.store, b.index[hash]).IsActiveAt(now)
  }

  /** A valid lease of the session is stored. */
  predicate Leased(b: Persisted, id: SessionId, now: Time) {
    id in b.store.leases && b.store.leases[id].IsActiveAt(now)
  }

  /** The outcome table of a renewal that runs without interference. */
  function Outcome(config: SessionConfig, b: Persisted, call: Call): Answer {
    if call.state.Valid? then Answer(Success(NotNeeded), b)
    else if call.state.Invalid? then Answer(Success(Rejected), b)
    else if call.hash.None? then Answer(Failure(Token(HashFailed)), b)
    else if !Eligible(b, call.hash.value, call.now) then Answer(Success(Rejected), b)
    else OutcomeOfEligible(config, b, call)
  }

  function OutcomeOfEligible(config: SessionConfig, b: Persisted, call: Call): Answer
    requires call.hash.Some? && Eligible(b, call.hash.value, call.now)
  {
    var id := b.index[call.hash.value];
    if Leased(b, id, call.now) then
      Answer(Success(Contended(HeldByOther(b.store.leases[id]))), b)
    else
      var lease := LeaseFromTtl(id, call.leaseId, call.now, config.renewalLeaseTtl);
      OutcomeOfHolder(config, b.(store := b.store.(leases := b.store.leases[id := lease])), id, call)
  }

  /** With the lease in hand: without tokens the lease stays; otherwise the session is extended
      under its new hash and the lease is released. */
  function OutcomeOfHolder(config: SessionConfig, b: Persisted, id: SessionId, call: Call): Answer
    requires call.hash.Some? && id in b.store.sessions
  {
    if call.issued.Failure? then
      Answer(Failure(Token(call.issued.error)), b)
    else
      var next :=
        b.store.sessions[id].session.(lastSeenAt := Some(call.now), expiresAt := call.now + config.refreshTokenTtl);
      var hash := call.issued.value.hash;
      Answer(Success(Renewed(next, call.issued.value.pair)),
             Persisted(b.store.(sessions := b.store.sessions[id := StoredSession(next, hash, NewRefreshRecord(next))],
                                leases := b.store.leases - {id}),
                       (b.index - {call.hash.value})[hash := id]))
  }

  class SessionRenewer {
    const config: SessionConfig
    const repository: MemorySessionRepository
    const hasher: string -> Option<TokenHash>

    constructor (config: SessionConfig, repository: MemorySessionRepository, hasher: string -> Option<TokenHash>)
      requires IsValid(config)
      ensures this.config == config && this.repository == repository && this.hasher == hasher
    {
      this.config, this.repository, this.hasher := config, repository, hasher;
    }

    /** A renewer is built from a valid configuration only. */
    static method Create(config: SessionConfig, repository: MemorySessionRepository,
                         hasher: string -> Option<TokenHash>)
      returns (r: Result<SessionRenewer, ConfigError>)
      ensures r.Success? <==> IsValid(config)
      ensures r.Success? ==>
              fresh(r.value) && r.value.config == config && r.value.repository == repository && r.value.hasher == hasher
    {
      if Validate(config).Failure? {
        return Failure(InvalidConfig);
      }
      var renewer := new SessionRenewer(config, repository, hasher);
      return Success(renewer);
    }

    ghost function View(): Persisted
      reads repository
    {
      Persisted(repository.State(), repository.refreshIndex)
    }

    /** The hash of a token pair issued from these draws, if there is one, is in no use. */
    ghost predicate WouldBeFresh(draws: Draws)
      reads repository
    {
      var issued := IssueForSubject(hasher, draws);
      issued.Success? ==> repository.Unused(issued.value.hash)
    }

    method RenewSession(state: AuthTokenState, requirement: RenewalRequirement, refreshToken: string, now: Time,
        leaseId: LeaseId, draws: Draws) returns (r: Result<RenewalOutcome, SessionError>)
      requires IsValid(config)
      modifies repository
      ensures old(repository.Valid()) ==>
                Answer(r, View()) == Outcome(config, old(View()),
                                             Call(state, requirement, hasher(refreshToken), now, leaseId,
                                                  IssueForSubject(hasher, draws)))
      ensures r.Success? && r.value.Renewed? ==>
                && Some(r.value.pair.authToken) == draws.authToken
                && Some(r.value.pair.refresh) == draws.refreshToken
      ensures old(repository.Valid() && WouldBeFresh(draws)) ==> repository.Valid()
    {
      match DecideForState(state, requirement) {
        case NoRenewal => return Success(NotNeeded);
        case Reject => return Success(Rejected);
        case _ =>
      }
      var presented := hasher(refreshToken);
      if presented.None? {
        return Failure(Token(HashFailed));
      }
      var found := repository.FindSessionByRefreshTokenHash(presented.value);
      if found.None? {
        return Success(Rejected);
      }
      if !found.value.IsActiveAt(now) {
        return Success(Rejected);
      }
      match DecideForState(state, requirement) {
        case NoRenewal => return Success(NotNeeded);
        case Reject => return Success(Rejected);
        case _ =>
      }
      r := RenewFound(found.value, presented.value, now, leaseId, draws,
                      Call(state, requirement, presented, now, leaseId, IssueForSubject(hasher, draws)));
    }

    /** The second half of `RenewSession`, from the lease on. */
    method RenewFound(lookup: SessionLookup, presented: TokenHash, now: Time, leaseId: LeaseId, draws: Draws,
                      ghost call: Call)
      returns (r: Result<RenewalOutcome, SessionError>)
      requires IsValid(config)
      requires call == Call(call.state, call.requirement, Some(presented), now, leaseId, IssueForSubject(hasher, draws))
      modifies repository
      ensures (&& old(repository.Valid()) && Eligible(old(View()), presented, now)
               && lookup == Snapshot(old(repository.State()), old(repository.refreshIndex)[presented]))
              ==> Answer(r, View()) == OutcomeOfEligible(config, old(View()), call)
      ensures r.Success? && r.value.Renewed? ==>
                && Some(r.value.pair.authToken) == draws.authToken
                && Some(r.value.pair.refresh) == draws.refreshToken
      ensures old(repository.Valid() && WouldBeFresh(draws)) && !lookup.session.revoked ==> repository.Valid()
    {
      var id := lookup.session.sessionId;
      ghost var good := && repository.Valid() && Eligible(View(), presented, now)
                        && lookup == Snapshot(repository.State(), repository.refreshIndex[presented]);
      assert good ==> Live(repository.State(), id) && repository.refreshIndex[presented] == id;
      var proposed := LeaseFromTtl(id, leaseId, now, config.renewalLeaseTtl);
      var acquisition := repository.TryAcquireRenewalLease(id, proposed);
      if acquisition.Failure? {
        return Failure(Repository(acquisition.error));
      }
      if !acquisition.value.Acquired? {
        assert good ==> Leased(old(View()), id, now) && View() == old(View());
        return Success(Contended(acquisition.value));
      }
      assert good ==> !Leased(old(View()), id, now);
      r := RenewHeld(lookup, presented, acquisition.value.lease, now, draws, call);
    }

    /** The session of the lookup still exists, with the family record that the lookup returned. */
    ghost predicate HasFamilyOf(lookup: SessionLookup)
      reads repository
    {
      var id := lookup.session.sessionId;
      && id in repository.sessions
      && repository.sessions[id].session.familyId == lookup.session.familyId == lookup.family.familyId
      && lookup.session.familyId in repository.families
      && repository.families[lookup.session.familyId] == lookup.family
    }

    ghost predicate IsLive(lookup: SessionLookup)
      reads repository
    {
      Live(repository.State(), lookup.session.sessionId)
    }

    ghost predicate Holds(lookup: SessionLookup, lease: RenewalLease)
      reads repository
    {
      HoldsLease(repository.State(), lookup.session.sessionId, lease.leaseId, lease.acquiredAt)
    }

    /** The last part of `RenewSession`, with the lease acquired. */
    method RenewHeld(lookup: SessionLookup, presented: TokenHash, lease: RenewalLease, now: Time, draws: Draws,
                     ghost call: Call)
      returns (r: Result<RenewalOutcome, SessionError>)
      requires call ==
               Call(call.state, call.requirement, Some(presented), now, call.leaseId, IssueForSubject(hasher, draws))
      modifies repository
      ensures (&& old(repository.Valid()) && Eligible(old(View()), presented, now)
               && lookup == Snapshot(old(repository.State()), old(repository.refreshIndex)[presented])
               && lookup.session.sessionId in old(repository.leases)
               && old(repository.leases)[lookup.session.sessionId] == lease
               && lease.IsActiveAt(lease.acquiredAt))
              ==> Answer(r, View()) == OutcomeOfHolder(config, old(View()), lookup.session.sessionId, call)
      // whatever others did to the session since the lookup
      ensures IssueForSubject(hasher, draws).Success? && old(HasFamilyOf(lookup)) && !old(IsLive(lookup)) ==>
                r == Success(Rejected)
      ensures (&& IssueForSubject(hasher, draws).Success? && old(HasFamilyOf(lookup)) && old(IsLive(lookup))
               && !old(Holds(lookup, lease)))
              ==> r == Success(Contended(Unavailable))
      ensures (&& IssueForSubject(hasher, draws).Success? && old(HasFamilyOf(lookup)) && old(IsLive(lookup))
               && old(Holds(lookup, lease)) && old(repository.sessions)[lookup.session.sessionId].hash != presented)
              ==> && r == Success(ReplayDetected(lookup.session.sessionId))
                  && repository.sessions == RevokeMembers(old(repository.sessions), lookup.family.familyId)
                  && repository.families ==
                     old(repository.families)[lookup.family.familyId := lookup.family.(revoked := true)]
      ensures r.Success? && r.value.ReplayDetected? ==>
                && r.value.sessionId == lookup.session.sessionId
                && lookup.family.familyId in repository.families && repository.families[lookup.family.familyId].revoked
      ensures r.Success? && r.value.Renewed? ==>
                && Some(r.value.pair.authToken) == draws.authToken
                && Some(r.value.pair.refresh) == draws.refreshToken
      ensures old(repository.Valid() && WouldBeFresh(draws)) && !lookup.session.revoked ==> repository.Valid()
    {
      var id := lookup.session.sessionId;
      ghost var good := && repository.Valid() && Eligible(View(), presented, now)
                        && lookup == Snapshot(repository.State(), repository.refreshIndex[presented])
                        && id in repository.leases && repository.leases[id] == lease
                        && lease.IsActiveAt(lease.acquiredAt);
      assert good ==> Live(repository.State(), id) && repository.refreshIndex[presented] == id;
      var next := lookup.session.Touched(now);
      next := next.(expiresAt := now + config.refreshTokenTtl);
      var issued := IssueForSubject(hasher, draws);
      if issued.Failure? {
        return Failure(Token(issued.error));
      }
      var rotated := repository.RotateRefreshToken(
        RotateRefreshToken(next.sessionId, lookup.family, lease, presented, issued.value.hash, next));
      assert good ==> rotated == Success(Rotated);
      if rotated.Failure? {
        return Failure(Repository(rotated.error));
      }
      match rotated.value {
        case Rotated =>
          return Success(Renewed(next, issued.value.pair));
        case SessionMissing => return Success(Rejected);
        case LeaseUnavailable => return Success(Contended(Unavailable));
        case RefreshTokenMismatch =>
          var revoked := repository.RevokeFamily(lookup.family.familyId);
          if revoked.Failure? {
            return Failure(Repository(revoked.error));
          }
          return Success(ReplayDetected(lookup.session.sessionId));
      }
    }
  }

  datatype IssuedSession = IssuedSession(session: Session, tokens: IssuedTokens)

  class SessionIssuer {
    const config: SessionConfig
    const repository: MemorySessionRepository
    const hasher: string -> Option<TokenHash>

    constructor (config: SessionConfig, repository: MemorySessionRepository, hasher: string -> Option<TokenHash>)
      requires IsValid(config)
      ensures this.config == config && this.repository == repository && this.hasher == hasher
    {
      this.config, this.repository, this.hasher := config, repository, hasher;
    }

    /** An issuer is built from a valid configuration only. */
    static method Create(config: SessionConfig, repository: MemorySessionRepository,
                         hasher: string -> Option<TokenHash>)
      returns (r: Result<SessionIssuer, ConfigError>)
      ensures r.Success? <==> IsValid(config)
      ensures r.Success? ==>
              fresh(r.value) && r.value.config == config && r.value.repository == repository && r.value.hasher == hasher
    {
      if Validate(config).Failure? {
        return Failure(InvalidConfig);
      }
      var issuer := new SessionIssuer(config, repository, hasher);
      return Success(issuer);
    }

    /** Issues a session in a family of its own. With fresh ids and a fresh hash it fails only
        when the tokens cannot be issued. */
    method IssueSession(subjectId: string, now: Time, sessionId: SessionId, familyId: FamilyId, draws: Draws)
      returns (r: Result<IssuedSession, SessionError>)
      modifies repository
      ensures r.Success? ==>
                && r.value.session ==
                   Session(sessionId, familyId, subjectId, now, now + config.refreshTokenTtl, None, false)
                && Some(r.value.tokens.pair.authToken) == draws.authToken
                && Some(r.value.tokens.pair.refresh) == draws.refreshToken
                && Some(r.value.tokens.hash) == hasher(r.value.tokens.pair.refresh)
                && IssueForSubject(hasher, draws) == Success(r.value.tokens)
                && Created(old(repository.State()), CreateSession(r.value.session, r.value.tokens.hash),
                           repository.State())
                && repository.sessions[sessionId] ==
                   StoredSession(r.value.session, r.value.tokens.hash,
                                 SessionRefreshRecord(sessionId, familyId, now + config.refreshTokenTtl, false))
      ensures r.Failure? ==> repository.Unchanged(old(repository.State()), old(repository.refreshIndex))
      ensures sessionId !in old(repository.sessions) && familyId !in old(repository.families) ==>
                (r.Success? <==> IssueForSubject(hasher, draws).Success?)
      ensures (&& r.Success? && familyId !in old(repository.families)
               && old(repository.Valid()) && old(repository.Unused(IssueForSubject(hasher, draws).value.hash)))
              ==> && repository.Valid()
                  && forall at: Time | at < now + config.refreshTokenTtl ::
                       Eligible(Persisted(repository.State(), repository.refreshIndex), r.value.tokens.hash, at)
    {
      var session := NewSession(sessionId, familyId, subjectId, now, now + config.refreshTokenTtl);
      var tokens := IssueForSubject(hasher, draws);
      if tokens.Failure? {
        return Failure(Token(tokens.error));
      }
      var created := repository.CreateSession(CreateSession(session, tokens.value.hash));
      if created.Failure? {
        return Failure(Repository(created.error));
      }
      return Success(IssuedSession(session, tokens.value));
    }
  }

  datatype LogoutRequest = LogoutRequest(sessionId: SessionId, familyId: FamilyId, scope: RevokeScope)

  datatype LogoutOutcome = CurrentSessionRevoked | SessionFamilyRevoked

  class SessionRevoker {
    const repository: MemorySessionRepository

    constructor (repository: MemorySessionRepository)
      ensures this.repository == repository
    {
      this.repository := repository;
    }

    method RevokeSession(request: LogoutRequest) returns (r: Result<LogoutOutcome, SessionError>)
      modifies repository
      ensures r == Success(CurrentSessionRevoked) ==>
                && request.scope == CurrentSession
                && SessionRevoked(old(repository.State()), request.sessionId, repository.State())
      ensures r == Success(SessionFamilyRevoked) ==>
                && request.scope == SessionFamily
                && FamilyRevoked(old(repository.State()), request.familyId, repository.State())
      ensures r.Success? <==>
                if request.scope == CurrentSession then request.sessionId in old(repository.sessions)
                else request.familyId in old(repository.families)
      ensures r.Failure? ==> repository.Unchanged(old(repository.State()), old(repository.refreshIndex))
      ensures old(repository.Valid()) ==> repository.Valid()
    {
      var revoked: Result<(), RepositoryError>;
      match request.scope {
        case CurrentSession =>
          revoked := repository.RevokeSession(request.sessionId, CurrentSession);
          r := Success(CurrentSessionRevoked);
        case SessionFamily =>
          revoked := repository.RevokeFamily(request.familyId);
          r := Success(SessionFamilyRevoked);
      }
      if revoked.Failure? {
        return Failure(Repository(revoked.error));
      }
    }
  }

  // ---- consequences of the outcome table ----

  predicate IsRenewed(answer: Answer) {
    answer.result.Success? && answer.result.value.Renewed?
  }

  /** The hash leads to a live session whose records have not expired. */
  ghost predicate IsUsable(b: Persisted, hash: TokenHash, now: Time) {
    && hash in b.index
    && var id := b.index[hash];
    && Live(b.store, id)
    && now < b.store.sessions[id].session.expiresAt && now < b.store.sessions[id].refresh.expiresAt
  }

  /** The stored lease that keeps a renewal out. */
  ghost predicate IsBlockedBy(b: Persisted, hash: TokenHash, now: Time, lease: RenewalLease) {
    && hash in b.index && b.index[hash] in b.store.leases
    && b.store.leases[b.index[hash]] == lease && now < lease.leaseUntil
  }

  /** When each answer is given, in terms of the stored records alone. */
  lemma AnsweredExactlyWhen(config: SessionConfig, b: Persisted, call: Call)
    ensures var result := Outcome(config, b, call).result;
            && (result == Success(NotNeeded) <==> call.state.Valid?)
            && (result == Success(Rejected) <==>
                  || call.state.Invalid?
                  || (NeedsRenewal(call.state) && call.hash.Some? && !IsUsable(b, call.hash.value, call.now)))
            && (forall acquisition :: result == Success(Contended(acquisition)) <==>
                  && NeedsRenewal(call.state) && call.hash.Some? && IsUsable(b, call.hash.value, call.now)
                  && acquisition.HeldByOther? && IsBlockedBy(b, call.hash.value, call.now, acquisition.activeLease))
            && (forall error :: result == Failure(error) <==>
                  && NeedsRenewal(call.state)
                  && if call.hash.None? then error == Token(HashFailed)
                     else
                       && IsUsable(b, call.hash.value, call.now)
                       && (forall lease :: !IsBlockedBy(b, call.hash.value, call.now, lease))
                       && call.issued.Failure? && error == Token(call.issued.error))
  {
  }

  /** When a renewal succeeds, and with which session and tokens. */
  lemma RenewedExactlyWhen(config: SessionConfig, b: Persisted, call: Call)
    requires call.hash.Some?
    ensures IsRenewed(Outcome(config, b, call)) <==>
            && NeedsRenewal(call.state) && call.issued.Success?
            && IsUsable(b, call.hash.value, call.now)
            && forall lease :: !IsBlockedBy(b, call.hash.value, call.now, lease)
    ensures IsRenewed(Outcome(config, b, call)) ==>
            && var was := b.store.sessions[b.index[call.hash.value]].session;
            && Outcome(config, b, call).result.value.session ==
               Session(was.sessionId, was.familyId, was.subjectId, was.createdAt,
                       call.now + config.refreshTokenTtl, Some(call.now), was.revoked)
            && Outcome(config, b, call).result.value.pair == call.issued.value.pair
  {
    if call.hash.value in b.index && b.index[call.hash.value] in b.store.leases {
      var lease := b.store.leases[b.index[call.hash.value]];
      assert IsBlockedBy(b, call.hash.value, call.now, lease) <==> call.now < lease.leaseUntil;
    }
  }

  /** What each answer leaves stored: a renewed session is stored as returned under the hash of
      its new token, without a lease; tokens that cannot be issued leave the lease; any other
      answer leaves everything as it was. */
  lemma StoredExactly(config: SessionConfig, b: Persisted, call: Call)
    ensures var answer := Outcome(config, b, call);
            if IsRenewed(answer) then
              var session, hash := answer.result.value.session, call.issued.value.hash;
              var id, after := b.index[call.hash.value], answer.after;
              && after.store.families == b.store.families
              && after.store.sessions.Keys == b.store.sessions.Keys
              && (forall other | other in b.store.sessions && other != id ::
                    after.store.sessions[other] == b.store.sessions[other])
              && after.store.sessions[id] ==
                 StoredSession(session, hash,
                               SessionRefreshRecord(session.sessionId, session.familyId, session.expiresAt, false))
              && id !in after.store.leases
              && (forall other | other != id ::
                    && (other in after.store.leases <==> other in b.store.leases)
                    && (other in b.store.leases ==> after.store.leases[other] == b.store.leases[other]))
              && hash in after.index && after.index[hash] == id
              && (call.hash.value != hash ==> call.hash.value !in after.index)
            else if answer.result.Failure? && call.hash.Some? then
              var id := b.index[call.hash.value];
              answer.after == b.(store := b.store.(leases := b.store.leases[id :=
                RenewalLease(id, call.leaseId, call.now, call.now + config.renewalLeaseTtl)]))
            else answer.after == b
  {
  }

  /** Over this backend a rotated-out token is only rejected: presenting it again, at any
      later time, changes nothing. It is not reported as a replay and revokes no family. */
  lemma ConsumedTokenIsOnlyRejected(config: SessionConfig, b: Persisted, first: Call, again: Call)
    requires IsRenewed(Outcome(config, b, first))
    requires again.hash == first.hash && first.issued.value.hash != first.hash.value && NeedsRenewal(again.state)
    ensures var after := Outcome(config, b, first).after;
            Outcome(config, after, again) == Answer(Success(Rejected), after)
  {
  }

  /** The lease of a renewal that failed to issue tokens blocks the session until it
      expires, and not longer. */
  lemma AbandonedLeaseBlocksUntilItExpires(config: SessionConfig, b: Persisted, first: Call, second: Call)
    requires NeedsRenewal(first.state) && first.hash.Some? && Eligible(b, first.hash.value, first.now)
    requires !Leased(b, b.index[first.hash.value], first.now) && first.issued.Failure?
    requires NeedsRenewal(second.state) && second.hash == first.hash && second.issued.Success?
    requires Eligible(b, second.hash.value, second.now)
    ensures IsRenewed(Outcome(config, Outcome(config, b, first).after, second)) <==>
            first.now + config.renewalLeaseTtl <= second.now
  {
  }

  /** A renewed session is renewed again with its new token exactly while it has not expired,
      and its lifetime then counts from the second renewal. */
  lemma RenewalsChain(config: SessionConfig, b: Persisted, first: Call, second: Call)
    requires IsRenewed(Outcome(config, b, first))
    requires NeedsRenewal(second.state) && second.hash == Some(first.issued.value.hash) && second.issued.Success?
    ensures var next := Outcome(config, Outcome(config, b, first).after, second);
            && (IsRenewed(next) <==> second.now < first.now + config.refreshTokenTtl)
            && (IsRenewed(next) ==>
                  && next.result.value.session.expiresAt == second.now + config.refreshTokenTtl
                  && next.result.value.session.Identity() == Outcome(config, b, first).result.value.session.Identity())
  {
  }

  /** After a revocation of the session or of its family every renewal of it is rejected. */
  lemma RevokedSessionIsRejected(config: SessionConfig, b: Persisted, call: Call)
    requires NeedsRenewal(call.state) && call.hash.Some?
    requires call.hash.value in b.index ==> !Live(b.store, b.index[call.hash.value])
    ensures Outcome(config, b, call) == Answer(Success(Rejected), b)
  {
  }
}
