/** The persistence contract of a session backend, as relations between the store before
    an operation, its input, its answer and the store after it.

    The relations leave open what the contract leaves open: which failure is reported when
    several apply, whether a rotation or a mismatch releases the lease, whether a hash that
    was rotated out is still found, and at which instant between the acquisition and the
    commit (`judgedAt`) the backend judges expiry. A failed operation has no effect. */
module RepositoryContract {
  import opened Wrappers
  import opened Sessions

  /** One persisted session with its active refresh token. */
  datatype StoredSession = StoredSession(session: Session, hash: TokenHash, refresh: SessionRefreshRecord)
  {
    function Revoke(): StoredSession {
      StoredSession(session.Revoke(), hash, refresh.(revoked := true))
    }
  }

  datatype Store = Store(
    sessions: map<SessionId, StoredSession>,
    families: map<FamilyId, SessionFamilyRecord>,
    leases: map<SessionId, RenewalLease>)

  datatype RepositoryError =
    | SessionNotFound
    | SessionFamilyNotFound
    | Conflict
    | InvalidState
    | Backend(message: string)

  datatype CreateSession = CreateSession(session: Session, hash: TokenHash)

  datatype RotateRefreshToken = RotateRefreshToken(
    sessionId: SessionId,
    family: SessionFamilyRecord,
    lease: RenewalLease,
    previous: TokenHash,
    next: TokenHash,
    nextSession: Session)

  datatype RotateOutcome = Rotated | SessionMissing | LeaseUnavailable | RefreshTokenMismatch

  datatype RevokeScope = CurrentSession | SessionFamily

  /** The session exists and neither it, its refresh token nor its family is revoked. */
  ghost predicate Live(store: Store, id: SessionId) {
    && id in store.sessions
    && var stored := store.sessions[id];
    && !stored.session.revoked
    && !stored.refresh.revoked
    && stored.session.familyId in store.families
    && !store.families[stored.session.familyId].revoked
  }

  /** The stored lease of the session is the given one and has not expired at `at`. */
  ghost predicate HoldsLease(store: Store, id: SessionId, leaseId: LeaseId, at: Time) {
    id in store.leases && store.leases[id].leaseId == leaseId && store.leases[id].IsActiveAt(at)
  }

  /** The combined record a lookup returns. */
  function Snapshot(store: Store, id: SessionId): SessionLookup
    requires id in store.sessions && store.sessions[id].session.familyId in store.families
  {
    var stored := store.sessions[id];
    SessionLookup(stored.session, store.families[stored.session.familyId], stored.refresh)
  }

  ghost predicate Created(pre: Store, input: CreateSession, post: Store) {
    var session := input.session;
    && session.sessionId !in pre.sessions
    && post.sessions == pre.sessions[session.sessionId := StoredSession(session, input.hash, NewRefreshRecord(session))]
    && post.families == (if session.familyId in pre.families then pre.families
                         else pre.families[session.familyId :=
                                SessionFamilyRecord(session.familyId, session.subjectId, session.createdAt, false)])
    && post.leases == pre.leases
  }

  /** `known` are the hashes a session ever had as its active one. */
  ghost predicate LookedUp(pre: Store, known: map<TokenHash, SessionId>, hash: TokenHash,
                           found: Option<SessionLookup>) {
    match found
    case Some(lookup) =>
      && hash in known
      && known[hash] in pre.sessions
      && pre.sessions[known[hash]].session.familyId in pre.families
      && lookup == Snapshot(pre, known[hash])
    case None =>
      forall id | id in pre.sessions && Live(pre, id) :: pre.sessions[id].hash != hash
  }

  ghost predicate LeaseAnswered(pre: Store, id: SessionId, lease: RenewalLease, judgedAt: Time,
                                answer: LeaseAcquisition, post: Store) {
    && post.sessions == pre.sessions
    && post.families == pre.families
    && match answer {
         case Acquired(granted) =>
           && granted == lease
           && Live(pre, id)
           && (id in pre.leases ==> !pre.leases[id].IsActiveAt(judgedAt))
           && post.leases == pre.leases[id := lease]
         case HeldByOther(active) =>
           && id in pre.leases
           && pre.leases[id] == active
           && active.IsActiveAt(judgedAt)
           && post.leases == pre.leases
         case Unavailable =>
           && (!Live(pre, id) || pre.sessions[id].session.expiresAt <= judgedAt)
           && post.leases == pre.leases
       }
  }

  ghost predicate RotationAnswered(pre: Store, input: RotateRefreshToken, judgedAt: Time, outcome: RotateOutcome,
                                   post: Store) {
    var id := input.sessionId;
    match outcome
    case Rotated =>
      && Live(pre, id)
      && HoldsLease(pre, id, input.lease.leaseId, judgedAt)
      && pre.sessions[id].hash == input.previous
      && post.sessions ==
        pre.sessions[id := StoredSession(input.nextSession, input.next, NewRefreshRecord(input.nextSession))]
      && post.families == pre.families
      && (post.leases == pre.leases || post.leases == pre.leases - {id})
    case SessionMissing =>
      && (!Live(pre, id) || pre.sessions[id].session.expiresAt <= judgedAt)
      && post == pre
    case LeaseUnavailable =>
      && !HoldsLease(pre, id, input.lease.leaseId, judgedAt)
      && post == pre
    case RefreshTokenMismatch =>
      && id in pre.sessions
      && pre.sessions[id].hash != input.previous
      && post.sessions == pre.sessions
      && post.families == pre.families
      && (|| post.leases == pre.leases
          || (id in pre.leases && pre.leases[id].leaseId == input.lease.leaseId && post.leases == pre.leases - {id}))
  }

  ghost predicate SessionRevoked(pre: Store, id: SessionId, post: Store) {
    && id in pre.sessions
    && post.sessions == pre.sessions[id := pre.sessions[id].Revoke()]
    && post.families == pre.families
    && (post.leases == pre.leases || post.leases == pre.leases - {id})
  }

  function RevokeMembers(sessions: map<SessionId, StoredSession>, family: FamilyId): map<SessionId, StoredSession> {
    map id | id in sessions ::
      if sessions[id].session.familyId == family then sessions[id].Revoke() else sessions[id]
  }

  ghost predicate FamilyRevoked(pre: Store, family: FamilyId, post: Store) {
    && family in pre.families
    && post.families == pre.families[family := pre.families[family].(revoked := true)]
    && post.sessions == RevokeMembers(pre.sessions, family)
    && post.leases.Keys <= pre.leases.Keys
    && (forall id | id in post.leases :: post.leases[id] == pre.leases[id])
    && (forall id | id in pre.leases && id !in post.leases ::
          id in pre.sessions && pre.sessions[id].session.familyId == family)
  }

  ghost predicate Touched(pre: Store, id: SessionId, at: Time, post: Store) {
    && id in pre.sessions
    && post == pre.(sessions := pre.sessions[id := pre.sessions[id].(session := pre.sessions[id].session.Touched(at))])
  }
}
