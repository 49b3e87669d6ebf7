/** The in-process session backend: four hash maps behind one mutex. A method takes it once and
    is one atomic step, except for the revocation of a session's family, which looks the family
    up under the mutex and takes it again to revoke. Every method is shown to keep the persistence contract, with expiry
    judged at the `acquiredAt` of the lease the caller passes. */
module MemoryRepository {
  import opened Wrappers
  import opened Sessions
  import opened RepositoryContract

  /** The sessions with the given ids revoked. */
  ghost function PartlyRevoked(sessions: map<SessionId, StoredSession>,
                               ids: set<SessionId>): map<SessionId, StoredSession> {
    map id | id in sessions :: if id in ids then sessions[id].Revoke() else sessions[id]
  }

  lemma RevokedOneMore(sessions: map<SessionId, StoredSession>, ids: set<SessionId>, id: SessionId)
    requires id in sessions && id !in ids
    ensures PartlyRevoked(sessions, ids + {id}) ==
            PartlyRevoked(sessions, ids)[id := PartlyRevoked(sessions, ids)[id].Revoke()]
  {
  }

  lemma MembersRevoked(sessions: map<SessionId, StoredSession>, family: FamilyId)
    ensures PartlyRevoked(sessions, set id | id in sessions && sessions[id].session.familyId == family) ==
            RevokeMembers(sessions, family)
  {
  }

  class MemorySessionRepository {
    var sessions: map<SessionId, StoredSession>
    var refreshIndex: map<TokenHash, SessionId>
    var families: map<FamilyId, SessionFamilyRecord>
    var leases: map<SessionId, RenewalLease>

    ghost function State(): Store
      reads this
    {
      Store(sessions, families, leases)
    }

    /** Records agree with their keys, and the index leads from the hash of every session
        that is not revoked to that session and nowhere else. */
    ghost predicate Valid()
      reads this
    {
      && (forall id | id in sessions ::
            && sessions[id].session.sessionId == id
            && sessions[id].session.familyId in families
            && families[sessions[id].session.familyId].familyId == sessions[id].session.familyId
            && sessions[id].refresh.revoked == sessions[id].session.revoked
            && (!sessions[id].session.revoked ==>
                  sessions[id].hash in refreshIndex && refreshIndex[sessions[id].hash] == id))
      && (forall h | h in refreshIndex ::
            refreshIndex[h] in sessions && sessions[refreshIndex[h]].hash == h
              && !sessions[refreshIndex[h]].session.revoked)
      && (forall i, j | i in sessions && j in sessions && i != j :: sessions[i].hash != sessions[j].hash)
    }

    /** No stored session has this hash. */
    ghost predicate Unused(hash: TokenHash)
      reads this
    {
      forall id | id in sessions :: sessions[id].hash != hash
    }

    ghost predicate Unchanged(state: Store, index: map<TokenHash, SessionId>)
      reads this
    {
      State() == state && refreshIndex == index
    }

    constructor ()
      ensures Valid() && State() == Store(map[], map[], map[]) && refreshIndex == map[]
    {
      sessions, refreshIndex, families, leases := map[], map[], map[], map[];
    }

    method CreateSession(input: CreateSession) returns (r: Result<(), RepositoryError>)
      modifies this
      ensures r.Success? ==> Created(old(State()), input, State())
      ensures r.Success? ==> refreshIndex == old(refreshIndex)[input.hash := input.session.sessionId]
      ensures r.Success? ==>
              && var session := input.session;
              && session.sessionId in sessions && session.familyId in families
              && sessions[session.sessionId] == StoredSession(
                   session, input.hash,
                   SessionRefreshRecord(session.sessionId, session.familyId, session.expiresAt, false))
              && (session.familyId !in old(families) ==>
                    families[session.familyId] ==
                    SessionFamilyRecord(session.familyId, session.subjectId, session.createdAt, false))
      ensures r.Failure? ==> Unchanged(old(State()), old(refreshIndex))
      ensures r == Failure(Conflict) <==> input.session.sessionId in old(sessions)
      ensures r == Failure(InvalidState) <==>
              && input.session.sessionId !in old(sessions)
              && input.session.familyId in old(families)
              && old(families)[input.session.familyId].subjectId != input.session.subjectId
      ensures r.Failure? ==> r.error in {Conflict, InvalidState}
      ensures (&& r.Success? && old(Valid() && Unused(input.hash)) && !input.session.revoked
               && (input.session.familyId in old(families) ==>
                 old(families)[input.session.familyId].familyId == input.session.familyId))
              ==> Valid()
    {
      var id, family := input.session.sessionId, input.session.familyId;
      if id in sessions {
        return Failure(Conflict);
      }
      var record := if family in families then families[family]
                    else SessionFamilyRecord(family, input.session.subjectId, input.session.createdAt, false);
      if record.subjectId != input.session.subjectId {
        return Failure(InvalidState);
      }
      families := families[family := record];
      refreshIndex := refreshIndex[input.hash := id];
      sessions := sessions[id := StoredSession(input.session, input.hash, NewRefreshRecord(input.session))];
      return Success(());
    }

    method FindSessionByRefreshTokenHash(hash: TokenHash) returns (found: Option<SessionLookup>)
      ensures Valid() ==> LookedUp(State(), refreshIndex, hash, found)
      ensures Valid() ==> (found.Some? <==> hash in refreshIndex)
      ensures Valid() && found.Some? ==>
                found.value.session.sessionId in sessions && sessions[found.value.session.sessionId].hash == hash
    {
      if hash !in refreshIndex {
        return None;
      }
      var id := refreshIndex[hash];
      if id !in sessions || sessions[id].session.familyId !in families {
        return None;
      }
      return Some(SessionLookup(sessions[id].session, families[sessions[id].session.familyId], sessions[id].refresh));
    }

    method TryAcquireRenewalLease(id: SessionId, lease: RenewalLease)
      returns (r: Result<LeaseAcquisition, RepositoryError>)
      modifies this`leases
      ensures r.Success? ==> LeaseAnswered(old(State()), id, lease, lease.acquiredAt, r.value, State())
      ensures r.Failure? ==> r.error == InvalidState && State() == old(State())
      ensures r.Failure? <==> id in sessions && sessions[id].session.familyId !in families
      ensures r.Success? ==> (r.value.Unavailable? <==> !Live(old(State()), id))
    {
      if id !in sessions {
        return Success(Unavailable);
      }
      var stored := sessions[id];
      if stored.session.familyId !in families {
        return Failure(InvalidState);
      }
      if stored.session.revoked || stored.refresh.revoked || families[stored.session.familyId].revoked {
        return Success(Unavailable);
      }
      if id in leases && leases[id].IsActiveAt(lease.acquiredAt) {
        return Success(HeldByOther(leases[id]));
      }
      leases := leases[id := lease];
      return Success(Acquired(lease));
    }

    method RotateRefreshToken(input: RotateRefreshToken) returns (r: Result<RotateOutcome, RepositoryError>)
      modifies this
      ensures r.Success? ==> RotationAnswered(old(State()), input, input.lease.acquiredAt, r.value, State())
      ensures r.Failure? ==> r.error in {Conflict, InvalidState}
      ensures !(r.Success? && r.value == Rotated) ==>
              sessions == old(sessions) && families == old(families) && refreshIndex == old(refreshIndex)
      ensures r.Failure? || r.value in {SessionMissing, LeaseUnavailable} ==> leases == old(leases)
      ensures r == Success(Rotated) ==>
              && refreshIndex == (old(refreshIndex) - {input.previous})[input.next := input.nextSession.sessionId]
              && leases == old(leases) - {input.sessionId}
              && input.nextSession.sessionId == input.sessionId
      ensures r == Success(RefreshTokenMismatch) ==> leases == old(leases) - {input.sessionId}
      // which check each refusal comes from
      ensures r == Success(SessionMissing) ==> !Live(old(State()), input.sessionId)
      ensures r.Success? && r.value in {LeaseUnavailable, RefreshTokenMismatch} ==> Live(old(State()), input.sessionId)
      ensures r == Success(RefreshTokenMismatch) ==>
              HoldsLease(old(State()), input.sessionId, input.lease.leaseId, input.lease.acquiredAt)
      ensures r == Failure(Conflict) <==>
              && input.sessionId in old(sessions) && old(sessions)[input.sessionId].session.familyId in old(families)
              && var family := old(families)[old(sessions)[input.sessionId].session.familyId];
              (family.familyId, family.subjectId, family.revoked)
              != (input.family.familyId, input.family.subjectId, input.family.revoked)
      ensures r == Failure(InvalidState) ==>
              && input.sessionId in old(sessions)
              && var familyId := old(sessions)[input.sessionId].session.familyId;
              || familyId !in old(families) || familyId != input.family.familyId
              || input.nextSession.sessionId != input.sessionId || input.nextSession.familyId != input.family.familyId
      // a caller whose own lease is stored is never told that it is unavailable, whatever the time
      ensures (&& input.sessionId in old(leases) && old(leases)[input.sessionId] == input.lease
               && input.lease.acquiredAt < input.lease.leaseUntil)
              ==> r != Success(LeaseUnavailable)
      // the complete condition of success
      ensures r == Success(Rotated) <==>
              && input.sessionId in old(sessions)
              && var stored := old(sessions)[input.sessionId];
              && stored.session.familyId in old(families)
              && var family := old(families)[stored.session.familyId];
              && family.familyId == input.family.familyId == stored.session.familyId
              && family.subjectId == input.family.subjectId
              && !family.revoked && !input.family.revoked && !stored.session.revoked && !stored.refresh.revoked
              && HoldsLease(old(State()), input.sessionId, input.lease.leaseId, input.lease.acquiredAt)
              && stored.hash == input.previous
              && input.nextSession.sessionId == input.sessionId && input.nextSession.familyId == input.family.familyId
      ensures old(Valid() && Unused(input.next)) && !input.nextSession.revoked ==> Valid()
    {
      var id := input.sessionId;
      if id !in sessions {
        return Success(SessionMissing);
      }
      var stored := sessions[id];
      if stored.session.familyId !in families {
        return Failure(InvalidState);
      }
      var family := families[stored.session.familyId];
      if family.familyId != input.family.familyId || family.subjectId != input.family.subjectId
         || family.revoked != input.family.revoked {
        return Failure(Conflict);
      }
      if stored.session.familyId != input.family.familyId {
        return Failure(InvalidState);
      }
      if stored.session.revoked || stored.refresh.revoked || family.revoked {
        return Success(SessionMissing);
      }
      if !(id in leases && leases[id].leaseId == input.lease.leaseId && leases[id].IsActiveAt(input.lease.acquiredAt)) {
        return Success(LeaseUnavailable);
      }
      if stored.hash != input.previous {
        leases := leases - {id};
        return Success(RefreshTokenMismatch);
      }
      if input.nextSession.sessionId != id || input.nextSession.familyId != input.family.familyId {
        return Failure(InvalidState);
      }
      refreshIndex := refreshIndex - {stored.hash};
      refreshIndex := refreshIndex[input.next := input.nextSession.sessionId];
      leases := leases - {id};
      sessions := sessions[id := StoredSession(input.nextSession, input.next, NewRefreshRecord(input.nextSession))];
      return Success(Rotated);
    }

    /** Marks one stored session revoked and forgets its hash and lease. */
    method RevokeSingleSession(id: SessionId) returns (r: Result<(), RepositoryError>)
      modifies this`sessions, this`refreshIndex, this`leases
      ensures r.Success? <==> id in old(sessions)
      ensures r.Failure? ==> r.error == SessionNotFound && Unchanged(old(State()), old(refreshIndex))
      ensures r.Success? ==>
              && sessions == old(sessions)[id := old(sessions)[id].Revoke()]
              && sessions[id].session == old(sessions)[id].session.(revoked := true)
              && sessions[id].refresh == old(sessions)[id].refresh.(revoked := true)
              && sessions[id].hash == old(sessions)[id].hash
              && refreshIndex == old(refreshIndex) - {old(sessions)[id].hash}
              && leases == old(leases) - {id}
      ensures old(Valid()) ==> Valid()
    {
      if id !in sessions {
        return Failure(SessionNotFound);
      }
      refreshIndex := refreshIndex - {sessions[id].hash};
      sessions := sessions[id := sessions[id].Revoke()];
      leases := leases - {id};
      return Success(());
    }

    method RevokeSession(id: SessionId, scope: RevokeScope) returns (r: Result<(), RepositoryError>)
      modifies this
      ensures r.Success? && scope == CurrentSession ==> SessionRevoked(old(State()), id, State())
      ensures r.Success? && scope == SessionFamily ==>
              id in old(sessions) && FamilyRevoked(old(State()), old(sessions)[id].session.familyId, State())
      ensures r.Failure? ==> Unchanged(old(State()), old(refreshIndex))
      ensures id !in old(sessions) <==> r == Failure(SessionNotFound)
      ensures scope == CurrentSession || old(Valid()) ==> (r.Success? <==> id in old(sessions))
      ensures old(Valid()) ==> Valid()
      ensures r.Success? ==> !Live(State(), id)
    {
      match scope
      case CurrentSession =>
        r := RevokeSingleSession(id);
      case SessionFamily =>
        if id !in sessions {
          return Failure(SessionNotFound);
        }
        r := RevokeFamily(sessions[id].session.familyId);
    }

    method RevokeFamily(family: FamilyId) returns (r: Result<(), RepositoryError>)
      modifies this
      ensures r.Success? <==> family in old(families)
      ensures r.Failure? ==> r.error == SessionFamilyNotFound && Unchanged(old(State()), old(refreshIndex))
      ensures r.Success? ==> FamilyRevoked(old(State()), family, State())
      ensures r.Success? ==> families == old(families)[family := old(families)[family].(revoked := true)]
      ensures r.Success? ==>
                forall id | id in sessions && sessions[id].session.familyId == family ::
                  id !in leases && !Live(State(), id)
      ensures old(Valid()) ==> Valid()
    {
      if family !in families {
        return Failure(SessionFamilyNotFound);
      }
      families := families[family := families[family].(revoked := true)];
      assert old(Valid()) ==> Valid();
      var members := set id | id in sessions && sessions[id].session.familyId == family;
      RevokeAll(members);
      MembersRevoked(old(sessions), family);
      return Success(());
    }

    /** Revokes the given stored sessions one by one. */
    method RevokeAll(ids: set<SessionId>)
      requires ids <= sessions.Keys
      modifies this`sessions, this`refreshIndex, this`leases
      ensures sessions == PartlyRevoked(old(sessions), ids)
      ensures leases == old(leases) - ids
      ensures old(Valid()) ==> Valid()
    {
      var pending := ids;
      while pending != {}
        invariant pending <= ids
        invariant sessions == PartlyRevoked(old(sessions), ids - pending)
        invariant leases == old(leases) - (ids - pending)
        invariant old(Valid()) ==> Valid()
        decreases pending
      {
        var id :| id in pending;
        RevokedOneMore(old(sessions), ids - pending, id);
        assert ids - (pending - {id}) == (ids - pending) + {id};
        pending := pending - {id};
        var one := RevokeSingleSession(id);
      }
    }

    method TouchSession(id: SessionId, at: Time) returns (r: Result<(), RepositoryError>)
      modifies this`sessions
      ensures r.Success? <==> id in old(sessions)
      ensures r.Success? ==>
              && Touched(old(State()), id, at, State())
              && sessions == old(sessions)[id := old(sessions)[id].(
                   session := old(sessions)[id].session.(lastSeenAt := Some(at)))]
      ensures r.Failure? ==> r.error == SessionNotFound && State() == old(State())
      ensures old(Valid()) ==> Valid()
    {
      if id !in sessions {
        return Failure(SessionNotFound);
      }
      sessions := sessions[id := sessions[id].(session := sessions[id].session.Touched(at))];
      return Success(());
    }
  }
}
