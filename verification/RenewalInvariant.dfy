/** The inductive invariant of the renewal protocol. */
module RenewalInvariant {
  import opened Wrappers
  import opened Sessions
  import opened RepositoryContract
  import opened RenewalProtocol

  /** Records agree with their keys, every session has a family of its own, and a revoked
      family has only revoked sessions. */
  ghost predicate RecordsAgree(s: System) {
    && (forall id | id in s.store.sessions ::
          && id in s.sessionIds
          && s.store.sessions[id].session.sessionId == id
          && s.store.sessions[id].session.familyId in s.store.families
          && s.store.sessions[id].refresh.revoked == s.store.sessions[id].session.revoked
          && (s.store.families[s.store.sessions[id].session.familyId].revoked ==> s.store.sessions[id].session.revoked))
    && (forall f | f in s.store.families :: f in s.familyIds && s.store.families[f].familyId == f)
    && (forall i, j | i in s.store.sessions && j in s.store.sessions && i != j ::
          s.store.sessions[i].session.familyId != s.store.sessions[j].session.familyId)
  }

  /** Hashes belong to one session each; presented ones that were drawn had been returned. */
  ghost predicate HashesAgree(s: System) {
    && (forall id | id in s.store.sessions ::
          s.store.sessions[id].hash in s.known && s.known[s.store.sessions[id].hash] == id)
    && (forall h | h in s.known :: h in s.drawn && s.known[h] in s.store.sessions)
    && s.released <= s.known.Keys
    && s.presented * s.drawn <= s.released
  }

  ghost predicate LeasesAgree(s: System) {
    forall id | id in s.store.leases :: s.store.leases[id].leaseId in s.leaseIds
  }

  ghost predicate ExpiryBounded(s: System) {
    forall id | id in s.store.sessions :: s.store.sessions[id].session.expiresAt <= s.clock + s.config.refreshTokenTtl
  }

  /** The snapshot a renewal holds describes the session of its presented hash. */
  ghost predicate SnapshotAgrees(s: System, presented: TokenHash, lookup: SessionLookup) {
    var id := lookup.session.sessionId;
    && presented in s.known && s.known[presented] == id
    && id in s.store.sessions
    && lookup.session.Identity() == s.store.sessions[id].session.Identity()
    && lookup.family.familyId == lookup.session.familyId
    && !lookup.session.revoked
  }

  ghost predicate LeaseAgrees(s: System, now: Time, lookup: SessionLookup, lease: RenewalLease) {
    && lease == LeaseFromTtl(lookup.session.sessionId, lease.leaseId, now, s.config.renewalLeaseTtl)
    && lease.leaseId in s.leaseIds
  }

  /** A hash that was drawn for a write that has not happened. */
  ghost predicate Pending(s: System, hash: TokenHash) {
    hash in s.drawn && hash !in s.known
  }

  ghost predicate RequestAgrees(s: System, request: Request) {
    match request
    case Renewal(now, presented, phase) =>
      && now <= s.clock
      && presented in s.presented
      && (match phase
          case Presented => true
          case Found(lookup) => SnapshotAgrees(s, presented, lookup)
          case Holding(lookup, lease) => SnapshotAgrees(s, presented, lookup) && LeaseAgrees(s, now, lookup, lease)
          case Ready(lookup, lease, pair) =>
            SnapshotAgrees(s, presented, lookup) && LeaseAgrees(s, now, lookup, lease) && Pending(s, pair.refresh)
          case Committed(_, pair) => pair.refresh in s.known
          case Replayed(lookup) =>
            && SnapshotAgrees(s, presented, lookup)
            && presented != s.store.sessions[lookup.session.sessionId].hash
          case Answered(outcome) => true
          case Failed => true)
    case Issuance(session, pair, stage) =>
      && session.sessionId in s.sessionIds && session.familyId in s.familyIds
      && !session.revoked
      && session.expiresAt <= s.clock + s.config.refreshTokenTtl
      && (stage.Drawn? ==>
            && session.sessionId !in s.store.sessions && session.familyId !in s.store.families
            && Pending(s, pair.refresh))
      && (stage.Persisted? || stage.Returned? ==> pair.refresh in s.known)
  }

  ghost predicate RequestsAgree(s: System) {
    forall r | r in s.requests :: RequestAgrees(s, s.requests[r])
  }

  predicate HasPending(request: Request) {
    match request
    case Renewal(_, _, phase) => phase.Ready?
    case Issuance(_, _, stage) => stage.Drawn?
  }

  function PendingHash(request: Request): TokenHash
    requires HasPending(request)
  {
    match request
    case Renewal(_, _, phase) => phase.pair.refresh
    case Issuance(_, pair, _) => pair.refresh
  }

  /** Requests do not share drawn hashes or ids. */
  ghost predicate DrawsDiffer(s: System) {
    forall q, r | q in s.requests && r in s.requests && q != r ::
      && (HasPending(s.requests[q]) && HasPending(s.requests[r]) ==>
            PendingHash(s.requests[q]) != PendingHash(s.requests[r]))
      && (s.requests[q].Issuance? && s.requests[r].Issuance? ==>
            && s.requests[q].session.sessionId != s.requests[r].session.sessionId
            && s.requests[q].session.familyId != s.requests[r].session.familyId)
  }

  /** Holding a lease between its acquisition and the rotation. */
  predicate MayRotate(request: Request) {
    request.Renewal? && (request.phase.Holding? || request.phase.Ready?)
  }

  function LeaseOf(request: Request): RenewalLease
    requires MayRotate(request)
  {
    request.phase.lease
  }

  /** A lease that has not expired is the stored one or its session is revoked, and no two
      requests hold unexpired leases of one session. */
  ghost predicate LeasesFence(s: System) {
    && (forall r | r in s.requests && MayRotate(s.requests[r]) && LeaseOf(s.requests[r]).IsActiveAt(s.clock) ::
          var lease := LeaseOf(s.requests[r]);
          || !Live(s.store, lease.sessionId)
          || (lease.sessionId in s.store.leases && s.store.leases[lease.sessionId] == lease))
    && (forall q, r | q in s.requests && r in s.requests && q != r
                      && MayRotate(s.requests[q]) && MayRotate(s.requests[r]) ::
          && LeaseOf(s.requests[q]).leaseId != LeaseOf(s.requests[r]).leaseId
          && !(LeaseOf(s.requests[q]).sessionId == LeaseOf(s.requests[r]).sessionId
               && LeaseOf(s.requests[q]).IsActiveAt(s.clock) && LeaseOf(s.requests[r]).IsActiveAt(s.clock)))
  }

  /** A renewal that presents the active hash of a session started no earlier than the
      renewal or issuance that set the session's expiry. */
  ghost predicate PresentersAreLater(s: System) {
    forall r, id | r in s.requests && s.requests[r].Renewal? && id in s.store.sessions
                   && s.requests[r].presented == s.store.sessions[id].hash ::
      s.store.sessions[id].session.expiresAt <= s.requests[r].now + s.config.refreshTokenTtl
  }

  /** The committed rotations of one session, against its stored record. */
  ghost predicate Chain(s: System, id: SessionId, log: seq<Rotation>)
    requires id in s.store.sessions
  {
    var stored := s.store.sessions[id];
    && (forall i | 0 <= i < |log| ::
          && log[i].previous in s.known && s.known[log[i].previous] == id
          && log[i].pair.refresh in s.known && s.known[log[i].pair.refresh] == id
          && log[i].previous != stored.hash
          && log[i].session.Identity() == stored.session.Identity())
    && (forall i | 0 <= i < |log| - 1 ::
          && log[i].pair.refresh == log[i + 1].previous
          && log[i].session.expiresAt <= log[i + 1].session.expiresAt)
    && (forall i, j | 0 <= i < j < |log| :: log[i].previous != log[j].previous)
    && (|log| > 0 ==>
          && log[|log| - 1].pair.refresh == stored.hash
          && log[|log| - 1].session.expiresAt == stored.session.expiresAt)
  }

  ghost predicate Chained(s: System) {
    && s.rotations.Keys == s.store.sessions.Keys
    && forall id | id in s.rotations :: Chain(s, id, s.rotations[id])
  }

  ghost predicate Consumed(log: seq<Rotation>, hash: TokenHash) {
    exists i :: 0 <= i < |log| && log[i].previous == hash
  }

  /** Every hash that ever was active is active still or was consumed by a rotation. */
  ghost predicate ConsumedOrActive(s: System) {
    forall h | h in s.known ::
      && s.known[h] in s.store.sessions && s.known[h] in s.rotations
      && (h == s.store.sessions[s.known[h]].hash || Consumed(s.rotations[s.known[h]], h))
  }

  /** `r` committed a rotation with these values. */
  ghost predicate CommittedBy(s: System, r: RequestId, session: Session, pair: TokenPair) {
    && session.sessionId in s.rotations
    && exists i :: 0 <= i < |s.rotations[session.sessionId]|
                   && s.rotations[session.sessionId][i] ==
                     Rotation(r, s.rotations[session.sessionId][i].previous, session, pair)
  }

  ghost predicate AnswerAgrees(s: System, r: RequestId, presented: TokenHash, phase: Phase) {
    match phase
    case Committed(session, pair) => CommittedBy(s, r, session, pair)
    case Answered(Renewed(session, pair)) => CommittedBy(s, r, session, pair) && pair.refresh in s.released
    case Answered(ReplayDetected(id)) =>
      && id in s.store.sessions && s.store.sessions[id].session.familyId in s.store.families
      && s.store.families[s.store.sessions[id].session.familyId].revoked
      && id in s.rotations && Consumed(s.rotations[id], presented)
    case _ => true
  }

  ghost predicate AnswersAgree(s: System) {
    forall r | r in s.requests && s.requests[r].Renewal? ::
      AnswerAgrees(s, r, s.requests[r].presented, s.requests[r].phase)
  }

  ghost predicate Inv(s: System) {
    && RecordsAgree(s)
    && HashesAgree(s)
    && LeasesAgree(s)
    && ExpiryBounded(s)
    && RequestsAgree(s)
    && DrawsDiffer(s)
    && LeasesFence(s)
    && PresentersAreLater(s)
    && Chained(s)
    && ConsumedOrActive(s)
    && AnswersAgree(s)
  }

  // ---- what a step keeps ----

  /** What no step ever undoes. */
  ghost predicate Grows(s: System, s': System) {
    && s'.config == s.config
    && s.clock <= s'.clock
    && (forall id | id in s.store.sessions ::
          && id in s'.store.sessions
          && s'.store.sessions[id].session.Identity() == s.store.sessions[id].session.Identity()
          && (s.store.sessions[id].session.revoked ==> s'.store.sessions[id].session.revoked))
    && (forall f | f in s.store.families ::
          f in s'.store.families && (s.store.families[f].revoked ==> s'.store.families[f].revoked))
    && (forall h | h in s.known :: h in s'.known && s'.known[h] == s.known[h])
    && (forall id | id in s.rotations :: id in s'.rotations && s.rotations[id] <= s'.rotations[id])
    && s.drawn <= s'.drawn
    && s.presented <= s'.presented
    && s.released <= s'.released
    && s.leaseIds <= s'.leaseIds
    && s.sessionIds <= s'.sessionIds
    && s.familyIds <= s'.familyIds
  }

  /** The steps that make a hash active. */
  predicate Installs(step: Step) {
    step.Create? || (step.Rotate? && step.outcome == Rotated)
  }

  /** Active hashes, expiries and the rotation log are as before. */
  ghost predicate Steady(s: System, s': System) {
    && s'.config == s.config
    && s'.known == s.known
    && s'.rotations == s.rotations
    && s'.store.sessions.Keys == s.store.sessions.Keys
    && forall id | id in s.store.sessions ::
         && s'.store.sessions[id].hash == s.store.sessions[id].hash
         && s'.store.sessions[id].session.expiresAt == s.store.sessions[id].session.expiresAt
         && s'.store.sessions[id].session.Identity() == s.store.sessions[id].session.Identity()
  }

  lemma OthersAreSteady(s: System, step: Step)
    requires Enabled(s, step) && !Installs(step)
    ensures Steady(s, Next(s, step))
  {
  }

  lemma OthersGrow(s: System, step: Step)
    requires Enabled(s, step) && !Installs(step)
    ensures Grows(s, Next(s, step))
  {
    OthersAreSteady(s, step);
  }

  lemma CreateGrows(s: System, step: Step)
    requires RequestsAgree(s) && s.rotations.Keys == s.store.sessions.Keys
    requires Enabled(s, step) && step.Create?
    ensures Grows(s, Next(s, step))
  {
    assert RequestAgrees(s, s.requests[step.request]);
  }

  lemma RotateGrows(s: System, step: Step)
    requires RequestsAgree(s) && s.rotations.Keys == s.store.sessions.Keys
    requires Enabled(s, step) && step.Rotate?
    ensures Grows(s, Next(s, step))
  {
    assert RequestAgrees(s, s.requests[step.request]);
  }

  lemma NextGrows(s: System, step: Step)
    requires RequestsAgree(s) && s.rotations.Keys == s.store.sessions.Keys && Enabled(s, step)
    ensures Grows(s, Next(s, step))
  {
    if step.Rotate? {
      RotateGrows(s, step);
    } else if step.Create? {
      CreateGrows(s, step);
    } else {
      OthersGrow(s, step);
    }
  }

  predicate ActsOn(step: Step, r: RequestId) {
    match step
    case Tick(_) | Revoke(_, _) | RevokeFamily(_, _) | Touch(_, _, _) => false
    case _ => step.request == r
  }

  lemma OthersStay(s: System, step: Step, r: RequestId)
    requires Enabled(s, step) && !ActsOn(step, r)
    ensures r in s.requests <==> r in Next(s, step).requests
    ensures r in s.requests ==> Next(s, step).requests[r] == s.requests[r]
  {
  }

  // ---- the store ----

  lemma RecordsPreservedByRotate(s: System, step: Step)
    requires RecordsAgree(s) && RequestsAgree(s) && Enabled(s, step) && step.Rotate?
    ensures RecordsAgree(Next(s, step))
  {
    assert RequestAgrees(s, s.requests[step.request]);
  }

  lemma RecordsPreservedByCreate(s: System, step: Step)
    requires RecordsAgree(s) && RequestsAgree(s) && Enabled(s, step) && step.Create?
    ensures RecordsAgree(Next(s, step))
  {
    assert RequestAgrees(s, s.requests[step.request]);
  }

  lemma RecordsAfterFamilyRevocation(s: System, s': System, family: FamilyId)
    requires RecordsAgree(s) && FamilyRevoked(s.store, family, s'.store)
    requires s'.sessionIds == s.sessionIds && s'.familyIds == s.familyIds
    ensures RecordsAgree(s')
  {
  }

  lemma RecordsPreservedByRevocation(s: System, step: Step)
    requires RecordsAgree(s) && Enabled(s, step) && (step.Revoke? || step.RevokeFamily? || step.RevokeReplayed?)
    ensures RecordsAgree(Next(s, step))
  {
    if step.RevokeFamily? {
      RecordsAfterFamilyRevocation(s, Next(s, step), step.family);
    } else if step.RevokeReplayed? {
      RecordsAfterFamilyRevocation(s, Next(s, step), s.requests[step.request].phase.lookup.family.familyId);
    }
  }

  lemma RecordsPreserved(s: System, step: Step)
    requires RecordsAgree(s) && RequestsAgree(s) && Enabled(s, step)
    ensures RecordsAgree(Next(s, step))
  {
    if step.Rotate? {
      RecordsPreservedByRotate(s, step);
    } else if step.Create? {
      RecordsPreservedByCreate(s, step);
    } else if step.Revoke? || step.RevokeFamily? || step.RevokeReplayed? {
      RecordsPreservedByRevocation(s, step);
    }
  }

  lemma HashesPreservedByInstall(s: System, step: Step)
    requires HashesAgree(s) && RequestsAgree(s) && Enabled(s, step) && Installs(step)
    ensures HashesAgree(Next(s, step))
  {
    assert RequestAgrees(s, s.requests[step.request]);
  }

  lemma HashesPreserved(s: System, step: Step)
    requires HashesAgree(s) && RequestsAgree(s) && Enabled(s, step)
    ensures HashesAgree(Next(s, step))
  {
    if Installs(step) {
      HashesPreservedByInstall(s, step);
    } else {
      OthersAreSteady(s, step);
      if step.Return? {
        assert RequestAgrees(s, s.requests[step.request]);
      }
    }
  }

  lemma LeasesPreserved(s: System, step: Step)
    requires LeasesAgree(s) && Enabled(s, step)
    ensures LeasesAgree(Next(s, step))
  {
  }

  lemma ExpiryPreserved(s: System, step: Step)
    requires ExpiryBounded(s) && RequestsAgree(s) && Enabled(s, step)
    ensures ExpiryBounded(Next(s, step))
  {
    if Installs(step) {
      assert RequestAgrees(s, s.requests[step.request]);
    }
  }

  // ---- the requests ----

  lemma RequestStays(s: System, s': System, request: Request)
    requires RequestAgrees(s, request) && Grows(s, s')
    requires forall id | id in s.store.sessions && s'.store.sessions[id].hash != s.store.sessions[id].hash ::
               s'.store.sessions[id].hash !in s.presented
    requires HasPending(request) ==> PendingHash(request) !in s'.known
    requires request.Issuance? && request.stage.Drawn? ==>
               request.session.sessionId !in s'.store.sessions && request.session.familyId !in s'.store.families
    ensures RequestAgrees(s', request)
  {
  }

  lemma InstallKeepsOthersPending(s: System, step: Step, r: RequestId)
    requires DrawsDiffer(s) && Enabled(s, step) && Installs(step) && r != step.request && r in s.requests
    requires RequestAgrees(s, s.requests[step.request]) && RequestAgrees(s, s.requests[r])
    ensures var s', request := Next(s, step), s.requests[r];
            && (HasPending(request) ==> PendingHash(request) !in s'.known)
            && (request.Issuance? && request.stage.Drawn? ==>
                  request.session.sessionId !in s'.store.sessions && request.session.familyId !in s'.store.families)
  {
  }

  lemma NewActiveHashes(s: System, step: Step)
    requires HashesAgree(s) && Enabled(s, step) && Installs(step) && RequestAgrees(s, s.requests[step.request])
    ensures forall id | id in s.store.sessions && Next(s, step).store.sessions[id].hash != s.store.sessions[id].hash ::
              Next(s, step).store.sessions[id].hash !in s.presented
  {
  }

  lemma StayerStays(s: System, step: Step, r: RequestId)
    requires Enabled(s, step) && !Installs(step) && r in s.requests && RequestAgrees(s, s.requests[r])
    ensures Steady(s, Next(s, step))
    ensures var s', request := Next(s, step), s.requests[r];
            && (HasPending(request) ==> PendingHash(request) !in s'.known)
            && (request.Issuance? && request.stage.Drawn? ==>
                  request.session.sessionId !in s'.store.sessions && request.session.familyId !in s'.store.families)
  {
    OthersAreSteady(s, step);
  }

  lemma StayerAgreesAfterInstall(s: System, step: Step, r: RequestId)
    requires HashesAgree(s) && DrawsDiffer(s) && Enabled(s, step) && Installs(step) && r != step.request
    requires r in s.requests
    requires RequestAgrees(s, s.requests[step.request]) && RequestAgrees(s, s.requests[r]) && Grows(s, Next(s, step))
    ensures RequestAgrees(Next(s, step), s.requests[r])
  {
    NewActiveHashes(s, step);
    InstallKeepsOthersPending(s, step, r);
    RequestStays(s, Next(s, step), s.requests[r]);
  }

  lemma StayerAgreesOtherwise(s: System, step: Step, r: RequestId)
    requires Enabled(s, step) && !Installs(step) && r in s.requests && RequestAgrees(s, s.requests[r])
    requires Grows(s, Next(s, step))
    ensures RequestAgrees(Next(s, step), s.requests[r])
  {
    StayerStays(s, step, r);
    RequestStays(s, Next(s, step), s.requests[r]);
  }

  lemma MoverAgreesAfterRotate(s: System, step: Step)
    requires RequestsAgree(s) && Enabled(s, step) && step.Rotate?
    ensures RequestAgrees(Next(s, step), Next(s, step).requests[step.request])
  {
    assert RequestAgrees(s, s.requests[step.request]);
  }

  lemma MoverAgrees(s: System, step: Step, r: RequestId)
    requires RecordsAgree(s) && HashesAgree(s) && RequestsAgree(s)
    requires Enabled(s, step) && ActsOn(step, r)
    ensures r in Next(s, step).requests && RequestAgrees(Next(s, step), Next(s, step).requests[r])
  {
    if r in s.requests {
      assert RequestAgrees(s, s.requests[r]);
    }
    if step.Rotate? {
      MoverAgreesAfterRotate(s, step);
    }
  }

  lemma RequestsPreserved(s: System, step: Step)
    requires RecordsAgree(s) && HashesAgree(s) && RequestsAgree(s) && DrawsDiffer(s) && Chained(s) && Enabled(s, step)
    ensures RequestsAgree(Next(s, step))
  {
    var s' := Next(s, step);
    NextGrows(s, step);
    forall r | r in s'.requests ensures RequestAgrees(s', s'.requests[r]) {
      if ActsOn(step, r) {
        MoverAgrees(s, step, r);
      } else {
        OthersStay(s, step, r);
        if Installs(step) {
          StayerAgreesAfterInstall(s, step, r);
        } else {
          StayerAgreesOtherwise(s, step, r);
        }
      }
    }
  }

  lemma DrawsStay(s: System, s': System, mover: RequestId)
    requires RequestsAgree(s) && DrawsDiffer(s)
    requires forall r | r in s'.requests && r != mover :: r in s.requests && s'.requests[r] == s.requests[r]
    requires mover in s'.requests && HasPending(s'.requests[mover]) ==>
               var hash := PendingHash(s'.requests[mover]);
               || hash !in s.drawn
               || (mover in s.requests && HasPending(s.requests[mover]) && hash == PendingHash(s.requests[mover]))
    requires mover in s'.requests && s'.requests[mover].Issuance? ==>
               var session := s'.requests[mover].session;
               || (session.sessionId !in s.sessionIds && session.familyId !in s.familyIds)
               || (mover in s.requests && s.requests[mover].Issuance? && session == s.requests[mover].session)
    ensures DrawsDiffer(s')
  {
    forall r | r in s.requests ensures RequestAgrees(s, s.requests[r]) {
    }
  }

  lemma DrawsPreserved(s: System, step: Step)
    requires RequestsAgree(s) && DrawsDiffer(s) && Enabled(s, step)
    ensures DrawsDiffer(Next(s, step))
  {
    if !(step.Tick? || step.Revoke? || step.RevokeFamily? || step.Touch?) {
      DrawsStay(s, Next(s, step), step.request);
    }
  }

  // ---- leases ----

  lemma FenceStays(s: System, s': System)
    requires LeasesFence(s) && s.clock <= s'.clock
    requires forall r | r in s'.requests && MayRotate(s'.requests[r]) ::
               && r in s.requests && MayRotate(s.requests[r]) && LeaseOf(s'.requests[r]) == LeaseOf(s.requests[r])
               && var lease := LeaseOf(s.requests[r]);
               Live(s'.store, lease.sessionId) ==>
                 && Live(s.store, lease.sessionId)
                 && (lease.sessionId in s.store.leases && s.store.leases[lease.sessionId] == lease ==>
                       lease.sessionId in s'.store.leases && s'.store.leases[lease.sessionId] == lease)
    ensures LeasesFence(s')
  {
    forall r | r in s'.requests && MayRotate(s'.requests[r]) && LeaseOf(s'.requests[r]).IsActiveAt(s'.clock)
      ensures var lease := LeaseOf(s'.requests[r]);
              || !Live(s'.store, lease.sessionId)
              || (lease.sessionId in s'.store.leases && s'.store.leases[lease.sessionId] == lease)
    {
      assert LeaseOf(s.requests[r]).IsActiveAt(s.clock);
    }
  }

  lemma FenceAcquired(s: System, s': System, mover: RequestId)
    requires LeasesFence(s) && LeasesAgree(s) && RequestsAgree(s) && s'.clock == s.clock
    requires s'.store.sessions == s.store.sessions && s'.store.families == s.store.families
    requires mover in s'.requests
    requires forall r | r in s'.requests && r != mover :: r in s.requests && s'.requests[r] == s.requests[r]
    requires MayRotate(s'.requests[mover])
    requires var lease := LeaseOf(s'.requests[mover]);
             && lease.leaseId !in s.leaseIds
             && (lease.sessionId in s.store.leases ==> !s.store.leases[lease.sessionId].IsActiveAt(s.clock))
             && s'.store.leases == s.store.leases[lease.sessionId := lease]
             && Live(s.store, lease.sessionId)
    ensures LeasesFence(s')
  {
    forall r | r in s.requests ensures RequestAgrees(s, s.requests[r]) {
    }
  }

  lemma FencePreservedByAcquire(s: System, step: Step)
    requires LeasesFence(s) && LeasesAgree(s) && RequestsAgree(s) && Enabled(s, step) && step.Acquire?
    ensures LeasesFence(Next(s, step))
  {
    if step.answer.Acquired? {
      FenceAcquired(s, Next(s, step), step.request);
    } else {
      FenceStays(s, Next(s, step));
    }
  }

  /** A rotation releases no lease but the one of the request that ran it. */
  lemma FenceReleased(s: System, s': System, mover: RequestId, id: SessionId)
    requires LeasesFence(s) && s'.clock == s.clock
    requires mover in s.requests && MayRotate(s.requests[mover])
    requires mover in s'.requests && !MayRotate(s'.requests[mover])
    requires forall r | r in s'.requests && r != mover :: r in s.requests && s'.requests[r] == s.requests[r]
    requires forall x | Live(s'.store, x) :: Live(s.store, x)
    requires || s'.store.leases == s.store.leases
             || (id in s.store.leases && s.store.leases[id].leaseId == LeaseOf(s.requests[mover]).leaseId
                 && s'.store.leases == s.store.leases - {id})
    ensures LeasesFence(s')
  {
    FenceStays(s, s');
  }

  lemma FencePreservedByRotate(s: System, step: Step)
    requires LeasesFence(s) && RequestsAgree(s) && Enabled(s, step) && step.Rotate?
    ensures LeasesFence(Next(s, step))
  {
    assert RequestAgrees(s, s.requests[step.request]);
    FenceReleased(s, Next(s, step), step.request, s.requests[step.request].phase.lookup.session.sessionId);
  }

  lemma FencePreservedByCreate(s: System, step: Step)
    requires LeasesFence(s) && RecordsAgree(s) && RequestsAgree(s) && Enabled(s, step) && step.Create?
    ensures LeasesFence(Next(s, step))
  {
    forall r | r in s.requests ensures RequestAgrees(s, s.requests[r]) {
    }
    FenceStays(s, Next(s, step));
  }

  lemma FencePreserved(s: System, step: Step)
    requires LeasesFence(s) && LeasesAgree(s) && RecordsAgree(s) && RequestsAgree(s) && Enabled(s, step)
    ensures LeasesFence(Next(s, step))
  {
    if step.Acquire? {
      FencePreservedByAcquire(s, step);
    } else if step.Rotate? {
      FencePreservedByRotate(s, step);
    } else if step.Create? {
      FencePreservedByCreate(s, step);
    } else {
      FenceStays(s, Next(s, step));
    }
  }

  // ---- expiry ----

  lemma PresentersPreservedByInstall(s: System, step: Step)
    requires PresentersAreLater(s) && HashesAgree(s) && RequestsAgree(s) && Enabled(s, step) && Installs(step)
    ensures PresentersAreLater(Next(s, step))
  {
    assert RequestAgrees(s, s.requests[step.request]);
  }

  lemma RenewalsKeepTheirStart(s: System, step: Step, r: RequestId)
    requires Enabled(s, step) && r in Next(s, step).requests && Next(s, step).requests[r].Renewal?
    ensures var now, before := Next(s, step).requests[r], s.requests;
            || (r in before && before[r].Renewal? && before[r].now == now.now && before[r].presented == now.presented)
            || now.now == s.clock
  {
  }

  lemma PresentersPreserved(s: System, step: Step)
    requires PresentersAreLater(s) && HashesAgree(s) && ExpiryBounded(s) && RequestsAgree(s) && Enabled(s, step)
    ensures PresentersAreLater(Next(s, step))
  {
    if Installs(step) {
      PresentersPreservedByInstall(s, step);
    } else {
      var s' := Next(s, step);
      OthersAreSteady(s, step);
      forall r, id | r in s'.requests && s'.requests[r].Renewal? && id in s'.store.sessions
                     && s'.requests[r].presented == s'.store.sessions[id].hash
        ensures s'.store.sessions[id].session.expiresAt <= s'.requests[r].now + s'.config.refreshTokenTtl
      {
        RenewalsKeepTheirStart(s, step, r);
      }
    }
  }

  // ---- rotations ----

  lemma ChainStays(s: System, s': System, id: SessionId)
    requires Steady(s, s') && id in s.rotations && id in s.store.sessions && Chain(s, id, s.rotations[id])
    ensures id in s'.store.sessions && Chain(s', id, s'.rotations[id])
  {
  }

  lemma ChainGrows(s: System, s': System, id: SessionId, log: seq<Rotation>, entry: Rotation)
    requires id in s.store.sessions && Chain(s, id, log) && id in s'.store.sessions
    requires entry.pair.refresh !in s.known && s'.known == s.known[entry.pair.refresh := id]
    requires var stored := s.store.sessions[id];
             && stored.hash in s.known && s.known[stored.hash] == id
             && entry.previous == stored.hash
             && s'.store.sessions[id].hash == entry.pair.refresh
             && s'.store.sessions[id].session == entry.session
             && entry.session.Identity() == stored.session.Identity()
             && stored.session.expiresAt <= entry.session.expiresAt
    ensures Chain(s', id, log + [entry])
  {
  }

  lemma ChainIgnores(s: System, s': System, id: SessionId)
    requires Chained(s) && id in s.rotations
    requires id in s'.store.sessions && s'.store.sessions[id] == s.store.sessions[id]
    requires forall h | h in s.known :: h in s'.known && s'.known[h] == s.known[h]
    ensures Chain(s', id, s.rotations[id])
  {
    assert Chain(s, id, s.rotations[id]);
  }

  lemma ChainedPreservedByRotate(s: System, step: Step)
    requires Chained(s) && PresentersAreLater(s) && HashesAgree(s) && RequestsAgree(s)
    requires Enabled(s, step) && Installs(step) && step.Rotate?
    ensures Chained(Next(s, step))
  {
    var s' := Next(s, step);
    var request := s.requests[step.request];
    var input := RotateInput(s.config, request);
    assert RequestAgrees(s, request);
    ChainGrows(s, s', input.sessionId, s.rotations[input.sessionId],
               Rotation(step.request, input.previous, input.nextSession, request.phase.pair));
    forall id | id in s'.rotations ensures Chain(s', id, s'.rotations[id]) {
      if id != input.sessionId {
        ChainIgnores(s, s', id);
      }
    }
  }

  lemma ChainedPreservedByCreate(s: System, step: Step)
    requires Chained(s) && RequestsAgree(s) && Enabled(s, step) && step.Create?
    ensures Chained(Next(s, step))
  {
    var s' := Next(s, step);
    var request := s.requests[step.request];
    assert RequestAgrees(s, request);
    forall id | id in s'.rotations ensures Chain(s', id, s'.rotations[id]) {
      if id != request.session.sessionId {
        ChainIgnores(s, s', id);
      }
    }
  }

  lemma ChainedPreserved(s: System, step: Step)
    requires Chained(s) && PresentersAreLater(s) && HashesAgree(s) && RequestsAgree(s) && Enabled(s, step)
    ensures Chained(Next(s, step))
  {
    if Installs(step) {
      if step.Rotate? {
        ChainedPreservedByRotate(s, step);
      } else {
        ChainedPreservedByCreate(s, step);
      }
    } else {
      var s' := Next(s, step);
      OthersAreSteady(s, step);
      forall id | id in s'.rotations ensures Chain(s', id, s'.rotations[id]) {
        ChainStays(s, s', id);
      }
    }
  }

  lemma ConsumedStays(log: seq<Rotation>, log': seq<Rotation>, hash: TokenHash)
    requires Consumed(log, hash) && log <= log'
    ensures Consumed(log', hash)
  {
    var i :| 0 <= i < |log| && log[i].previous == hash;
    assert log'[i].previous == hash;
  }

  lemma ConsumedPreservedByRotate(s: System, step: Step)
    requires ConsumedOrActive(s) && RequestsAgree(s) && s.rotations.Keys == s.store.sessions.Keys
    requires Enabled(s, step) && Installs(step) && step.Rotate?
    ensures ConsumedOrActive(Next(s, step))
  {
    var s' := Next(s, step);
    var request := s.requests[step.request];
    var id := request.phase.lookup.session.sessionId;
    assert RequestAgrees(s, request);
    RotateGrows(s, step);
    assert s'.rotations[id][|s.rotations[id]|].previous == s.store.sessions[id].hash;
    forall h | h in s'.known
      ensures s'.known[h] in s'.store.sessions && s'.known[h] in s'.rotations
      ensures h == s'.store.sessions[s'.known[h]].hash || Consumed(s'.rotations[s'.known[h]], h)
    {
      if h in s.known && h != s.store.sessions[s.known[h]].hash {
        ConsumedStays(s.rotations[s.known[h]], s'.rotations[s.known[h]], h);
      }
    }
  }

  lemma ConsumedPreserved(s: System, step: Step)
    requires ConsumedOrActive(s) && RequestsAgree(s) && s.rotations.Keys == s.store.sessions.Keys && Enabled(s, step)
    ensures ConsumedOrActive(Next(s, step))
  {
    if Installs(step) {
      assert RequestAgrees(s, s.requests[step.request]);
      if step.Rotate? {
        ConsumedPreservedByRotate(s, step);
      }
    } else {
      OthersAreSteady(s, step);
    }
  }

  // ---- answers ----

  lemma AnswerStays(s: System, s': System, r: RequestId, presented: TokenHash, phase: Phase)
    requires RecordsAgree(s) && RecordsAgree(s') && Grows(s, s') && AnswerAgrees(s, r, presented, phase)
    ensures AnswerAgrees(s', r, presented, phase)
  {
    match phase
    case Answered(ReplayDetected(id)) =>
      ConsumedStays(s.rotations[id], s'.rotations[id], presented);
    case Committed(session, pair) =>
      CommitStays(s, s', r, session, pair);
    case Answered(Renewed(session, pair)) =>
      CommitStays(s, s', r, session, pair);
    case _ =>
  }

  lemma CommitStays(s: System, s': System, r: RequestId, session: Session, pair: TokenPair)
    requires Grows(s, s') && CommittedBy(s, r, session, pair)
    ensures CommittedBy(s', r, session, pair)
  {
    var log := s.rotations[session.sessionId];
    var i :| 0 <= i < |log| && log[i] == Rotation(r, log[i].previous, session, pair);
    assert s'.rotations[session.sessionId][i] == log[i];
  }

  lemma RotateCommits(s: System, step: Step)
    requires RequestsAgree(s) && Enabled(s, step) && Installs(step) && step.Rotate?
    ensures var s' := Next(s, step);
            var request := s.requests[step.request];
            CommittedBy(s', step.request, NextSession(s.config, request.phase.lookup, request.now), request.phase.pair)
  {
    var s' := Next(s, step);
    var request := s.requests[step.request];
    var log := s'.rotations[RotateInput(s.config, request).sessionId];
    assert log[|log| - 1].request == step.request;
  }

  lemma ReplayRevokes(s: System, step: Step)
    requires RecordsAgree(s) && RequestsAgree(s) && ConsumedOrActive(s) && Enabled(s, step) && step.RevokeReplayed?
    ensures AnswerAgrees(Next(s, step), step.request, s.requests[step.request].presented,
                         Next(s, step).requests[step.request].phase)
  {
    assert RequestAgrees(s, s.requests[step.request]);
  }

  lemma MoverAnswers(s: System, step: Step, r: RequestId)
    requires RecordsAgree(s) && RequestsAgree(s) && ConsumedOrActive(s) && AnswersAgree(s)
    requires Enabled(s, step) && ActsOn(step, r) && Next(s, step).requests[r].Renewal?
    ensures AnswerAgrees(Next(s, step), r, Next(s, step).requests[r].presented, Next(s, step).requests[r].phase)
  {
    if step.RevokeReplayed? {
      ReplayRevokes(s, step);
    } else if step.Rotate? && Installs(step) {
      RotateCommits(s, step);
    } else if step.Return? {
      assert AnswerAgrees(s, r, s.requests[r].presented, s.requests[r].phase);
    }
  }

  lemma AnswersPreserved(s: System, step: Step)
    requires Inv(s) && Enabled(s, step) && RecordsAgree(Next(s, step))
    ensures AnswersAgree(Next(s, step))
  {
    var s' := Next(s, step);
    NextGrows(s, step);
    forall r | r in s'.requests && s'.requests[r].Renewal?
      ensures AnswerAgrees(s', r, s'.requests[r].presented, s'.requests[r].phase)
    {
      if ActsOn(step, r) {
        MoverAnswers(s, step, r);
      } else {
        OthersStay(s, step, r);
        AnswerStays(s, s', r, s.requests[r].presented, s.requests[r].phase);
      }
    }
  }

  // ---- all runs ----

  lemma InvInitially(config: SessionConfig)
    ensures Inv(Initial(config))
  {
  }

  lemma InvPreserved(s: System, step: Step)
    requires Inv(s) && Enabled(s, step)
    ensures Inv(Next(s, step))
  {
    RecordsPreserved(s, step);
    HashesPreserved(s, step);
    LeasesPreserved(s, step);
    ExpiryPreserved(s, step);
    RequestsPreserved(s, step);
    DrawsPreserved(s, step);
    FencePreserved(s, step);
    PresentersPreserved(s, step);
    ChainedPreserved(s, step);
    ConsumedPreserved(s, step);
    AnswersPreserved(s, step);
  }

  /** Every state of every run satisfies the invariant. */
  lemma {:induction false} InvAlways(config: SessionConfig, states: seq<System>, steps: seq<Step>, i: nat)
    requires IsRun(config, states, steps) && i < |states|
    ensures Inv(states[i])
  {
    if i == 0 {
      InvInitially(config);
    } else {
      InvAlways(config, states, steps, i - 1);
      InvPreserved(states[i - 1], steps[i - 1]);
    }
  }
}
