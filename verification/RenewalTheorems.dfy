/** What holds in every run of the renewal protocol. */
module RenewalTheorems {
  import opened Wrappers
  import opened Sessions
  import opened RepositoryContract
  import opened RenewalProtocol
  import opened RenewalInvariant

  lemma GrowsTransitively(a: System, b: System, c: System)
    requires Grows(a, b) && Grows(b, c)
    ensures Grows(a, c)
  {
  }

  lemma {:induction false} RunGrows(config: SessionConfig, states: seq<System>, steps: seq<Step>, i: nat, j: nat)
    requires IsRun(config, states, steps) && i <= j < |states|
    ensures Grows(states[i], states[j])
    decreases j
  {
    if i < j {
      RunGrows(config, states, steps, i, j - 1);
      InvAlways(config, states, steps, j - 1);
      NextGrows(states[j - 1], steps[j - 1]);
      GrowsTransitively(states[i], states[j - 1], states[j]);
    }
  }

  /** Step `k` of the run commits a rotation. */
  ghost predicate Commits(states: seq<System>, steps: seq<Step>, k: nat) {
    k < |steps| <= |states| && steps[k].Rotate? && steps[k].outcome == Rotated && Enabled(states[k], steps[k])
  }

  ghost function InputAt(states: seq<System>, steps: seq<Step>, k: nat): RotateRefreshToken
    requires Commits(states, steps, k)
  {
    RotateInput(states[k].config, states[k].requests[steps[k].request])
  }

  // ---- one chain of rotations per session ----

  lemma RotationConsumes(s: System, step: Step)
    requires RequestsAgree(s) && s.rotations.Keys == s.store.sessions.Keys
    requires Enabled(s, step) && step.Rotate? && step.outcome == Rotated
    ensures var s', input := Next(s, step), RotateInput(s.config, s.requests[step.request]);
            var id := input.sessionId;
            && id in s.store.sessions && s.store.sessions[id].hash == input.previous
            && id in s'.store.sessions && s'.store.sessions[id].hash == input.next
            && input.previous in s.known && s.known[input.previous] == id
            && id in s'.rotations && Consumed(s'.rotations[id], input.previous)
  {
    assert RequestAgrees(s, s.requests[step.request]);
    var input := RotateInput(s.config, s.requests[step.request]);
    var log := Next(s, step).rotations[input.sessionId];
    assert log[|log| - 1].previous == input.previous;
  }

  lemma CommitConsumes(config: SessionConfig, states: seq<System>, steps: seq<Step>, k: nat)
    requires IsRun(config, states, steps) && Commits(states, steps, k)
    ensures var input := InputAt(states, steps, k);
            && input.sessionId in states[k].store.sessions
            && states[k].store.sessions[input.sessionId].hash == input.previous
            && input.sessionId in states[k + 1].store.sessions
            && states[k + 1].store.sessions[input.sessionId].hash == input.next
            && input.previous in states[k + 1].known && states[k + 1].known[input.previous] == input.sessionId
            && input.sessionId in states[k + 1].rotations
            && Consumed(states[k + 1].rotations[input.sessionId], input.previous)
  {
    InvAlways(config, states, steps, k);
    RotationConsumes(states[k], steps[k]);
    RotateGrows(states[k], steps[k]);
  }

  /** A consumed hash is never active again. */
  lemma ConsumedForever(config: SessionConfig, states: seq<System>, steps: seq<Step>, id: SessionId, hash: TokenHash,
                        i: nat, j: nat)
    requires IsRun(config, states, steps) && i <= j < |states|
    requires id in states[i].rotations && Consumed(states[i].rotations[id], hash)
    requires hash in states[i].known && states[i].known[hash] == id
    ensures forall other | other in states[j].store.sessions :: states[j].store.sessions[other].hash != hash
  {
    RunGrows(config, states, steps, i, j);
    InvAlways(config, states, steps, j);
    ConsumedStays(states[i].rotations[id], states[j].rotations[id], hash);
    assert Chain(states[j], id, states[j].rotations[id]);
  }

  /** A refresh hash is the previous hash of at most one committed rotation, however many
      requests present it and however they interleave. */
  lemma PreviousHashIsUsedOnce(config: SessionConfig, states: seq<System>, steps: seq<Step>, i: nat, j: nat)
    requires IsRun(config, states, steps) && i < j && Commits(states, steps, i) && Commits(states, steps, j)
    ensures InputAt(states, steps, i).previous != InputAt(states, steps, j).previous
  {
    CommitConsumes(config, states, steps, i);
    CommitConsumes(config, states, steps, j);
    var input := InputAt(states, steps, i);
    ConsumedForever(config, states, steps, input.sessionId, input.previous, i + 1, j);
  }

  /** No step in `from..to` commits a rotation of the session. */
  ghost predicate Untouched(states: seq<System>, steps: seq<Step>, id: SessionId, from: nat, to: nat) {
    forall k: nat | from <= k < to && Commits(states, steps, k) :: InputAt(states, steps, k).sessionId != id
  }

  lemma HashChangesByRotationOnly(s: System, step: Step, id: SessionId)
    requires RequestsAgree(s) && Enabled(s, step) && id in s.store.sessions
    requires step.Rotate? && step.outcome == Rotated ==> RotateInput(s.config, s.requests[step.request]).sessionId != id
    ensures id in Next(s, step).store.sessions && Next(s, step).store.sessions[id].hash == s.store.sessions[id].hash
  {
    if !Installs(step) {
      OthersAreSteady(s, step);
    }
  }

  lemma ActiveHashStays(config: SessionConfig, states: seq<System>, steps: seq<Step>, id: SessionId, k: nat)
    requires IsRun(config, states, steps) && k < |steps| && id in states[k].store.sessions
    requires !(Commits(states, steps, k) && InputAt(states, steps, k).sessionId == id)
    ensures id in states[k + 1].store.sessions
    ensures states[k + 1].store.sessions[id].hash == states[k].store.sessions[id].hash
  {
    InvAlways(config, states, steps, k);
    HashChangesByRotationOnly(states[k], steps[k], id);
  }

  lemma {:induction false} ActiveHashIsTheLastInstalled(config: SessionConfig, states: seq<System>, steps: seq<Step>,
                                                        id: SessionId, i: nat, j: nat)
    requires IsRun(config, states, steps) && i <= j < |states| && id in states[i].store.sessions
    requires Untouched(states, steps, id, i, j)
    ensures id in states[j].store.sessions && states[j].store.sessions[id].hash == states[i].store.sessions[id].hash
    decreases j
  {
    if i < j {
      assert Untouched(states, steps, id, i, j - 1);
      ActiveHashIsTheLastInstalled(config, states, steps, id, i, j - 1);
      ActiveHashStays(config, states, steps, id, j - 1);
    }
  }

  /** Successive rotations of a session link up: what one installs, the following consumes. */
  lemma RotationsFormOneChain(config: SessionConfig, states: seq<System>, steps: seq<Step>, i: nat, j: nat)
    requires IsRun(config, states, steps) && i < j && Commits(states, steps, i) && Commits(states, steps, j)
    requires InputAt(states, steps, i).sessionId == InputAt(states, steps, j).sessionId
    requires Untouched(states, steps, InputAt(states, steps, i).sessionId, i + 1, j)
    ensures InputAt(states, steps, i).next == InputAt(states, steps, j).previous
  {
    CommitConsumes(config, states, steps, i);
    CommitConsumes(config, states, steps, j);
    ActiveHashIsTheLastInstalled(config, states, steps, InputAt(states, steps, i).sessionId, i + 1, j);
  }

  // ---- revocation ----

  lemma RevokedStays(config: SessionConfig, states: seq<System>, steps: seq<Step>, id: SessionId, i: nat, k: nat)
    requires IsRun(config, states, steps) && i <= k < |states| && id in states[i].store.sessions
    requires !Live(states[i].store, id)
    ensures id in states[k].store.sessions && states[k].store.sessions[id].session.revoked
  {
    InvAlways(config, states, steps, i);
    RunGrows(config, states, steps, i, k);
  }

  lemma CommitNeedsLive(s: System, step: Step)
    requires Enabled(s, step) && step.Rotate? && step.outcome == Rotated
    ensures Live(s.store, RotateInput(s.config, s.requests[step.request]).sessionId)
  {
  }

  lemma RevokedIsUntouched(config: SessionConfig, states: seq<System>, steps: seq<Step>, id: SessionId, i: nat, j: nat)
    requires IsRun(config, states, steps) && i <= j < |states| && id in states[i].store.sessions
    requires !Live(states[i].store, id)
    ensures Untouched(states, steps, id, i, j)
  {
    forall k: nat | i <= k < j && Commits(states, steps, k) ensures InputAt(states, steps, k).sessionId != id {
      RevokedStays(config, states, steps, id, i, k);
      CommitNeedsLive(states[k], steps[k]);
    }
  }

  /** Once a session or its family is revoked the session stays revoked, and no renewal,
      in flight or new, commits a rotation of it. */
  lemma RevocationIsPermanent(config: SessionConfig, states: seq<System>, steps: seq<Step>, id: SessionId, i: nat,
                              j: nat)
    requires IsRun(config, states, steps) && i <= j < |states| && id in states[i].store.sessions
    requires !Live(states[i].store, id)
    ensures id in states[j].store.sessions
    ensures states[j].store.sessions[id].session.revoked && !Live(states[j].store, id)
    ensures states[j].store.sessions[id].hash == states[i].store.sessions[id].hash
    ensures Untouched(states, steps, id, i, j)
  {
    RevokedStays(config, states, steps, id, i, j);
    RevokedIsUntouched(config, states, steps, id, i, j);
    ActiveHashIsTheLastInstalled(config, states, steps, id, i, j);
  }

  // ---- expiry and identity ----

  lemma ExpiryGrowsByOneStep(s: System, step: Step, id: SessionId)
    requires RequestsAgree(s) && PresentersAreLater(s) && Enabled(s, step) && id in s.store.sessions
    ensures id in Next(s, step).store.sessions
    ensures s.store.sessions[id].session.expiresAt <= Next(s, step).store.sessions[id].session.expiresAt
  {
    if Installs(step) {
      assert RequestAgrees(s, s.requests[step.request]);
    } else {
      OthersAreSteady(s, step);
    }
  }

  lemma ExpiryGrowsAt(config: SessionConfig, states: seq<System>, steps: seq<Step>, id: SessionId, k: nat)
    requires IsRun(config, states, steps) && k < |steps| && id in states[k].store.sessions
    ensures id in states[k + 1].store.sessions
    ensures states[k].store.sessions[id].session.expiresAt <= states[k + 1].store.sessions[id].session.expiresAt
  {
    InvAlways(config, states, steps, k);
    ExpiryGrowsByOneStep(states[k], steps[k], id);
  }

  /** A session never loses lifetime. */
  lemma {:induction false} ExpiryNeverDecreases(config: SessionConfig, states: seq<System>, steps: seq<Step>,
                                                id: SessionId, i: nat, j: nat)
    requires IsRun(config, states, steps) && i <= j < |states| && id in states[i].store.sessions
    ensures id in states[j].store.sessions
    ensures states[i].store.sessions[id].session.expiresAt <= states[j].store.sessions[id].session.expiresAt
    decreases j
  {
    if i < j {
      ExpiryNeverDecreases(config, states, steps, id, i, j - 1);
      ExpiryGrowsAt(config, states, steps, id, j - 1);
    }
  }

  /** Whatever a renewal hands back is the issued session: same id, family, subject and
      creation time, as they were at any earlier moment. */
  lemma RenewedSessionIsTheIssuedOne(config: SessionConfig, states: seq<System>, steps: seq<Step>, r: RequestId, i: nat,
                                     j: nat)
    requires IsRun(config, states, steps) && i <= j < |states|
    requires r in states[j].requests && states[j].requests[r].Renewal?
    requires states[j].requests[r].phase.Answered? && states[j].requests[r].phase.outcome.Renewed?
    ensures var session := states[j].requests[r].phase.outcome.session;
            session.sessionId in states[i].store.sessions ==>
              var was := states[i].store.sessions[session.sessionId].session;
              && session.Identity() == was.Identity()
              && session.familyId == was.familyId && session.subjectId == was.subjectId
              && session.createdAt == was.createdAt
  {
    var session, pair := states[j].requests[r].phase.outcome.session, states[j].requests[r].phase.outcome.pair;
    InvAlways(config, states, steps, j);
    RunGrows(config, states, steps, i, j);
    assert AnswerAgrees(states[j], r, states[j].requests[r].presented, states[j].requests[r].phase);
    assert Chain(states[j], session.sessionId, states[j].rotations[session.sessionId]);
  }

  // ---- leases ----

  /** No two renewals between acquisition and rotation hold unexpired leases of one session. */
  lemma OneUnexpiredLeasePerSession(config: SessionConfig, states: seq<System>, steps: seq<Step>, i: nat, q: RequestId,
                                    r: RequestId)
    requires IsRun(config, states, steps) && i < |states| && q != r
    requires q in states[i].requests && MayRotate(states[i].requests[q])
    requires r in states[i].requests && MayRotate(states[i].requests[r])
    requires LeaseOf(states[i].requests[q]).sessionId == LeaseOf(states[i].requests[r]).sessionId
    ensures !(LeaseOf(states[i].requests[q]).IsActiveAt(states[i].clock)
              && LeaseOf(states[i].requests[r]).IsActiveAt(states[i].clock))
  {
    InvAlways(config, states, steps, i);
  }

  /** The stored lease of the session has the id of this one. */
  predicate IsStored(s: System, lease: RenewalLease) {
    lease.sessionId in s.store.leases && s.store.leases[lease.sessionId].leaseId == lease.leaseId
  }

  /** The renewal holds a lease that is not the stored one, or it has already ended without
      a rotation. */
  ghost predicate Stranded(s: System, r: RequestId) {
    && r in s.requests && s.requests[r].Renewal?
    && match s.requests[r].phase {
         case Holding(_, lease) => !IsStored(s, lease)
         case Ready(_, lease, _) => !IsStored(s, lease)
         case Replayed(_) => true
         case Failed => true
         case Answered(outcome) => !outcome.Renewed?
         case _ => false
       }
  }

  lemma StrandedStaysWhileOthersMove(s: System, step: Step, r: RequestId)
    requires RequestsAgree(s) && Enabled(s, step) && Stranded(s, r) && !ActsOn(step, r)
    ensures Stranded(Next(s, step), r)
  {
    assert RequestAgrees(s, s.requests[r]);
    OthersStay(s, step, r);
  }

  lemma StrandedStays(s: System, step: Step, r: RequestId)
    requires RequestsAgree(s) && Enabled(s, step) && Stranded(s, r)
    ensures Stranded(Next(s, step), r)
    ensures !(step.Rotate? && step.request == r && step.outcome == Rotated)
  {
    assert RequestAgrees(s, s.requests[r]);
    if !ActsOn(step, r) {
      StrandedStaysWhileOthersMove(s, step, r);
    }
  }

  lemma StrandedAt(config: SessionConfig, states: seq<System>, steps: seq<Step>, r: RequestId, k: nat)
    requires IsRun(config, states, steps) && k < |steps| && Stranded(states[k], r)
    ensures Stranded(states[k + 1], r) && !(Commits(states, steps, k) && steps[k].request == r)
  {
    InvAlways(config, states, steps, k);
    StrandedStays(states[k], steps[k], r);
  }

  /** A renewal whose lease was taken over or released commits no rotation, ever. */
  lemma {:induction false} LostLeaseNeverCommits(config: SessionConfig, states: seq<System>, steps: seq<Step>,
                                                 r: RequestId, i: nat, j: nat)
    requires IsRun(config, states, steps) && i <= j < |states| && Stranded(states[i], r)
    ensures Stranded(states[j], r)
    ensures forall k: nat | i <= k < j :: !(Commits(states, steps, k) && steps[k].request == r)
    decreases j
  {
    if i < j {
      LostLeaseNeverCommits(config, states, steps, r, i, j - 1);
      StrandedAt(config, states, steps, r, j - 1);
    }
  }

  /** Lease identifiers name one lease. */
  ghost predicate LeaseIdsName(s: System) {
    forall r, id | r in s.requests && MayRotate(s.requests[r]) && id in s.store.leases
                   && s.store.leases[id].leaseId == LeaseOf(s.requests[r]).leaseId ::
      s.store.leases[id] == LeaseOf(s.requests[r])
  }

  lemma LeaseIdsNameAfterAcquire(s: System, step: Step)
    requires LeaseIdsName(s) && LeasesAgree(s) && RequestsAgree(s) && Enabled(s, step) && step.Acquire?
    ensures LeaseIdsName(Next(s, step))
  {
    forall r | r in s.requests ensures RequestAgrees(s, s.requests[r]) {
    }
  }

  lemma LeaseIdsNamePreserved(s: System, step: Step)
    requires LeaseIdsName(s) && LeasesAgree(s) && RequestsAgree(s) && Enabled(s, step)
    ensures LeaseIdsName(Next(s, step))
  {
    if step.Acquire? {
      LeaseIdsNameAfterAcquire(s, step);
    }
  }

  lemma {:induction false} LeaseIdsNameAlways(config: SessionConfig, states: seq<System>, steps: seq<Step>, i: nat)
    requires IsRun(config, states, steps) && i < |states|
    ensures LeaseIdsName(states[i])
  {
    if i > 0 {
      LeaseIdsNameAlways(config, states, steps, i - 1);
      InvAlways(config, states, steps, i - 1);
      LeaseIdsNamePreserved(states[i - 1], steps[i - 1]);
    }
  }

  /** A commit holds its own lease, unexpired at the instant the backend judges it. A backend
      that judges at the commit therefore never commits on an expired lease. */
  lemma CommitHoldsItsLease(config: SessionConfig, states: seq<System>, steps: seq<Step>, k: nat)
    requires IsRun(config, states, steps) && Commits(states, steps, k)
    ensures var lease := states[k].requests[steps[k].request].phase.lease;
            && lease.sessionId in states[k].store.leases
            && states[k].store.leases[lease.sessionId] == lease
            && lease.IsActiveAt(steps[k].judgedAt)
            && (steps[k].judgedAt == states[k].clock ==> !(lease.leaseUntil <= states[k].clock))
  {
    InvAlways(config, states, steps, k);
    LeaseIdsNameAlways(config, states, steps, k);
    assert RequestAgrees(states[k], states[k].requests[steps[k].request]);
  }

  /** Exactly when the contract lets a renewal commit: the session is live, the presented hash
      is active, and the stored lease is its own and unexpired at the instant of judgement,
      which may lie anywhere between the start of the request and the present. */
  lemma CommitIsOpen(config: SessionConfig, states: seq<System>, steps: seq<Step>, i: nat, r: RequestId, judgedAt: Time)
    requires IsRun(config, states, steps) && i < |states| && InPhase(states[i], r) && states[i].requests[r].phase.Ready?
    ensures var s, request := states[i], states[i].requests[r];
            var id, lease := request.phase.lookup.session.sessionId, request.phase.lease;
            (exists post :: Enabled(s, Rotate(r, judgedAt, Rotated, post)))
            <==> && request.now <= judgedAt <= s.clock && judgedAt < lease.leaseUntil
                 && id in s.store.leases && s.store.leases[id] == lease
                 && Live(s.store, id) && s.store.sessions[id].hash == request.presented
  {
    var s := states[i];
    InvAlways(config, states, steps, i);
    LeaseIdsNameAlways(config, states, steps, i);
    assert RequestAgrees(s, s.requests[r]);
    var input := RotateInput(s.config, s.requests[r]);
    var post := s.store.(sessions := s.store.sessions[input.sessionId :=
                                       StoredSession(input.nextSession, input.next,
                                                     NewRefreshRecord(input.nextSession))]);
    if RotationAnswered(s.store, input, judgedAt, Rotated, post) && s.requests[r].now <= judgedAt <= s.clock {
      assert Enabled(s, Rotate(r, judgedAt, Rotated, post));
    }
  }

  // ---- what reaches a caller ----

  /** The session and tokens a renewal has committed and hands to its caller. */
  predicate Delivers(phase: Phase, session: Session, pair: TokenPair) {
    phase == Committed(session, pair) || phase == Answered(Renewed(session, pair))
  }

  /** Step `k` committed exactly this session and these tokens for `r`, and `r` did nothing
      but return since. */
  ghost predicate CommittedAt(states: seq<System>, steps: seq<Step>, r: RequestId, session: Session, pair: TokenPair,
                              k: nat, j: nat) {
    && Commits(states, steps, k) && steps[k].request == r
    && InputAt(states, steps, k).nextSession == session
    && states[k].requests[r].phase.pair == pair
    && forall m | k < m < j <= |steps| && ActsOn(steps[m], r) :: steps[m].Return?
  }

  lemma DeliveredAt(s: System, step: Step, r: RequestId, session: Session, pair: TokenPair)
    requires Enabled(s, step) && r in Next(s, step).requests
    requires Next(s, step).requests[r].Renewal? && Delivers(Next(s, step).requests[r].phase, session, pair)
    ensures r in s.requests && s.requests[r].Renewal?
    ensures || (step.Rotate? && step.request == r && step.outcome == Rotated
                && s.requests[r].phase.pair == pair && RotateInput(s.config, s.requests[r]).nextSession == session)
            || (Delivers(s.requests[r].phase, session, pair) && (ActsOn(step, r) ==> step.Return?))
  {
  }

  lemma CommitInstalls(config: SessionConfig, states: seq<System>, steps: seq<Step>,
                       r: RequestId, session: Session, pair: TokenPair, k: nat, j: nat)
    requires IsRun(config, states, steps) && CommittedAt(states, steps, r, session, pair, k, j)
    ensures session.sessionId in states[k + 1].store.sessions
    ensures states[k + 1].store.sessions[session.sessionId].hash == pair.refresh
  {
    CommitConsumes(config, states, steps, k);
  }

  /** Tokens reach the caller of a renewal only after its own rotation installed their hash;
      tokens drawn for a rotation that was not committed reach nobody. */
  lemma {:induction false} TokensAreDeliveredAfterTheirCommit(config: SessionConfig, states: seq<System>,
                                                              steps: seq<Step>,
      r: RequestId, session: Session, pair: TokenPair, j: nat)
    returns (k: nat)
    requires IsRun(config, states, steps) && j < |states|
    requires r in states[j].requests && states[j].requests[r].Renewal?
    requires Delivers(states[j].requests[r].phase, session, pair)
    ensures k < j && CommittedAt(states, steps, r, session, pair, k, j)
    ensures session.sessionId in states[k + 1].store.sessions
    ensures states[k + 1].store.sessions[session.sessionId].hash == pair.refresh
  {
    var s, step := states[j - 1], steps[j - 1];
    DeliveredAt(s, step, r, session, pair);
    if step.Rotate? && step.request == r && step.outcome == Rotated {
      k := j - 1;
      CommitInstalls(config, states, steps, r, session, pair, k, j);
    } else {
      k := TokensAreDeliveredAfterTheirCommit(config, states, steps, r, session, pair, j - 1);
    }
  }

  /** The active hash of the session of an issuance is that of its tokens. */
  ghost predicate IsInstalled(s: System, request: Request)
    requires request.Issuance?
  {
    var id := request.session.sessionId;
    id in s.store.sessions && s.store.sessions[id].hash == request.pair.refresh
  }

  predicate IsPersisted(request: Request) {
    request.Issuance? && (request.stage.Persisted? || request.stage.Returned?)
  }

  lemma IssuedAt(s: System, step: Step, r: RequestId)
    requires Enabled(s, step) && r in Next(s, step).requests && IsPersisted(Next(s, step).requests[r])
    ensures r in s.requests && s.requests[r].Issuance?
    ensures s.requests[r].session == Next(s, step).requests[r].session
    ensures s.requests[r].pair == Next(s, step).requests[r].pair
    ensures || (step.Create? && step.request == r && IsInstalled(Next(s, step), s.requests[r]))
            || (IsPersisted(s.requests[r]) && (ActsOn(step, r) ==> step.Return?))
  {
  }

  lemma IssuedBefore(config: SessionConfig, states: seq<System>, steps: seq<Step>, r: RequestId, j: nat)
    requires IsRun(config, states, steps) && j < |states| && r in states[j].requests
    requires IsPersisted(states[j].requests[r])
    ensures j > 0 && r in states[j - 1].requests && states[j - 1].requests[r].Issuance?
    ensures states[j - 1].requests[r].session == states[j].requests[r].session
    ensures states[j - 1].requests[r].pair == states[j].requests[r].pair
    ensures || (steps[j - 1].Create? && steps[j - 1].request == r && IsInstalled(states[j], states[j].requests[r]))
            || (IsPersisted(states[j - 1].requests[r]) && (ActsOn(steps[j - 1], r) ==> steps[j - 1].Return?))
  {
    IssuedAt(states[j - 1], steps[j - 1], r);
  }

  /** Likewise for an issuance: its tokens are handed out after its own create step installed
      their hash, and between the two it did nothing but return. */
  lemma {:induction false} IssuedTokensAreDeliveredAfterTheirCreate(config: SessionConfig, states: seq<System>,
                                                                    steps: seq<Step>,
                                                                    r: RequestId, j: nat)
    returns (k: nat)
    requires IsRun(config, states, steps) && j < |states| && r in states[j].requests
    requires IsPersisted(states[j].requests[r])
    ensures k < j && steps[k].Create? && steps[k].request == r && IsInstalled(states[k + 1], states[j].requests[r])
    ensures forall m | k < m < j && ActsOn(steps[m], r) :: steps[m].Return?
  {
    IssuedBefore(config, states, steps, r, j);
    if steps[j - 1].Create? && steps[j - 1].request == r && IsInstalled(states[j], states[j].requests[r]) {
      k := j - 1;
    } else {
      k := IssuedTokensAreDeliveredAfterTheirCreate(config, states, steps, r, j - 1);
    }
  }

  // ---- replay ----

  /** A request in the rotation log committed and can only have returned or failed since. */
  ghost predicate LoggedRequestsCommitted(s: System) {
    forall id, i | id in s.rotations && 0 <= i < |s.rotations[id]| ::
      s.rotations[id][i].request in s.requests && HasCommitted(s.requests[s.rotations[id][i].request])
  }

  predicate HasCommitted(request: Request) {
    && request.Renewal?
    && (|| request.phase.Committed? || request.phase.Failed?
        || (request.phase.Answered? && request.phase.outcome.Renewed?))
  }

  lemma CommittedStays(s: System, step: Step, r: RequestId)
    requires Enabled(s, step) && r in s.requests && HasCommitted(s.requests[r])
    ensures r in Next(s, step).requests && HasCommitted(Next(s, step).requests[r])
  {
    if !ActsOn(step, r) {
      OthersStay(s, step, r);
    }
  }

  lemma NewEntriesAreCommitted(s: System, step: Step, id: SessionId, i: nat)
    requires Enabled(s, step) && id in Next(s, step).rotations && i < |Next(s, step).rotations[id]|
    ensures || (id in s.rotations && i < |s.rotations[id]| && Next(s, step).rotations[id][i] == s.rotations[id][i])
            || (var r := Next(s, step).rotations[id][i].request;
                r in Next(s, step).requests && HasCommitted(Next(s, step).requests[r]))
  {
  }

  lemma LoggedRequestsPreserved(s: System, step: Step)
    requires LoggedRequestsCommitted(s) && Enabled(s, step)
    ensures LoggedRequestsCommitted(Next(s, step))
  {
    var s' := Next(s, step);
    forall id, i | id in s'.rotations && 0 <= i < |s'.rotations[id]|
      ensures s'.rotations[id][i].request in s'.requests && HasCommitted(s'.requests[s'.rotations[id][i].request])
    {
      NewEntriesAreCommitted(s, step, id, i);
      if id in s.rotations && i < |s.rotations[id]| && s'.rotations[id][i] == s.rotations[id][i] {
        CommittedStays(s, step, s.rotations[id][i].request);
      }
    }
  }

  lemma {:induction false} LoggedRequestsAlways(config: SessionConfig, states: seq<System>, steps: seq<Step>, i: nat)
    requires IsRun(config, states, steps) && i < |states|
    ensures LoggedRequestsCommitted(states[i])
  {
    if i > 0 {
      LoggedRequestsAlways(config, states, steps, i - 1);
      LoggedRequestsPreserved(states[i - 1], steps[i - 1]);
    }
  }

  lemma MismatchIsOpen(s: System, r: RequestId, judgedAt: Time)
    requires InPhase(s, r) && s.requests[r].phase.Ready? && RequestAgrees(s, s.requests[r])
    ensures var request := s.requests[r];
            (exists post :: Enabled(s, Rotate(r, judgedAt, RefreshTokenMismatch, post)))
            <==> && request.now <= judgedAt <= s.clock
                 && s.store.sessions[request.phase.lookup.session.sessionId].hash != request.presented
  {
    var request := s.requests[r];
    if request.now <= judgedAt <= s.clock
       && request.presented != s.store.sessions[request.phase.lookup.session.sessionId].hash {
      assert Enabled(s, Rotate(r, judgedAt, RefreshTokenMismatch, s.store));
    }
  }

  /** Exactly when a renewal that is ready can be taken for a replay: some committed rotation
      has consumed its token meanwhile. */
  lemma ReplayIsOpen(config: SessionConfig, states: seq<System>, steps: seq<Step>, i: nat, r: RequestId, judgedAt: Time)
    requires IsRun(config, states, steps) && i < |states| && InPhase(states[i], r) && states[i].requests[r].phase.Ready?
    ensures var s, request := states[i], states[i].requests[r];
            var id := request.phase.lookup.session.sessionId;
            && id in s.rotations
            && ((exists post :: Enabled(s, Rotate(r, judgedAt, RefreshTokenMismatch, post)))
                <==> request.now <= judgedAt <= s.clock && Consumed(s.rotations[id], request.presented))
  {
    var s, request := states[i], states[i].requests[r];
    InvAlways(config, states, steps, i);
    assert RequestAgrees(s, request);
    var id := request.phase.lookup.session.sessionId;
    assert Chain(s, id, s.rotations[id]);
    MismatchIsOpen(s, r, judgedAt);
  }

  predicate HasLookup(request: Request) {
    request.Renewal? && (request.phase.Found? || request.phase.Holding? || request.phase.Ready?)
  }

  /** Step `l` is the lookup of `r`, and found this. */
  predicate LooksUp(steps: seq<Step>, l: nat, r: RequestId, lookup: SessionLookup)
    requires l < |steps|
  {
    steps[l].Lookup? && steps[l].request == r && steps[l].found == Some(lookup)
  }

  lemma LookupIsKept(s: System, step: Step, r: RequestId)
    requires Enabled(s, step) && r in Next(s, step).requests && HasLookup(Next(s, step).requests[r])
    ensures var lookup := Next(s, step).requests[r].phase.lookup;
            || (step.Lookup? && step.request == r && step.found == Some(lookup))
            || (r in s.requests && HasLookup(s.requests[r]) && s.requests[r].phase.lookup == lookup)
    ensures r in s.requests && s.requests[r].Renewal? && s.requests[r].presented == Next(s, step).requests[r].presented
  {
  }

  lemma {:induction false} LookupBefore(config: SessionConfig, states: seq<System>, steps: seq<Step>, r: RequestId,
                                        i: nat)
    returns (l: nat)
    requires IsRun(config, states, steps) && i < |states| && r in states[i].requests && HasLookup(states[i].requests[r])
    ensures l < i && LooksUp(steps, l, r, states[i].requests[r].phase.lookup)
    ensures r in states[l].requests && states[l].requests[r].Renewal?
    ensures states[l].requests[r].presented == states[i].requests[r].presented
  {
    LookupIsKept(states[i - 1], steps[i - 1], r);
    if LooksUp(steps, i - 1, r, states[i].requests[r].phase.lookup) {
      l := i - 1;
    } else {
      l := LookupBefore(config, states, steps, r, i - 1);
    }
  }

  /** The lookup finds a session only by the hash that is active at that moment. */
  ghost predicate FindsActive(s: System, step: Step) {
    step.Lookup? && step.found.Some? && InPhase(s, step.request) ==>
      && var id := step.found.value.session.sessionId;
      id in s.store.sessions && s.store.sessions[id].hash == s.requests[step.request].presented
  }

  ghost predicate LookupsFindActive(states: seq<System>, steps: seq<Step>)
    requires |states| == |steps| + 1
  {
    forall k {:trigger steps[k]} | 0 <= k < |steps| :: FindsActive(states[k], steps[k])
  }

  /** Step `k`, between the lookup of `r` and state `i`, commits a rotation of the session that
      `r` found. */
  ghost predicate Overtakes(states: seq<System>, steps: seq<Step>, r: RequestId, lookup: SessionLookup, k: nat,
                            i: nat) {
    && k < i && Commits(states, steps, k) && InputAt(states, steps, k).sessionId == lookup.session.sessionId
    && exists l :: 0 <= l < k && LooksUp(steps, l, r, lookup)
  }

  lemma CommitIsNoLookup(states: seq<System>, steps: seq<Step>, k: nat)
    requires Commits(states, steps, k)
    ensures !steps[k].Lookup?
  {
  }

  /** A token that is no longer active was overtaken since its lookup. */
  lemma LostTokenWasOvertaken(config: SessionConfig, states: seq<System>, steps: seq<Step>, i: nat, r: RequestId)
    returns (k: nat)
    requires IsRun(config, states, steps) && LookupsFindActive(states, steps)
    requires i < |states| && r in states[i].requests && HasLookup(states[i].requests[r])
    requires var id := states[i].requests[r].phase.lookup.session.sessionId;
             id in states[i].store.sessions && states[i].store.sessions[id].hash != states[i].requests[r].presented
    ensures Overtakes(states, steps, r, states[i].requests[r].phase.lookup, k, i)
  {
    var lookup := states[i].requests[r].phase.lookup;
    var id := lookup.session.sessionId;
    var l := LookupBefore(config, states, steps, r, i);
    assert FindsActive(states[l], steps[l]);
    if Untouched(states, steps, id, l, i) {
      ActiveHashIsTheLastInstalled(config, states, steps, id, l, i);
    }
    k :| l <= k < i && Commits(states, steps, k) && InputAt(states, steps, k).sessionId == id;
    CommitIsNoLookup(states, steps, k);
  }

  lemma PresentedStaysByOneStep(s: System, step: Step, r: RequestId)
    requires Enabled(s, step) && r in s.requests && s.requests[r].Renewal?
    ensures r in Next(s, step).requests && Next(s, step).requests[r].Renewal?
    ensures Next(s, step).requests[r].presented == s.requests[r].presented
  {
    if !ActsOn(step, r) {
      OthersStay(s, step, r);
    }
  }

  lemma {:induction false} PresentedStays(config: SessionConfig, states: seq<System>, steps: seq<Step>, r: RequestId,
                                          l: nat, i: nat)
    requires IsRun(config, states, steps) && l <= i < |states| && r in states[l].requests
    requires states[l].requests[r].Renewal?
    ensures r in states[i].requests && states[i].requests[r].Renewal?
    ensures states[i].requests[r].presented == states[l].requests[r].presented
  {
    if l < i {
      PresentedStays(config, states, steps, r, l, i - 1);
      PresentedStaysByOneStep(states[i - 1], steps[i - 1], r);
    }
  }

  /** A commit leaves every earlier hash of its session consumed. */
  lemma CommitConsumesKnown(s: System, step: Step, hash: TokenHash)
    requires RequestsAgree(s) && Enabled(s, step) && step.Rotate? && step.outcome == Rotated
    requires ConsumedOrActive(Next(s, step)) && hash in s.known
    requires s.known[hash] == RotateInput(s.config, s.requests[step.request]).sessionId
    ensures hash in Next(s, step).known && Next(s, step).known[hash] == s.known[hash]
    ensures s.known[hash] in Next(s, step).rotations && Consumed(Next(s, step).rotations[s.known[hash]], hash)
  {
    assert RequestAgrees(s, s.requests[step.request]);
  }

  lemma OvertakenHashIsConsumed(config: SessionConfig, states: seq<System>, steps: seq<Step>, id: SessionId, l: nat,
                                k: nat, i: nat)
    requires IsRun(config, states, steps) && l <= k < i < |states| && id in states[l].store.sessions
    requires Commits(states, steps, k) && InputAt(states, steps, k).sessionId == id
    ensures id in states[i].store.sessions && states[i].store.sessions[id].hash != states[l].store.sessions[id].hash
  {
    var hash := states[l].store.sessions[id].hash;
    InvAlways(config, states, steps, l);
    InvAlways(config, states, steps, k);
    InvAlways(config, states, steps, k + 1);
    RunGrows(config, states, steps, l, k);
    RunGrows(config, states, steps, l, i);
    CommitConsumesKnown(states[k], steps[k], hash);
    ConsumedForever(config, states, steps, id, hash, k + 1, i);
  }

  lemma OvertakenTokenIsLost(config: SessionConfig, states: seq<System>, steps: seq<Step>, i: nat, r: RequestId, k: nat)
    requires IsRun(config, states, steps) && LookupsFindActive(states, steps)
    requires i < |states| && r in states[i].requests && HasLookup(states[i].requests[r])
    requires Overtakes(states, steps, r, states[i].requests[r].phase.lookup, k, i)
    ensures var id := states[i].requests[r].phase.lookup.session.sessionId;
            id in states[i].store.sessions && states[i].store.sessions[id].hash != states[i].requests[r].presented
  {
    var lookup := states[i].requests[r].phase.lookup;
    var l :| 0 <= l < k && LooksUp(steps, l, r, lookup);
    assert Enabled(states[l], steps[l]) && FindsActive(states[l], steps[l]);
    PresentedStays(config, states, steps, r, l, i);
    OvertakenHashIsConsumed(config, states, steps, lookup.session.sessionId, l, k, i);
  }

  /** Over a backend whose lookups find active hashes only, a renewal that is ready can be taken
      for a replay if and only if another rotation of its session was committed since its lookup. */
  lemma ReplayIsOpenOnlyIfOvertaken(config: SessionConfig, states: seq<System>, steps: seq<Step>, i: nat, r: RequestId,
                                    judgedAt: Time)
    requires IsRun(config, states, steps) && LookupsFindActive(states, steps)
    requires i < |states| && InPhase(states[i], r) && states[i].requests[r].phase.Ready?
    ensures var s, request := states[i], states[i].requests[r];
            (exists post :: Enabled(s, Rotate(r, judgedAt, RefreshTokenMismatch, post)))
            <==> && request.now <= judgedAt <= s.clock
                 && exists k :: Overtakes(states, steps, r, request.phase.lookup, k, i)
  {
    var s, request := states[i], states[i].requests[r];
    var id := request.phase.lookup.session.sessionId;
    InvAlways(config, states, steps, i);
    assert RequestAgrees(s, request);
    MismatchIsOpen(s, r, judgedAt);
    if request.presented != s.store.sessions[id].hash {
      var k := LostTokenWasOvertaken(config, states, steps, i, r);
    }
    if k :| Overtakes(states, steps, r, request.phase.lookup, k, i) {
      OvertakenTokenIsLost(config, states, steps, i, r, k);
    }
  }

  /** Replay is answered only when the family is revoked, and only for a token that the
      committed rotation of another request had consumed. */
  lemma ReplayAnswerIsJustified(config: SessionConfig, states: seq<System>, steps: seq<Step>, r: RequestId,
                                id: SessionId, j: nat)
    returns (i: nat)
    requires IsRun(config, states, steps) && j < |states| && r in states[j].requests && states[j].requests[r].Renewal?
    requires states[j].requests[r].phase == Answered(ReplayDetected(id))
    ensures id in states[j].store.sessions && states[j].store.sessions[id].session.revoked
    ensures states[j].store.sessions[id].session.familyId in states[j].store.families
    ensures states[j].store.families[states[j].store.sessions[id].session.familyId].revoked
    ensures id in states[j].rotations && i < |states[j].rotations[id]|
    ensures states[j].rotations[id][i].previous == states[j].requests[r].presented
    ensures states[j].rotations[id][i].request != r
  {
    InvAlways(config, states, steps, j);
    LoggedRequestsAlways(config, states, steps, j);
    assert AnswerAgrees(states[j], r, states[j].requests[r].presented, states[j].requests[r].phase);
    i :| 0 <= i < |states[j].rotations[id]| && states[j].rotations[id][i].previous == states[j].requests[r].presented;
  }

  lemma FamilyRevocationIsContained(s: System, post: Store, family: FamilyId, id: SessionId, other: SessionId)
    requires RecordsAgree(s) && FamilyRevoked(s.store, family, post)
    requires id in s.store.sessions && s.store.sessions[id].session.familyId == family
    requires other in s.store.sessions && other != id
    ensures other in post.sessions && post.sessions[other] == s.store.sessions[other]
    ensures Live(post, other) == Live(s.store, other)
    ensures other in s.store.leases ==> other in post.leases && post.leases[other] == s.store.leases[other]
  {
  }

  lemma ReplayRevocationIsContained(s: System, step: Step, other: SessionId)
    requires RecordsAgree(s) && RequestsAgree(s) && Enabled(s, step) && step.RevokeReplayed?
    requires other in s.store.sessions && other != s.requests[step.request].phase.lookup.session.sessionId
    ensures other in step.post.sessions && step.post.sessions[other] == s.store.sessions[other]
    ensures Live(step.post, other) == Live(s.store, other)
    ensures other in s.store.leases ==> other in step.post.leases && step.post.leases[other] == s.store.leases[other]
  {
    var request := s.requests[step.request];
    var lookup := request.phase.lookup;
    assert RequestAgrees(s, request);
    assert SnapshotAgrees(s, request.presented, lookup);
    FamilyRevocationIsContained(s, step.post, lookup.family.familyId, lookup.session.sessionId, other);
  }

  /** Revoking the family of a replayed token changes no other session, its family or its lease. */
  lemma ReplayRevokesOneSession(config: SessionConfig, states: seq<System>, steps: seq<Step>, k: nat, other: SessionId)
    requires IsRun(config, states, steps) && k < |steps| && steps[k].RevokeReplayed?
    requires other in states[k].store.sessions
    requires other != states[k].requests[steps[k].request].phase.lookup.session.sessionId
    ensures other in states[k + 1].store.sessions
    ensures states[k + 1].store.sessions[other] == states[k].store.sessions[other]
    ensures Live(states[k + 1].store, other) == Live(states[k].store, other)
    ensures other in states[k].store.leases ==>
              other in states[k + 1].store.leases && states[k + 1].store.leases[other] == states[k].store.leases[other]
  {
    InvAlways(config, states, steps, k);
    ReplayRevocationIsContained(states[k], steps[k], other);
  }
}
