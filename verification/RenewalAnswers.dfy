/** Why the renewals of a run are answered as they are, and what a logout ends. */
module RenewalAnswers {
  import opened Wrappers
  import opened Sessions
  import opened RepositoryContract
  import opened RenewalProtocol
  import opened RenewalInvariant
  import opened RenewalTheorems

  // ---- answers ----

  /** No live session that has not expired at `now` has this active hash. */
  ghost predicate NoneUsable(store: Store, hash: TokenHash, now: Time) {
    forall id | id in store.sessions && Live(store, id) && store.sessions[id].hash == hash ::
      store.sessions[id].session.expiresAt <= now || store.sessions[id].refresh.expiresAt <= now
  }

  ghost predicate IsOver(store: Store, id: SessionId, judgedAt: Time) {
    id in store.sessions && (!Live(store, id) || store.sessions[id].session.expiresAt <= judgedAt)
  }

  /** The step finds the auth token invalid, the refresh token of no use, or the session gone. */
  ghost predicate Rejects(s: System, step: Step) {
    match step
    case BeginRenewal(_, state, _, _) => state.Invalid?
    case Lookup(r, _) => InPhase(s, r) && NoneUsable(s.store, s.requests[r].presented, s.requests[r].now)
    case Rotate(r, judgedAt, _, _) =>
      && InPhase(s, r) && s.requests[r].phase.Ready?
      && IsOver(s.store, s.requests[r].phase.lookup.session.sessionId, judgedAt)
    case _ => false
  }

  /** The step finds the valid lease of another renewal. */
  ghost predicate FindsLease(s: System, step: Step, lease: RenewalLease) {
    && step.Acquire? && InPhase(s, step.request) && s.requests[step.request].phase.Found?
    && var id := s.requests[step.request].phase.lookup.session.sessionId;
    && id in s.store.leases && s.store.leases[id] == lease && step.judgedAt < lease.leaseUntil
  }

  /** The step finds the session gone, or the own lease lost or run out. */
  ghost predicate FindsNoLease(s: System, step: Step) {
    match step
    case Acquire(r, _, judgedAt, _, _) =>
      && InPhase(s, r) && s.requests[r].phase.Found?
      && IsOver(s.store, s.requests[r].phase.lookup.session.sessionId, judgedAt)
    case Rotate(r, judgedAt, _, _) =>
      && InPhase(s, r) && s.requests[r].phase.Ready?
      && var (id, lease) := (s.requests[r].phase.lookup.session.sessionId, s.requests[r].phase.lease);
      id in s.store.leases && s.store.leases[id].leaseId == lease.leaseId ==> s.store.leases[id].leaseUntil <= judgedAt
    case _ => false
  }

  /** What the step that gives this answer has found. */
  ghost predicate IsJustified(s: System, step: Step, outcome: RenewalOutcome) {
    match outcome
    case NotNeeded => step.BeginRenewal? && step.state.Valid?
    case Rejected => Rejects(s, step)
    case Contended(HeldByOther(lease)) => FindsLease(s, step, lease)
    case Contended(Unavailable) => FindsNoLease(s, step)
    case Contended(Acquired(_)) => false
    case ReplayDetected(id) =>
      && step.RevokeReplayed? && InPhase(s, step.request) && s.requests[step.request].phase.Replayed?
      && s.requests[step.request].phase.lookup.session.sessionId == id
    case Renewed(session, pair) =>
      step.Return? && InPhase(s, step.request) && s.requests[step.request].phase == Committed(session, pair)
  }

  predicate IsAnswered(s: System, r: RequestId, outcome: RenewalOutcome) {
    r in s.requests && s.requests[r].Renewal? && s.requests[r].phase == Answered(outcome)
  }

  lemma LookupJustifies(s: System, step: Step)
    requires HashesAgree(s) && Enabled(s, step) && step.Lookup?
    requires IsAnswered(Next(s, step), step.request, Rejected)
    ensures IsJustified(s, step, Rejected)
  {
  }

  lemma StepJustifies(s: System, step: Step, r: RequestId, outcome: RenewalOutcome)
    requires HashesAgree(s) && RequestsAgree(s) && Enabled(s, step) && ActsOn(step, r)
    requires IsAnswered(Next(s, step), r, outcome)
    ensures step.request == r && IsJustified(s, step, outcome)
    ensures !outcome.ReplayDetected? ==> Next(s, step).store == s.store
  {
    if r in s.requests {
      assert RequestAgrees(s, s.requests[r]);
    }
    if step.Lookup? {
      LookupJustifies(s, step);
    }
  }

  /** Step `k` is one of `r` that has found the reason for the answer, and except for the answer to
      a replay it stores nothing. */
  ghost predicate AnsweredBy(states: seq<System>, steps: seq<Step>, r: RequestId, outcome: RenewalOutcome, k: nat) {
    && k < |steps| < |states| && ActsOn(steps[k], r) && IsJustified(states[k], steps[k], outcome)
    && (!outcome.ReplayDetected? ==> states[k + 1].store == states[k].store)
  }

  lemma AnsweredAt(config: SessionConfig, states: seq<System>, steps: seq<Step>, r: RequestId, outcome: RenewalOutcome,
                   k: nat)
    requires IsRun(config, states, steps) && k < |steps| && IsAnswered(states[k + 1], r, outcome)
    ensures IsAnswered(states[k], r, outcome) || AnsweredBy(states, steps, r, outcome, k)
  {
    InvAlways(config, states, steps, k);
    if ActsOn(steps[k], r) {
      StepJustifies(states[k], steps[k], r, outcome);
    } else {
      OthersStay(states[k], steps[k], r);
    }
  }

  /** Every answer was given by a step of the renewal itself that has found its reason. */
  lemma {:induction false} EveryAnswerIsJustified(config: SessionConfig, states: seq<System>, steps: seq<Step>,
                                                  r: RequestId, outcome: RenewalOutcome, j: nat)
    returns (k: nat)
    requires IsRun(config, states, steps) && j < |states| && IsAnswered(states[j], r, outcome)
    ensures k < j && AnsweredBy(states, steps, r, outcome, k)
  {
    AnsweredAt(config, states, steps, r, outcome, j - 1);
    k := j - 1;
    if !AnsweredBy(states, steps, r, outcome, j - 1) {
      k := EveryAnswerIsJustified(config, states, steps, r, outcome, j - 1);
    }
  }

  // ---- logout ----

  /** The step revokes the session, itself or with its family. */
  ghost predicate LogsOut(s: System, step: Step, id: SessionId) {
    match step
    case Revoke(revoked, _) => revoked == id
    case RevokeFamily(family, _) => id in s.store.sessions && s.store.sessions[id].session.familyId == family
    case _ => false
  }

  lemma LogoutTakesEffect(s: System, step: Step, id: SessionId)
    requires Enabled(s, step) && LogsOut(s, step, id)
    ensures id in Next(s, step).store.sessions && !Live(Next(s, step).store, id)
  {
  }

  lemma LogoutAt(config: SessionConfig, states: seq<System>, steps: seq<Step>, id: SessionId, k: nat)
    requires IsRun(config, states, steps) && k < |steps| && LogsOut(states[k], steps[k], id)
    ensures id in states[k + 1].store.sessions && !Live(states[k + 1].store, id)
  {
    LogoutTakesEffect(states[k], steps[k], id);
  }

  /** From a logout on the session is revoked for good and no renewal of it commits. */
  lemma LogoutEndsTheSession(config: SessionConfig, states: seq<System>, steps: seq<Step>, id: SessionId, k: nat,
                             j: nat)
    requires IsRun(config, states, steps) && k < j < |states| && LogsOut(states[k], steps[k], id)
    ensures id in states[j].store.sessions && states[j].store.sessions[id].session.revoked
    ensures Untouched(states, steps, id, k + 1, j)
  {
    LogoutAt(config, states, steps, id, k);
    RevocationIsPermanent(config, states, steps, id, k + 1, j);
  }

  // ---- activity ----

  /** A touch notes when the session was last seen, whatever renewals are in flight, and nothing else. */
  lemma TouchNotesOnly(s: System, step: Step)
    requires Enabled(s, step) && step.Touch?
    ensures var was, now := s.store, Next(s, step).store;
            && Next(s, step) == s.(store := now) && step.id in was.sessions
            && now.sessions == was.sessions[step.id := was.sessions[step.id].(
                 session := was.sessions[step.id].session.(lastSeenAt := Some(step.at)))]
            && now.families == was.families && now.leases == was.leases
  {
  }

  /** Logouts and touches can be done exactly when their session or family exists. */
  lemma OperationsAreOpen(s: System, id: SessionId, family: FamilyId, at: Time)
    ensures (exists post :: Enabled(s, Step.Revoke(id, post))) <==> id in s.store.sessions
    ensures (exists post :: Enabled(s, Step.RevokeFamily(family, post))) <==> family in s.store.families
    ensures (exists post :: Enabled(s, Step.Touch(id, at, post))) <==> id in s.store.sessions
  {
    var store := s.store;
    if id in store.sessions {
      var stored := store.sessions[id];
      assert Enabled(s, Step.Revoke(id, store.(sessions := store.sessions[id := stored.Revoke()])));
      assert Enabled(s, Step.Touch(id, at, store.(sessions := store.sessions[id :=
        stored.(session := stored.session.Touched(at))])));
    }
    if family in store.families {
      var revoked := store.families[family := store.families[family].(revoked := true)];
      assert Enabled(s, Step.RevokeFamily(family, Store(RevokeMembers(store.sessions, family), revoked, store.leases)));
    }
  }
}
