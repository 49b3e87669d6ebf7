/** A renewal that nothing interrupts, over any backend that keeps the persistence contract.

    The steps are those of `RenewalProtocol`. Time may pass while the renewal runs, but within
    its lease and without crossing the expiry of the session or of a stored lease. */
module RenewalAlone {
  import opened Wrappers
  import opened Sessions
  import opened RepositoryContract
  import opened RenewalProtocol
  import opened RenewalInvariant
  import opened RenewalTheorems

  /** The hash is the active one of a live session that has not expired. */
  ghost predicate IsActive(s: System, id: SessionId, hash: TokenHash) {
    && Live(s.store, id)
    && s.store.sessions[id].hash == hash
    && s.clock < s.store.sessions[id].session.expiresAt
    && s.clock < s.store.sessions[id].refresh.expiresAt
  }

  ghost predicate IsLeased(s: System, id: SessionId) {
    id in s.store.leases && s.store.leases[id].IsActiveAt(s.clock)
  }

  predicate Crosses(from: Time, until: Time, at: Time) {
    from < at <= until
  }

  /** Between the start and `until` no time is reached at which the answers would change. */
  ghost predicate IsQuiet(s: System, hash: TokenHash, until: Time) {
    && until < s.clock + s.config.renewalLeaseTtl
    && (hash in s.known && s.known[hash] in s.store.sessions ==>
          var id := s.known[hash];
          && !Crosses(s.clock, until, s.store.sessions[id].session.expiresAt)
          && (id in s.store.leases ==> !Crosses(s.clock, until, s.store.leases[id].leaseUntil)))
  }

  /** The session as a renewal started in `s` writes it. */
  ghost function Extended(s: System, id: SessionId): Session
    requires id in s.store.sessions
  {
    s.store.sessions[id].session.(lastSeenAt := Some(s.clock), expiresAt := s.clock + s.config.refreshTokenTtl)
  }

  /** The outcome table, in terms of the state in which the renewal started. */
  ghost predicate OutcomeAgrees(s: System, state: AuthTokenState, hash: TokenHash, outcome: RenewalOutcome) {
    if state.Valid? then outcome == NotNeeded
    else if state.Invalid? then outcome == Rejected
    else
      && (outcome.Renewed? ==> exists id :: IsActive(s, id, hash) && !IsLeased(s, id))
      && !outcome.NotNeeded?
      && forall id | IsActive(s, id, hash) ::
           if IsLeased(s, id) then outcome == Contended(HeldByOther(s.store.leases[id]))
           else outcome.Renewed? && outcome.session == Extended(s, id)
  }

  // ---- the course of such a renewal ----

  ghost predicate IsFound(s: System, hash: TokenHash, lookup: SessionLookup) {
    && hash in s.known && s.known[hash] in s.store.sessions
    && s.store.sessions[s.known[hash]].session.familyId in s.store.families
    && lookup == Snapshot(s.store, s.known[hash])
    && lookup.IsActiveAt(s.clock)
  }

  ghost predicate IsHeld(s: System, now: System, hash: TokenHash, lookup: SessionLookup, lease: RenewalLease) {
    && IsFound(s, hash, lookup)
    && !IsLeased(s, s.known[hash])
    && lease == LeaseFromTtl(s.known[hash], lease.leaseId, s.clock, s.config.renewalLeaseTtl)
    && now.store == s.store.(leases := s.store.leases[s.known[hash] := lease])
  }

  /** Where a renewal that started in `s` and ran alone stands in `now`. */
  ghost predicate Course(s: System, now: System, r: RequestId, state: AuthTokenState, hash: TokenHash) {
    && now.config == s.config && s.clock <= now.clock
    && r in now.requests && now.requests[r].Renewal?
    && now.requests[r].now == s.clock && now.requests[r].presented == hash
    && (!now.requests[r].phase.Answered? ==> NeedsRenewal(state))
    && match now.requests[r].phase
       case Presented => now.store == s.store && now.known == s.known
       case Found(lookup) => now.store == s.store && IsFound(s, hash, lookup)
       case Holding(lookup, lease) => IsHeld(s, now, hash, lookup, lease)
       case Ready(lookup, lease, _) => IsHeld(s, now, hash, lookup, lease)
       case Committed(session, pair) => OutcomeAgrees(s, state, hash, Renewed(session, pair))
       case Replayed(_) => forall id :: !IsActive(s, id, hash)
       case Answered(outcome) => OutcomeAgrees(s, state, hash, outcome)
       case Failed => false
  }

  /** An active hash leads to its session and to no other. */
  lemma ActiveIsKnown(s: System, id: SessionId, hash: TokenHash)
    requires HashesAgree(s) && IsActive(s, id, hash)
    ensures hash in s.known && s.known[hash] == id
    ensures Snapshot(s.store, id).IsActiveAt(s.clock)
  {
  }

  lemma LookupCourse(s: System, now: System, r: RequestId, state: AuthTokenState, hash: TokenHash, step: Step)
    requires HashesAgree(s) && Course(s, now, r, state, hash) && Enabled(now, step) && step.Lookup? && step.request == r
    ensures Course(s, Next(now, step), r, state, hash)
  {
    forall id | IsActive(s, id, hash) ensures Next(now, step).requests[r].phase.Found? {
      ActiveIsKnown(s, id, hash);
    }
  }

  lemma AcquireCourse(s: System, now: System, r: RequestId, state: AuthTokenState, hash: TokenHash, step: Step)
    requires HashesAgree(s) && RecordsAgree(s) && IsQuiet(s, hash, now.clock)
    requires Course(s, now, r, state, hash) && Enabled(now, step) && step.Acquire? && step.request == r
    ensures Course(s, Next(now, step), r, state, hash)
  {
    var id := s.known[hash];
    assert now.requests[r].phase.lookup.session.sessionId == id;
    forall other | IsActive(s, other, hash) ensures other == id {
      ActiveIsKnown(s, other, hash);
    }
  }

  /** With its lease in hand and unexpired, the rotation commits exactly if the hash is active,
      and the lease is never found missing. */
  lemma RotateAnswer(s: System, now: System, hash: TokenHash, lookup: SessionLookup, lease: RenewalLease,
                     input: RotateRefreshToken, judgedAt: Time, outcome: RotateOutcome, post: Store)
    requires HashesAgree(s) && IsHeld(s, now, hash, lookup, lease) && IsQuiet(s, hash, judgedAt)
    requires s.clock <= judgedAt && RotationAnswered(now.store, input, judgedAt, outcome, post)
    requires input.sessionId == s.known[hash] && input.lease == lease && input.previous == hash
    ensures outcome == Rotated <==> IsActive(s, s.known[hash], hash)
    ensures outcome != LeaseUnavailable
  {
    assert s.store.sessions[s.known[hash]].session.expiresAt > judgedAt;
    assert Live(now.store, s.known[hash]) <==> Live(s.store, s.known[hash]);
  }

  lemma RotationAgrees(s: System, state: AuthTokenState, hash: TokenHash, outcome: RotateOutcome, pair: TokenPair)
    requires HashesAgree(s) && NeedsRenewal(state) && hash in s.known && s.known[hash] in s.store.sessions
    requires !IsLeased(s, s.known[hash]) && (outcome == Rotated <==> IsActive(s, s.known[hash], hash))
    ensures if outcome == Rotated then OutcomeAgrees(s, state, hash, Renewed(Extended(s, s.known[hash]), pair))
            else OutcomeAgrees(s, state, hash, Rejected) && forall id :: !IsActive(s, id, hash)
  {
    forall id | IsActive(s, id, hash) ensures id == s.known[hash] {
      ActiveIsKnown(s, id, hash);
    }
  }

  lemma RotateCourse(s: System, now: System, r: RequestId, state: AuthTokenState, hash: TokenHash, step: Step)
    requires HashesAgree(s) && RecordsAgree(s) && IsQuiet(s, hash, now.clock)
    requires Course(s, now, r, state, hash) && Enabled(now, step) && step.Rotate? && step.request == r
    ensures Course(s, Next(now, step), r, state, hash)
  {
    var request := now.requests[r];
    var input := RotateInput(now.config, request);
    RotateAnswer(s, now, hash, request.phase.lookup, request.phase.lease, input, step.judgedAt, step.outcome,
                 step.post);
    RotationAgrees(s, state, hash, step.outcome, request.phase.pair);
    assert NextSession(now.config, request.phase.lookup, request.now) == Extended(s, s.known[hash]);
  }

  /** A step of the renewal itself, not failing, or the passing of time. */
  predicate RunsAlone(step: Step, r: RequestId) {
    step.Tick? || (ActsOn(step, r) && !step.Fail?)
  }

  lemma StepCourse(s: System, now: System, r: RequestId, state: AuthTokenState, hash: TokenHash, step: Step)
    requires HashesAgree(s) && RecordsAgree(s) && Course(s, now, r, state, hash)
    requires Enabled(now, step) && RunsAlone(step, r) && IsQuiet(s, hash, Next(now, step).clock)
    ensures Course(s, Next(now, step), r, state, hash)
  {
    if step.Lookup? {
      LookupCourse(s, now, r, state, hash, step);
    } else if step.Acquire? {
      AcquireCourse(s, now, r, state, hash, step);
    } else if step.Rotate? {
      RotateCourse(s, now, r, state, hash, step);
    }
  }

  ghost predicate IsAloneRun(s: System, states: seq<System>, steps: seq<Step>, r: RequestId) {
    && |states| == |steps| + 1 > 1
    && states[0] == s
    && r !in s.requests && steps[0].BeginRenewal?
    && forall i {:trigger steps[i]} | 0 <= i < |steps| ::
         Enabled(states[i], steps[i]) && states[i + 1] == Next(states[i], steps[i]) && RunsAlone(steps[i], r)
  }

  lemma {:induction false} AloneCourse(s: System, states: seq<System>, steps: seq<Step>, r: RequestId, i: nat)
    requires HashesAgree(s) && RecordsAgree(s) && IsAloneRun(s, states, steps, r) && 0 < i < |states|
    requires IsQuiet(s, steps[0].hash, states[i].clock)
    ensures Course(s, states[i], r, steps[0].state, steps[0].hash)
  {
    assert Enabled(states[i - 1], steps[i - 1]);
    if i > 1 {
      assert states[i - 1].clock <= states[i].clock;
      AloneCourse(s, states, steps, r, i - 1);
      StepCourse(s, states[i - 1], r, steps[0].state, steps[0].hash, steps[i - 1]);
    }
  }

  /** The outcome table of a renewal over any backend: started in any state of any run, and run
      alone within its lease and without crossing an expiry, it is answered with a renewed
      session if and only if the auth token is near expiry or expired, the hash is the active one
      of a live, unexpired session, and no valid lease of that session is stored. */
  lemma RenewedExactlyWhenAlone(config: SessionConfig, before: seq<System>, done: seq<Step>, i: nat,
                                states: seq<System>, steps: seq<Step>, r: RequestId)
    requires IsRun(config, before, done) && i < |before| && IsAloneRun(before[i], states, steps, r)
    requires IsQuiet(before[i], steps[0].hash, states[|steps|].clock)
    requires r in states[|steps|].requests && states[|steps|].requests[r].Renewal?
    requires states[|steps|].requests[r].phase.Answered?
    ensures var s, state, hash := before[i], steps[0].state, steps[0].hash;
            var outcome := states[|steps|].requests[r].phase.outcome;
            && (outcome.Renewed? <==> NeedsRenewal(state) && exists id :: IsActive(s, id, hash) && !IsLeased(s, id))
            && (forall id | IsActive(s, id, hash) && outcome.Renewed? :: outcome.session == Extended(s, id))
            && (forall id | NeedsRenewal(state) && IsActive(s, id, hash) && IsLeased(s, id) ::
                  outcome == Contended(HeldByOther(s.store.leases[id])))
            && (outcome == NotNeeded <==> state.Valid?)
  {
    InvAlways(config, before, done, i);
    AloneCourse(before[i], states, steps, r, |steps|);
    TableReads(before[i], steps[0].state, steps[0].hash, states[|steps|].requests[r].phase.outcome);
  }

  lemma TableReads(s: System, state: AuthTokenState, hash: TokenHash, outcome: RenewalOutcome)
    requires OutcomeAgrees(s, state, hash, outcome)
    ensures outcome.Renewed? <==> NeedsRenewal(state) && exists id :: IsActive(s, id, hash) && !IsLeased(s, id)
    ensures forall id | IsActive(s, id, hash) && outcome.Renewed? :: outcome.session == Extended(s, id)
    ensures forall id | NeedsRenewal(state) && IsActive(s, id, hash) && IsLeased(s, id) ::
              outcome == Contended(HeldByOther(s.store.leases[id]))
    ensures outcome == NotNeeded <==> state.Valid?
  {
  }

  // ---- a token that is not active ----

  /** A renewal with a token that is not active has not got beyond its lookup. */
  ghost predicate IsTurnedAway(s: System, now: System, r: RequestId, hash: TokenHash) {
    && now.store == s.store && now.known == s.known
    && r in now.requests && now.requests[r].Renewal?
    && now.requests[r].now == s.clock && now.requests[r].presented == hash
    && (now.requests[r].phase.Presented? || now.requests[r].phase == Answered(Rejected))
  }

  lemma TurnedAwayStays(s: System, now: System, r: RequestId, hash: TokenHash, step: Step)
    requires HashesAgree(s) && RecordsAgree(s) && (forall id :: !IsActive(s, id, hash))
    requires IsTurnedAway(s, now, r, hash) && Enabled(now, step) && RunsAlone(step, r) && FindsActive(now, step)
    ensures IsTurnedAway(s, Next(now, step), r, hash)
  {
    if step.Lookup? && step.found.Some? {
      var id := s.known[hash];
      assert step.found.value == Snapshot(s.store, id) && step.found.value.session.sessionId == id;
      assert !IsActive(s, id, hash);
    }
  }

  lemma {:induction false} TurnedAwayAlone(s: System, states: seq<System>, steps: seq<Step>, r: RequestId, i: nat)
    requires HashesAgree(s) && RecordsAgree(s) && IsAloneRun(s, states, steps, r) && 0 < i < |states|
    requires NeedsRenewal(steps[0].state) && forall id :: !IsActive(s, id, steps[0].hash)
    requires LookupsFindActive(states, steps)
    ensures IsTurnedAway(s, states[i], r, steps[0].hash)
  {
    assert Enabled(states[i - 1], steps[i - 1]);
    if i > 1 {
      TurnedAwayAlone(s, states, steps, r, i - 1);
      assert FindsActive(states[i - 1], steps[i - 1]);
      TurnedAwayStays(s, states[i - 1], r, steps[0].hash, steps[i - 1]);
    }
  }

  /** Over any backend whose lookups find active hashes only, a token that is not the active one
      of a live, unexpired session is rejected and nothing is stored, however much time passes. */
  lemma InactiveTokenIsRejected(config: SessionConfig, before: seq<System>, done: seq<Step>, i: nat,
                                states: seq<System>, steps: seq<Step>, r: RequestId)
    requires IsRun(config, before, done) && i < |before| && IsAloneRun(before[i], states, steps, r)
    requires NeedsRenewal(steps[0].state) && LookupsFindActive(states, steps)
    requires forall id :: !IsActive(before[i], id, steps[0].hash)
    ensures states[|steps|].store == before[i].store
    ensures r in states[|steps|].requests && states[|steps|].requests[r].Renewal?
    ensures var phase := states[|steps|].requests[r].phase; phase.Presented? || phase == Answered(Rejected)
  {
    InvAlways(config, before, done, i);
    TurnedAwayAlone(before[i], states, steps, r, |steps|);
  }

  /** In particular a token that some rotation has consumed, at any time after that rotation. */
  lemma ReusedTokenIsRejected(config: SessionConfig, before: seq<System>, done: seq<Step>, k: nat, i: nat,
                              states: seq<System>, steps: seq<Step>, r: RequestId)
    requires IsRun(config, before, done) && k < i < |before| && Commits(before, done, k)
    requires IsAloneRun(before[i], states, steps, r) && steps[0].hash == InputAt(before, done, k).previous
    requires NeedsRenewal(steps[0].state) && LookupsFindActive(states, steps)
    ensures states[|steps|].store == before[i].store
    ensures r in states[|steps|].requests && states[|steps|].requests[r].Renewal?
    ensures var phase := states[|steps|].requests[r].phase; phase.Presented? || phase == Answered(Rejected)
  {
    var input := InputAt(before, done, k);
    CommitConsumes(config, before, done, k);
    ConsumedForever(config, before, done, input.sessionId, input.previous, k + 1, i);
    InactiveTokenIsRejected(config, before, done, i, states, steps, r);
  }

  // ---- it can always go through ----

  /** Ids and tokens that nobody has drawn. */
  ghost predicate AreFresh(s: System, hash: TokenHash, leaseId: LeaseId, pair: TokenPair) {
    leaseId !in s.leaseIds && pair.refresh !in s.drawn && pair.refresh !in s.presented && pair.refresh != hash
  }

  lemma StartAlone(s: System, id: SessionId, r: RequestId, state: AuthTokenState, requirement: RenewalRequirement,
                   hash: TokenHash)
    returns (states: seq<System>, steps: seq<Step>)
    requires HashesAgree(s) && RecordsAgree(s) && IsActive(s, id, hash) && NeedsRenewal(state)
    requires r !in s.requests && hash in s.released
    ensures IsAloneRun(s, states, steps, r) && steps[0] == BeginRenewal(r, state, requirement, hash)
    ensures var now := states[|steps|];
            && now == s.(requests := now.requests, presented := s.presented + {hash})
            && r in now.requests && now.requests[r] == Renewal(s.clock, hash, Found(Snapshot(s.store, id)))
  {
    var begin, look := BeginRenewal(r, state, requirement, hash), Lookup(r, Some(Snapshot(s.store, id)));
    var begun := Next(s, begin);
    LookupAlone(s, begun, id, r, hash);
    states, steps := [s, begun, Next(begun, look)], [begin, look];
  }

  lemma LookupAlone(s: System, begun: System, id: SessionId, r: RequestId, hash: TokenHash)
    requires HashesAgree(s) && RecordsAgree(s) && IsActive(s, id, hash)
    requires begun.store == s.store && begun.known == s.known
    requires r in begun.requests && begun.requests[r] == Renewal(s.clock, hash, Presented)
    ensures var look := Lookup(r, Some(Snapshot(s.store, id)));
            && Enabled(begun, look)
            && Next(begun, look) == Put(begun, r, Renewal(s.clock, hash, Found(Snapshot(s.store, id))))
  {
    ActiveIsKnown(s, id, hash);
  }

  lemma AloneExtends(s: System, states: seq<System>, steps: seq<Step>, r: RequestId, step: Step)
    requires IsAloneRun(s, states, steps, r) && Enabled(states[|steps|], step) && RunsAlone(step, r)
    ensures IsAloneRun(s, states + [Next(states[|steps|], step)], steps + [step], r)
  {
    var states', steps' := states + [Next(states[|steps|], step)], steps + [step];
    forall i {:trigger steps'[i]} | 0 <= i < |steps'|
      ensures Enabled(states'[i], steps'[i]) && states'[i + 1] == Next(states'[i], steps'[i]) && RunsAlone(steps'[i], r)
    {
      if i < |steps| {
        assert steps'[i] == steps[i] && states'[i] == states[i] && states'[i + 1] == states[i + 1];
      }
    }
  }

  lemma HoldAlone(s: System, id: SessionId, before: seq<System>, done: seq<Step>, r: RequestId,
                  leaseId: LeaseId, pair: TokenPair) returns (states: seq<System>, steps: seq<Step>)
    requires HashesAgree(s) && RecordsAgree(s) && IsAloneRun(s, before, done, r) && IsActive(s, id, done[0].hash)
    requires !IsLeased(s, id)
    requires AreFresh(s, done[0].hash, leaseId, pair)
    requires var now, hash := before[|done|], done[0].hash;
             && now == s.(requests := now.requests, presented := s.presented + {hash})
             && r in now.requests && now.requests[r] == Renewal(s.clock, hash, Found(Snapshot(s.store, id)))
    ensures IsAloneRun(s, states, steps, r) && steps[0] == done[0]
    ensures var now, lease := states[|steps|], LeaseFromTtl(id, leaseId, s.clock, s.config.renewalLeaseTtl);
            && now.clock == s.clock && now.config == s.config
            && now.store == s.store.(leases := s.store.leases[id := lease])
            && r in now.requests
            && now.requests[r] == Renewal(s.clock, done[0].hash, Ready(Snapshot(s.store, id), lease, pair))
  {
    var now, lease := before[|done|], LeaseFromTtl(id, leaseId, s.clock, s.config.renewalLeaseTtl);
    var acquire := Acquire(r, leaseId, s.clock, Acquired(lease), s.store.(leases := s.store.leases[id := lease]));
    AloneExtends(s, before, done, r, acquire);
    var held := Next(now, acquire);
    states, steps := before + [held], done + [acquire];
    AloneExtends(s, states, steps, r, Draw(r, pair));
    states, steps := states + [Next(held, Draw(r, pair))], steps + [Draw(r, pair)];
  }

  lemma CommitAlone(s: System, id: SessionId, before: seq<System>, done: seq<Step>, r: RequestId,
                    leaseId: LeaseId, pair: TokenPair) returns (states: seq<System>, steps: seq<Step>)
    requires IsAloneRun(s, before, done, r) && IsActive(s, id, done[0].hash) && s.config.renewalLeaseTtl > 0
    requires s.store.sessions[id].session.sessionId == id
    requires var now, lease := before[|done|], LeaseFromTtl(id, leaseId, s.clock, s.config.renewalLeaseTtl);
             && now.clock == s.clock && now.config == s.config
             && now.store == s.store.(leases := s.store.leases[id := lease])
             && r in now.requests
             && now.requests[r] == Renewal(s.clock, done[0].hash, Ready(Snapshot(s.store, id), lease, pair))
    ensures IsAloneRun(s, states, steps, r) && steps[0] == done[0]
    ensures var now := states[|steps|];
            now.clock == s.clock && r in now.requests
            && now.requests[r] == Renewal(s.clock, done[0].hash, Answered(Renewed(Extended(s, id), pair)))
  {
    var ready := before[|done|];
    var input := RotateInput(s.config, ready.requests[r]);
    var rotate := Rotate(r, s.clock, Rotated, ready.store.(
      sessions :=
        s.store.sessions[id := StoredSession(input.nextSession, input.next, NewRefreshRecord(input.nextSession))]));
    assert input.sessionId == id && RotationAnswered(ready.store, input, s.clock, Rotated, rotate.post);
    AloneExtends(s, before, done, r, rotate);
    var committed := Next(ready, rotate);
    states, steps := before + [committed], done + [rotate];
    AloneExtends(s, states, steps, r, Return(r));
    states, steps := states + [Next(committed, Return(r))], steps + [Return(r)];
  }

  lemma AloneSucceeds(s: System, id: SessionId, r: RequestId, state: AuthTokenState, requirement: RenewalRequirement,
                      hash: TokenHash, leaseId: LeaseId, pair: TokenPair)
    returns (states: seq<System>, steps: seq<Step>)
    requires HashesAgree(s) && RecordsAgree(s)
    requires IsActive(s, id, hash) && !IsLeased(s, id) && NeedsRenewal(state)
    requires r !in s.requests && hash in s.released && AreFresh(s, hash, leaseId, pair) && s.config.renewalLeaseTtl > 0
    ensures IsAloneRun(s, states, steps, r) && steps[0] == BeginRenewal(r, state, requirement, hash)
    ensures var now := states[|steps|];
            now.clock == s.clock && r in now.requests
            && now.requests[r] == Renewal(s.clock, hash, Answered(Renewed(Extended(s, id), pair)))
  {
    states, steps := StartAlone(s, id, r, state, requirement, hash);
    states, steps := HoldAlone(s, id, states, steps, r, leaseId, pair);
    states, steps := CommitAlone(s, id, states, steps, r, leaseId, pair);
  }

  /** Such a renewal is never stuck: at the end of any run, whenever the table promises a renewed
      session, there are steps of the renewal alone, without time passing, that reach it. */
  lemma RenewalAloneSucceeds(config: SessionConfig, before: seq<System>, done: seq<Step>, id: SessionId, r: RequestId,
                             state: AuthTokenState, requirement: RenewalRequirement,
                             hash: TokenHash, leaseId: LeaseId, pair: TokenPair)
    returns (states: seq<System>, steps: seq<Step>)
    requires IsRun(config, before, done) && config.renewalLeaseTtl > 0
    requires var s := before[|done|];
             && IsActive(s, id, hash) && !IsLeased(s, id) && NeedsRenewal(state)
             && r !in s.requests && hash in s.released && AreFresh(s, hash, leaseId, pair)
    ensures IsAloneRun(before[|done|], states, steps, r) && steps[0] == BeginRenewal(r, state, requirement, hash)
    ensures var s, now := before[|done|], states[|steps|];
            now.clock == s.clock && r in now.requests
            && now.requests[r] == Renewal(s.clock, hash, Answered(Renewed(Extended(s, id), pair)))
  {
    InvAlways(config, before, done, |done|);
    RunKeepsConfig(config, before, done, |done|);
    states, steps := AloneSucceeds(before[|done|], id, r, state, requirement, hash, leaseId, pair);
  }

  lemma {:induction false} RunKeepsConfig(config: SessionConfig, states: seq<System>, steps: seq<Step>, i: nat)
    requires IsRun(config, states, steps) && i < |states|
    ensures states[i].config == config
  {
    if i > 0 {
      RunKeepsConfig(config, states, steps, i - 1);
      assert Enabled(states[i - 1], steps[i - 1]);
    }
  }

  // ---- issuance ----

  /** The store after a session was issued. */
  function WithIssued(store: Store, session: Session, hash: TokenHash): Store {
    Store(store.sessions[session.sessionId := StoredSession(session, hash,
            SessionRefreshRecord(session.sessionId, session.familyId, session.expiresAt, false))],
          store.families[session.familyId :=
            SessionFamilyRecord(session.familyId, session.subjectId, session.createdAt, false)],
          store.leases)
  }

  lemma CreateIssued(begun: System, r: RequestId, session: Session, pair: TokenPair)
    requires r in begun.requests && begun.requests[r] == Issuance(session, pair, Drawn)
    requires session.sessionId !in begun.store.sessions && session.familyId !in begun.store.families
    ensures var create := Create(r, WithIssued(begun.store, session, pair.refresh));
            && Enabled(begun, create)
            && var created := Next(begun, create);
               && created.store == create.post && r in created.requests
               && created.requests[r] == Issuance(session, pair, Persisted)
  {
  }

  lemma BeginIssued(s: System, r: RequestId, sessionId: SessionId, familyId: FamilyId, subjectId: string,
                    pair: TokenPair)
    requires Enabled(s, BeginIssuance(r, sessionId, familyId, subjectId, pair))
    ensures var begun := Next(s, BeginIssuance(r, sessionId, familyId, subjectId, pair));
            var expiresAt := s.clock + s.config.refreshTokenTtl;
            && begun.store == s.store && r in begun.requests
            && begun.requests[r] ==
               Issuance(Session(sessionId, familyId, subjectId, s.clock, expiresAt, None, false), pair, Drawn)
  {
  }

  lemma ReturnIssued(created: System, r: RequestId, session: Session, pair: TokenPair)
    requires r in created.requests && created.requests[r] == Issuance(session, pair, Persisted)
    ensures Enabled(created, Return(r))
    ensures var end := Next(created, Return(r));
            && end.store == created.store && pair.refresh in end.released
            && r in end.requests && end.requests[r] == Issuance(session, pair, Returned)
  {
  }

  /** An issuance that nothing interrupts hands out its tokens and leaves a session of the present
      moment: as requested, created now, not revoked, and expiring one refresh lifetime later. */
  lemma IssuanceAloneSucceeds(config: SessionConfig, before: seq<System>, done: seq<Step>, r: RequestId,
                              sessionId: SessionId, familyId: FamilyId, subjectId: string, pair: TokenPair)
    returns (states: seq<System>, steps: seq<Step>)
    requires IsRun(config, before, done)
    requires Enabled(before[|done|], BeginIssuance(r, sessionId, familyId, subjectId, pair))
    ensures |states| == |steps| + 1 && states[0] == before[|done|]
    ensures forall i {:trigger steps[i]} | 0 <= i < |steps| ::
              Enabled(states[i], steps[i]) && states[i + 1] == Next(states[i], steps[i])
    ensures var s, now := before[|done|], states[|steps|];
            var expiresAt := s.clock + config.refreshTokenTtl;
            var session := Session(sessionId, familyId, subjectId, s.clock, expiresAt, None, false);
            && r in now.requests && now.requests[r] == Issuance(session, pair, Returned)
            && pair.refresh in now.released && now.store == WithIssued(s.store, session, pair.refresh)
  {
    var s := before[|done|];
    InvAlways(config, before, done, |done|);
    RunKeepsConfig(config, before, done, |done|);
    var session := Session(sessionId, familyId, subjectId, s.clock, s.clock + config.refreshTokenTtl, None, false);
    var begin := BeginIssuance(r, sessionId, familyId, subjectId, pair);
    var create := Create(r, WithIssued(s.store, session, pair.refresh));
    BeginIssued(s, r, sessionId, familyId, subjectId, pair);
    var begun := Next(s, begin);
    assert RecordsAgree(s);
    CreateIssued(begun, r, session, pair);
    var created := Next(begun, create);
    ReturnIssued(created, r, session, pair);
    states, steps := [s, begun, created, Next(created, Return(r))], [begin, create, Return(r)];
  }
}
