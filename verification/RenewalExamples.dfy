/** Runs that show what the contract leaves possible. */
module RenewalExamples {
  import opened Wrappers
  import opened Sessions
  import opened RepositoryContract
  import opened RenewalProtocol
  import opened RenewalTheorems

  const CONFIG := SessionConfig(10, 100, 5, 2, 0)
  const ISSUED := NewSession(1, 1, "subject", 0, 100)
  const FIRST := TokenPair("auth 0", "hash 0")
  const SECOND := TokenPair("auth 1", "hash 1")
  const THIRD := TokenPair("auth 2", "hash 2")
  const FAMILY := SessionFamilyRecord(1, "subject", 0, false)
  const LOOKUP := SessionLookup(ISSUED, FAMILY, NewRefreshRecord(ISSUED))
  const STORED := StoredSession(ISSUED, "hash 0", NewRefreshRecord(ISSUED))
  const RENEWED := ISSUED.Touched(0)
  const ROTATED := StoredSession(RENEWED, "hash 1", NewRefreshRecord(RENEWED))

  lemma RunExtends(config: SessionConfig, states: seq<System>, steps: seq<Step>, step: Step)
    requires IsRun(config, states, steps) && Enabled(states[|states| - 1], step)
    ensures IsRun(config, states + [Next(states[|states| - 1], step)], steps + [step])
  {
    var states', steps' := states + [Next(states[|states| - 1], step)], steps + [step];
    forall i {:trigger steps'[i]} | 0 <= i < |steps'|
      ensures Enabled(states'[i], steps'[i]) && states'[i + 1] == Next(states'[i], steps'[i])
    {
      if i < |steps| {
        assert steps'[i] == steps[i] && states'[i] == states[i] && states'[i + 1] == states[i + 1];
      }
    }
  }

  /** One issued session whose token its client holds; the given renewals have found it. */
  ghost predicate IsFoundBy(s: System, renewals: set<RequestId>) {
    && s.config == CONFIG && s.clock == 0
    && s.store == Store(map[1 := STORED], map[1 := FAMILY], map[])
    && s.requests.Keys == {0} + renewals
    && (forall r | r in renewals :: s.requests[r] == Renewal(0, "hash 0", Found(LOOKUP)))
    && s.known == map["hash 0" := 1] && s.rotations == map[1 := []]
    && s.drawn == {"hash 0"} && s.released == {"hash 0"} && s.presented <= {"hash 0"} && s.leaseIds == {}
  }

  lemma Issue() returns (states: seq<System>, steps: seq<Step>)
    ensures IsRun(CONFIG, states, steps) && IsFoundBy(states[|states| - 1], {})
  {
    var s0 := Initial(CONFIG);
    states, steps := [s0], [];
    var step := BeginIssuance(0, 1, 1, "subject", FIRST);
    RunExtends(CONFIG, states, steps, step);
    var s1 := Next(s0, step);
    states, steps := states + [s1], steps + [step];
    step := Create(0, Store(map[1 := STORED], map[1 := FAMILY], map[]));
    assert Enabled(s1, step);
    RunExtends(CONFIG, states, steps, step);
    var s2 := Next(s1, step);
    states, steps := states + [s2], steps + [step];
    RunExtends(CONFIG, states, steps, Return(0));
    states, steps := states + [Next(s2, Return(0))], steps + [Return(0)];
  }

  lemma Find(before: seq<System>, done: seq<Step>, renewals: set<RequestId>, r: RequestId)
    returns (states: seq<System>, steps: seq<Step>)
    requires IsRun(CONFIG, before, done) && IsFoundBy(before[|before| - 1], renewals) && r !in {0} + renewals
    ensures IsRun(CONFIG, states, steps) && IsFoundBy(states[|states| - 1], renewals + {r})
  {
    var s0 := before[|before| - 1];
    var step := BeginRenewal(r, Expired(0), Required, "hash 0");
    RunExtends(CONFIG, before, done, step);
    var s1 := Next(s0, step);
    states, steps := before + [s1], done + [step];
    step := Lookup(r, Some(LOOKUP));
    assert LookedUp(s1.store, s1.known, "hash 0", Some(LOOKUP));
    RunExtends(CONFIG, states, steps, step);
    states, steps := states + [Next(s1, step)], steps + [step];
  }

  /** A renewal is ready to rotate; others may have found the session meanwhile. */
  ghost predicate IsReady(s: System, r: RequestId, lease: RenewalLease, pair: TokenPair) {
    && s.config == CONFIG && s.clock == 0
    && s.store == Store(map[1 := STORED], map[1 := FAMILY], map[1 := lease])
    && r in s.requests && s.requests[r] == Renewal(0, "hash 0", Ready(LOOKUP, lease, pair))
    && s.rotations == map[1 := []]
  }

  lemma AcquireAndDraw(before: seq<System>, done: seq<Step>, renewals: set<RequestId>, r: RequestId)
    returns (states: seq<System>, steps: seq<Step>)
    requires IsRun(CONFIG, before, done) && IsFoundBy(before[|before| - 1], renewals) && r in renewals
    ensures IsRun(CONFIG, states, steps) && IsReady(states[|states| - 1], r, LeaseFromTtl(1, 7, 0, 2), SECOND)
    ensures var s := states[|states| - 1];
            && (forall q | q in renewals && q != r ::
                  q in s.requests && s.requests[q] == Renewal(0, "hash 0", Found(LOOKUP)))
            && s.drawn == {"hash 0", "hash 1"} && s.presented <= {"hash 0"} && s.leaseIds == {7}
  {
    var s0, lease := before[|before| - 1], LeaseFromTtl(1, 7, 0, 2);
    var step := Acquire(r, 7, 0, Acquired(lease), Store(map[1 := STORED], map[1 := FAMILY], map[1 := lease]));
    assert s0.store.leases[1 := lease] == map[1 := lease];
    RunExtends(CONFIG, before, done, step);
    var s1 := Next(s0, step);
    states, steps := before + [s1], done + [step];
    RunExtends(CONFIG, states, steps, Draw(r, SECOND));
    states, steps := states + [Next(s1, Draw(r, SECOND))], steps + [Draw(r, SECOND)];
  }

  /** A backend that judges expiry at the acquisition lets a renewal commit although its lease
      has long expired. */
  lemma ExpiredLeaseMayCommit() returns (states: seq<System>, steps: seq<Step>, k: nat)
    ensures IsRun(CONFIG, states, steps) && Commits(states, steps, k)
    ensures states[k].requests[steps[k].request].phase.lease.leaseUntil < states[k].clock
  {
    states, steps := Issue();
    states, steps := Find(states, steps, {}, 1);
    states, steps := AcquireAndDraw(states, steps, {1}, 1);
    var ready := states[|states| - 1];
    RunExtends(CONFIG, states, steps, Tick(50));
    var s := Next(ready, Tick(50));
    states, steps := states + [s], steps + [Tick(50)];
    k := |steps|;
    var step := Rotate(1, 0, Rotated, s.store.(sessions := map[1 := ROTATED]));
    assert s.store.sessions[1 := ROTATED] == map[1 := ROTATED];
    RunExtends(CONFIG, states, steps, step);
    states, steps := states + [Next(s, step)], steps + [step];
  }

  /** The first of two renewals has committed and released its lease; the other has only found
      the session. */
  ghost predicate IsOvertaken(s: System) {
    && s.config == CONFIG && s.clock == 0
    && s.store == Store(map[1 := ROTATED], map[1 := FAMILY], map[])
    && 1 in s.requests && s.requests[1] == Renewal(0, "hash 0", Committed(RENEWED, SECOND))
    && 2 in s.requests && s.requests[2] == Renewal(0, "hash 0", Found(LOOKUP))
    && s.drawn == {"hash 0", "hash 1"} && s.presented <= {"hash 0"} && s.leaseIds == {7}
  }

  lemma CommitFirst(before: seq<System>, done: seq<Step>) returns (states: seq<System>, steps: seq<Step>)
    requires IsRun(CONFIG, before, done)
    requires var s := before[|before| - 1];
             && IsReady(s, 1, LeaseFromTtl(1, 7, 0, 2), SECOND)
             && 2 in s.requests && s.requests[2] == Renewal(0, "hash 0", Found(LOOKUP))
             && s.drawn == {"hash 0", "hash 1"} && s.presented <= {"hash 0"} && s.leaseIds == {7}
    ensures IsRun(CONFIG, states, steps) && IsOvertaken(states[|states| - 1])
  {
    var s := before[|before| - 1];
    var step := Rotate(1, 0, Rotated, Store(map[1 := ROTATED], map[1 := FAMILY], map[]));
    assert s.store.sessions[1 := ROTATED] == map[1 := ROTATED] && s.store.leases - {1} == map[];
    RunExtends(CONFIG, before, done, step);
    states, steps := before + [Next(s, step)], done + [step];
  }

  ghost predicate IsReplayed(s: System) {
    && s.store == Store(map[1 := ROTATED], map[1 := FAMILY], map[1 := LeaseFromTtl(1, 8, 0, 2)])
    && 1 in s.requests && s.requests[1] == Renewal(0, "hash 0", Committed(RENEWED, SECOND))
    && 2 in s.requests && s.requests[2] == Renewal(0, "hash 0", Replayed(LOOKUP))
  }

  lemma ReplayRevokesTheRenewed(pre: Store)
    requires pre == Store(map[1 := ROTATED], map[1 := FAMILY], map[1 := LeaseFromTtl(1, 8, 0, 2)])
    ensures FamilyRevoked(pre, 1, Store(map[1 := ROTATED.Revoke()], map[1 := FAMILY.(revoked := true)], map[]))
  {
    assert RevokeMembers(pre.sessions, 1) == map[1 := ROTATED.Revoke()];
    assert pre.families[1 := FAMILY.(revoked := true)] == map[1 := FAMILY.(revoked := true)];
  }

  /** The overtaken renewal goes on to present the hash that is no longer active. */
  lemma Mismatch(before: seq<System>, done: seq<Step>) returns (states: seq<System>, steps: seq<Step>)
    requires IsRun(CONFIG, before, done) && IsOvertaken(before[|before| - 1])
    ensures IsRun(CONFIG, states, steps)
    ensures IsReplayed(states[|states| - 1])
  {
    var s0, lease := before[|before| - 1], LeaseFromTtl(1, 8, 0, 2);
    var held := Store(map[1 := ROTATED], map[1 := FAMILY], map[1 := lease]);
    var step := Acquire(2, 8, 0, Acquired(lease), held);
    assert s0.store.leases[1 := lease] == map[1 := lease];
    RunExtends(CONFIG, before, done, step);
    var s1 := Next(s0, step);
    states, steps := before + [s1], done + [step];
    RunExtends(CONFIG, states, steps, Draw(2, THIRD));
    var s2 := Next(s1, Draw(2, THIRD));
    states, steps := states + [s2], steps + [Draw(2, THIRD)];
    step := Rotate(2, 0, RefreshTokenMismatch, held);
    RunExtends(CONFIG, states, steps, step);
    states, steps := states + [Next(s2, step)], steps + [step];
  }

  /** Two renewals that one client sends at once with its only token: the first is answered with
      a renewed session, the second as a replay, which revokes that very session. */
  lemma SimultaneousRenewalsEndTheSession() returns (states: seq<System>, steps: seq<Step>)
    ensures IsRun(CONFIG, states, steps)
    ensures var s := states[|states| - 1];
            && 1 in s.requests && s.requests[1] == Renewal(0, "hash 0", Answered(Renewed(RENEWED, SECOND)))
            && 2 in s.requests && s.requests[2] == Renewal(0, "hash 0", Answered(ReplayDetected(1)))
            && 1 in s.store.sessions && s.store.sessions[1].hash == SECOND.refresh
            && s.store.sessions[1].session.revoked
  {
    states, steps := Issue();
    states, steps := Find(states, steps, {}, 1);
    states, steps := Find(states, steps, {1}, 2);
    states, steps := AcquireAndDraw(states, steps, {1, 2}, 1);
    states, steps := CommitFirst(states, steps);
    states, steps := Mismatch(states, steps);
    var s0 := states[|states| - 1];
    RunExtends(CONFIG, states, steps, Return(1));
    var s1 := Next(s0, Return(1));
    states, steps := states + [s1], steps + [Return(1)];
    var step := RevokeReplayed(2, Store(map[1 := ROTATED.Revoke()], map[1 := FAMILY.(revoked := true)], map[]));
    ReplayRevokesTheRenewed(s1.store);
    RunExtends(CONFIG, states, steps, step);
    states, steps := states + [Next(s1, step)], steps + [step];
  }
}
