/** The database backend of `SurrealSessions` where nothing interferes, and what its rotations
    rest on where something does. */
module SurrealAlone {
  import opened Wrappers
  import opened Sessions
  import opened RepositoryContract
  import opened SurrealSessions

  // ---- the active hash was returned to a client ----

  predicate WasReturned(s: Database, task: Task) {
    match task
    case Renewal(_, _, Acquiring(_, read)) => read.stored.hash in s.released
    case Renewal(_, _, Rotating(_, _, read, _)) => read.stored.hash in s.released
    case Revoking(read) => read.stored.hash in s.released
    case Touching(_, read) => read.stored.hash in s.released
    case _ => true
  }

  predicate ActiveWasReturned(s: Database) {
    s.row.stored.hash in s.released && forall t | t in s.tasks :: WasReturned(s, s.tasks[t])
  }

  lemma ReturnedStays(s: Database, step: Step)
    requires ActiveWasReturned(s) && Enabled(s, step)
    ensures ActiveWasReturned(Next(s, step))
  {
    if !step.Tick? && step.task in s.tasks {
      assert WasReturned(s, s.tasks[step.task]);
    }
  }

  lemma {:induction false} ActiveWasReturnedAlways(config: SessionConfig, session: Session, hash: TokenHash,
                                                   states: seq<Database>, steps: seq<Step>, i: nat)
    requires IsRun(Initial(config, session, hash), states, steps) && i < |states|
    ensures ActiveWasReturned(states[i])
  {
    if i > 0 {
      ActiveWasReturnedAlways(config, session, hash, states, steps, i - 1);
      ReturnedStays(states[i - 1], steps[i - 1]);
    }
  }

  // ---- one operation alone ----

  /** Neither session nor refresh token is revoked or expired, and no valid lease is stored. */
  predicate CanRenew(row: Row, now: Time) {
    && !row.stored.session.revoked && !row.stored.refresh.revoked
    && now < row.stored.session.expiresAt && now < row.stored.refresh.expiresAt
    && (row.lease.Some? ==> row.lease.value.leaseUntil <= now)
  }

  /** The record after a renewal at `now`. */
  function Renewed(row: Row, now: Time, ttl: Duration, next: TokenHash): Row {
    var was := row.stored.session;
    Row(StoredSession(
          Session(was.sessionId, was.familyId, was.subjectId, was.createdAt, now + ttl, Some(now), was.revoked),
          next, SessionRefreshRecord(was.sessionId, was.familyId, now + ttl, false)), None)
  }

  lemma TurnedAway(s: Database, t: TaskId, hash: TokenHash) returns (states: seq<Database>, steps: seq<Step>)
    requires Enabled(s, Begin(t, hash)) && !(hash == s.row.stored.hash && CanRenew(s.row, s.clock))
    ensures IsRun(s, states, steps)
    ensures var end := states[|steps|]; end.row == s.row && end.tasks == s.tasks[t := Renewal(s.clock, hash, Ended)]
  {
    var begun := Next(s, Begin(t, hash));
    var looked := Next(begun, Look(t));
    states, steps := [s, begun, looked], [Begin(t, hash), Look(t)];
    if looked.tasks[t].phase.Found? {
      states, steps := states + [Next(looked, ReadLease(t))], steps + [ReadLease(t)];
    }
  }

  lemma GoesThrough(s: Database, t: TaskId, leaseId: LeaseId, next: TokenHash)
    returns (states: seq<Database>, steps: seq<Step>)
    requires IsRenewable(s) && AreFresh(s, t, leaseId, next)
    ensures IsRun(s, states, steps)
    ensures var end := states[|steps|];
            && end.row == Renewed(s.row, s.clock, s.config.refreshTokenTtl, next) && next in end.released
            && t in end.tasks && end.tasks[t] == Renewal(s.clock, s.row.stored.hash, Succeeded(next))
  {
    states, steps := CheckRenewal(s, t, leaseId, next);
    RunExtends(s, states, steps, WriteRotation(t));
    states, steps := states + [Next(states[|steps|], WriteRotation(t))], steps + [WriteRotation(t)];
  }

  /** From any state of any run, a renewal that nothing interrupts succeeds if and only if its hash
      is the active one of a session that can be renewed; it then leaves the extended session under
      the new hash without a lease, and otherwise the record as it was. */
  lemma RenewalAlone(config: SessionConfig, session: Session, hash: TokenHash, before: seq<Database>, done: seq<Step>,
                     t: TaskId, presented: TokenHash, leaseId: LeaseId, next: TokenHash)
    returns (states: seq<Database>, steps: seq<Step>)
    requires IsRun(Initial(config, session, hash), before, done) && before[|done|].config.renewalLeaseTtl > 0
    requires Enabled(before[|done|], Begin(t, presented)) && AreFresh(before[|done|], t, leaseId, next)
    ensures IsRun(before[|done|], states, steps)
    ensures var s, end := before[|done|], states[|steps|];
            var renews := presented == s.row.stored.hash && CanRenew(s.row, s.clock);
            && t in end.tasks
            && end.tasks[t] == Renewal(s.clock, presented, if renews then Succeeded(next) else Ended)
            && end.row == if renews then Renewed(s.row, s.clock, s.config.refreshTokenTtl, next) else s.row
  {
    var s := before[|done|];
    if presented == s.row.stored.hash && CanRenew(s.row, s.clock) {
      ActiveWasReturnedAlways(config, session, hash, before, done, |done|);
      states, steps := GoesThrough(s, t, leaseId, next);
    } else {
      states, steps := TurnedAway(s, t, presented);
    }
  }

  /** A revocation alone revokes session and refresh token, drops the lease and keeps the rest. */
  lemma RevocationAlone(s: Database, t: TaskId) returns (states: seq<Database>, steps: seq<Step>)
    requires t !in s.tasks
    ensures IsRun(s, states, steps)
    ensures var was, row := s.row.stored, states[|steps|].row;
            && row.stored.session == was.session.(revoked := true) && row.stored.hash == was.hash
            && row.stored.refresh == was.refresh.(revoked := true) && row.lease.None?
  {
    var read := Next(s, ReadRevocation(t));
    states, steps := [s, read, Next(read, WriteRevocation(t))], [ReadRevocation(t), WriteRevocation(t)];
  }

  /** A touch alone notes when the session was last seen and keeps the rest. */
  lemma TouchAlone(s: Database, t: TaskId, at: Time) returns (states: seq<Database>, steps: seq<Step>)
    requires t !in s.tasks
    ensures IsRun(s, states, steps)
    ensures var stored := s.row.stored;
            states[|steps|].row ==
              Row(StoredSession(stored.session.(lastSeenAt := Some(at)), stored.hash, stored.refresh), s.row.lease)
  {
    var read := Next(s, ReadTouch(t, at));
    states, steps := [s, read, Next(read, WriteTouch(t))], [ReadTouch(t, at), WriteTouch(t)];
  }

  // ---- what a rotation rests on ----

  /** The row has the presented hash as the active one, is not revoked, and stores the lease that
      the renewal holds, valid when the renewal began. */
  predicate Permits(row: Row, task: Task) {
    && task.Renewal? && task.phase.Holding?
    && row.stored.hash == task.presented && !row.stored.session.revoked && !row.stored.refresh.revoked
    && row.lease.Some? && row.lease.value.leaseId == task.phase.lease.leaseId
    && task.phase.lease.acquiredAt < row.lease.value.leaseUntil
  }

  /** Step `m` read a record that permits the rotation of `t`. */
  ghost predicate PermittedAt(states: seq<Database>, steps: seq<Step>, t: TaskId, m: nat) {
    && m < |steps| < |states| && steps[m].ReadRotation? && steps[m].task == t
    && t in states[m].tasks && Permits(states[m].row, states[m].tasks[t])
  }

  lemma PendingSince(s: Database, step: Step, t: TaskId)
    requires Enabled(s, step) && t in Next(s, step).tasks && IsPending(Next(s, step).tasks[t])
    ensures t in s.tasks
    ensures IsPending(s.tasks[t]) || (step.ReadRotation? && step.task == t && Permits(s.row, s.tasks[t]))
  {
  }

  /** In every run, also where operations overtake each other, a rotation is written only after its
      own check has found the active hash, the own valid lease and no revocation. */
  lemma {:induction false} WrittenAfterItsCheck(config: SessionConfig, session: Session, hash: TokenHash,
                                                states: seq<Database>, steps: seq<Step>, i: nat, t: TaskId)
    returns (m: nat)
    requires IsRun(Initial(config, session, hash), states, steps) && i < |states|
    requires t in states[i].tasks && IsPending(states[i].tasks[t])
    ensures m < i && PermittedAt(states, steps, t, m)
  {
    PendingSince(states[i - 1], steps[i - 1], t);
    m := i - 1;
    if IsPending(states[i - 1].tasks[t]) {
      m := WrittenAfterItsCheck(config, session, hash, states, steps, i - 1, t);
    }
  }
}
