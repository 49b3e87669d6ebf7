/** One session record of a database backend whose operations read the record, decide, and then
    write it back whole in a second query. The reads and writes of any number of renewals,
    revocations and touches interleave.

    As in `RenewalProtocol`, lease ids and hashes are fresh, and a client presents a token it was
    given or a value that nobody drew. Only what the family record adds is left out. */
module SurrealSessions {
  import opened Wrappers
  import opened Sessions
  import opened RepositoryContract

  type TaskId = nat

  datatype Row = Row(stored: StoredSession, lease: Option<RenewalLease>)

  /** `commits` is the number of rotations written before the check of this one. */
  datatype Phase =
    | Looking
    | Found(session: Session)
    | Acquiring(session: Session, read: Row)
    | Holding(session: Session, lease: RenewalLease)
    | Rotating(session: Session, next: TokenHash, read: Row, commits: nat)
    | Succeeded(next: TokenHash)
    | Ended

  datatype Task =
    | Renewal(now: Time, presented: TokenHash, phase: Phase)
    | Revoking(read: Row)
    | Touching(at: Time, read: Row)
    | Finished

  datatype Commit = Commit(task: TaskId, previous: TokenHash, next: TokenHash)

  /** The record, and as history the written rotations and the hashes drawn, presented and
      returned so far. */
  datatype Database = Database(
    config: SessionConfig, row: Row, clock: Time, tasks: map<TaskId, Task>,
    log: seq<Commit>, drawn: set<TokenHash>, presented: set<TokenHash>, released: set<TokenHash>,
    leaseIds: set<LeaseId>)

  datatype Step =
    | Tick(to: Time)
    | Begin(task: TaskId, hash: TokenHash)
    | Look(task: TaskId)
    | ReadLease(task: TaskId)
    | WriteLease(task: TaskId, leaseId: LeaseId)
    | ReadRotation(task: TaskId, next: TokenHash)
    | WriteRotation(task: TaskId)
    | ReadRevocation(task: TaskId)
    | WriteRevocation(task: TaskId)
    | ReadTouch(task: TaskId, at: Time)
    | WriteTouch(task: TaskId)

  function Initial(config: SessionConfig, session: Session, hash: TokenHash): Database {
    Database(config, Row(StoredSession(session, hash, NewRefreshRecord(session)), None), session.createdAt, map[],
             [], {hash}, {}, {hash}, {})
  }

  predicate InPhase(s: Database, t: TaskId) {
    t in s.tasks && s.tasks[t].Renewal?
  }

  predicate Enabled(s: Database, step: Step) {
    match step
    case Tick(to) => s.clock <= to
    case Begin(t, hash) => t !in s.tasks && (hash in s.released || hash !in s.drawn)
    case Look(t) => InPhase(s, t) && s.tasks[t].phase.Looking?
    case ReadLease(t) => InPhase(s, t) && s.tasks[t].phase.Found?
    case WriteLease(t, leaseId) => InPhase(s, t) && s.tasks[t].phase.Acquiring? && leaseId !in s.leaseIds
    case ReadRotation(t, next) =>
      InPhase(s, t) && s.tasks[t].phase.Holding? && next !in s.drawn && next !in s.presented
    case WriteRotation(t) => InPhase(s, t) && s.tasks[t].phase.Rotating?
    case ReadRevocation(t) => t !in s.tasks
    case WriteRevocation(t) => t in s.tasks && s.tasks[t].Revoking?
    case ReadTouch(t, _) => t !in s.tasks
    case WriteTouch(t) => t in s.tasks && s.tasks[t].Touching?
  }

  predicate IsRevoked(row: Row) {
    row.stored.session.revoked || row.stored.refresh.revoked
  }

  function PutPhase(s: Database, t: TaskId, phase: Phase): Database
    requires InPhase(s, t)
  {
    s.(tasks := s.tasks[t := s.tasks[t].(phase := phase)])
  }

  /** The checks before the write of a rotation. */
  predicate MayRotate(row: Row, lease: RenewalLease, presented: TokenHash) {
    && !IsRevoked(row)
    && row.lease.Some? && row.lease.value.leaseId == lease.leaseId && row.lease.value.IsActiveAt(lease.acquiredAt)
    && row.stored.hash == presented
  }

  function Next(s: Database, step: Step): Database
    requires Enabled(s, step)
  {
    match step
    case Tick(to) => s.(clock := to)
    case Begin(t, hash) =>
      s.(tasks := s.tasks[t := Renewal(s.clock, hash, Looking)], presented := s.presented + {hash})
    case Look(t) =>
      var stored, task := s.row.stored, s.tasks[t];
      var active := stored.hash == task.presented && !IsRevoked(s.row)
                    && stored.session.IsActiveAt(task.now) && stored.refresh.IsActiveAt(task.now);
      PutPhase(s, t, if active then Found(stored.session) else Ended)
    case ReadLease(t) =>
      var task := s.tasks[t];
      var free := !IsRevoked(s.row) && (s.row.lease.None? || !s.row.lease.value.IsActiveAt(task.now));
      PutPhase(s, t, if free then Acquiring(task.phase.session, s.row) else Ended)
    case WriteLease(t, leaseId) =>
      var task := s.tasks[t];
      var lease := LeaseFromTtl(task.phase.session.sessionId, leaseId, task.now, s.config.renewalLeaseTtl);
      PutPhase(s, t, Holding(task.phase.session, lease)).(
        row := task.phase.read.(lease := Some(lease)), leaseIds := s.leaseIds + {leaseId})
    case ReadRotation(t, next) =>
      var task := s.tasks[t];
      var phase := if MayRotate(s.row, task.phase.lease, task.presented)
                   then Rotating(task.phase.session, next, s.row, |s.log|) else Ended;
      PutPhase(s, t, phase).(drawn := s.drawn + {next})
    case WriteRotation(t) =>
      var task := s.tasks[t];
      var session := task.phase.session.(
        lastSeenAt := Some(task.now), expiresAt := task.now + s.config.refreshTokenTtl);
      PutPhase(s, t, Succeeded(task.phase.next)).(
        row := Row(StoredSession(session, task.phase.next, NewRefreshRecord(session)), None),
        log := s.log + [Commit(t, task.presented, task.phase.next)],
        released := s.released + {task.phase.next})
    case ReadRevocation(t) => s.(tasks := s.tasks[t := Revoking(s.row)])
    case WriteRevocation(t) => s.(tasks := s.tasks[t := Finished], row := Row(s.tasks[t].read.stored.Revoke(), None))
    case ReadTouch(t, at) => s.(tasks := s.tasks[t := Touching(at, s.row)])
    case WriteTouch(t) =>
      var read := s.tasks[t].read;
      s.(tasks := s.tasks[t := Finished],
         row := read.(stored := read.stored.(session := read.stored.session.Touched(s.tasks[t].at))))
  }

  ghost predicate IsRun(start: Database, states: seq<Database>, steps: seq<Step>) {
    && |states| == |steps| + 1
    && states[0] == start
    && forall i {:trigger steps[i]} | 0 <= i < |steps| ::
         Enabled(states[i], steps[i]) && states[i + 1] == Next(states[i], steps[i])
  }

  // ---- when a write is current ----

  predicate Writes(step: Step) {
    step.WriteLease? || step.WriteRotation? || step.WriteRevocation? || step.WriteTouch?
  }

  /** The record that the writing task has read. */
  function ReadBy(s: Database, step: Step): Row
    requires Enabled(s, step) && Writes(step)
  {
    var task := s.tasks[step.task];
    if task.Renewal? then task.phase.read else task.read
  }

  /** A write finds the active hash that its task has read. */
  predicate HashIsCurrent(s: Database, step: Step) {
    Enabled(s, step) && Writes(step) ==> s.row.stored.hash == ReadBy(s, step).stored.hash
  }

  predicate RevocationIsCurrent(s: Database, step: Step) {
    Enabled(s, step) && Writes(step) ==> (IsRevoked(s.row) <==> IsRevoked(ReadBy(s, step)))
  }

  // ---- the invariant ----

  predicate IsPending(task: Task) {
    task.Renewal? && task.phase.Rotating?
  }

  /** A hash that was drawn for a rotation not yet written is presented by nobody. */
  predicate PendingAgrees(s: Database, task: Task) {
    IsPending(task) ==>
      && task.phase.next in s.drawn && task.phase.next !in s.presented && task.phase.next !in s.released
      && task.phase.read.stored.hash == task.presented && !IsRevoked(task.phase.read)
      && task.phase.commits <= |s.log|
  }

  predicate PendingsDiffer(s: Database) {
    forall q, t | q in s.tasks && t in s.tasks && q != t && IsPending(s.tasks[q]) && IsPending(s.tasks[t]) ::
      s.tasks[q].phase.next != s.tasks[t].phase.next
  }

  predicate Inv(s: Database) {
    && (forall t | t in s.tasks && s.tasks[t].Renewal? :: s.tasks[t].presented in s.presented)
    && (forall t | t in s.tasks :: PendingAgrees(s, s.tasks[t]))
    && PendingsDiffer(s)
    && (forall i | 0 <= i < |s.log| :: s.log[i].previous in s.presented)
    && s.released <= s.drawn
  }

  lemma PendingsStayDifferent(s: Database, step: Step)
    requires (forall t | t in s.tasks :: PendingAgrees(s, s.tasks[t])) && PendingsDiffer(s) && Enabled(s, step)
    ensures PendingsDiffer(Next(s, step))
  {
  }

  lemma PendingStays(s: Database, step: Step, t: TaskId)
    requires t in s.tasks && (step.Tick? || step.task != t)
    requires PendingAgrees(s, s.tasks[t]) && PendingsDiffer(s) && Enabled(s, step) && s.released <= s.drawn
    ensures t in Next(s, step).tasks && Next(s, step).tasks[t] == s.tasks[t]
    ensures PendingAgrees(Next(s, step), s.tasks[t])
  {
  }

  lemma ActorStillAgrees(s: Database, step: Step)
    requires Inv(s) && Enabled(s, step) && !step.Tick?
    ensures PendingAgrees(Next(s, step), Next(s, step).tasks[step.task])
  {
  }

  lemma HistoryAgrees(s: Database, step: Step)
    requires Inv(s) && Enabled(s, step)
    ensures var s' := Next(s, step);
            && (forall t | t in s'.tasks && s'.tasks[t].Renewal? :: s'.tasks[t].presented in s'.presented)
            && (forall i | 0 <= i < |s'.log| :: s'.log[i].previous in s'.presented)
            && s'.released <= s'.drawn
  {
  }

  lemma InvPreserved(s: Database, step: Step)
    requires Inv(s) && Enabled(s, step)
    ensures Inv(Next(s, step))
  {
    PendingsStayDifferent(s, step);
    HistoryAgrees(s, step);
    forall t | t in Next(s, step).tasks ensures PendingAgrees(Next(s, step), Next(s, step).tasks[t]) {
      if !step.Tick? && step.task == t {
        ActorStillAgrees(s, step);
      } else {
        PendingStays(s, step, t);
      }
    }
  }

  predicate Consumed(log: seq<Commit>, hash: TokenHash) {
    exists i :: 0 <= i < |log| && log[i].previous == hash
  }

  /** The active hash was not consumed by a written rotation. */
  predicate ActiveIsUnconsumed(s: Database) {
    !Consumed(s.log, s.row.stored.hash)
  }

  lemma ActiveStaysUnconsumed(s: Database, step: Step)
    requires Inv(s) && ActiveIsUnconsumed(s) && Enabled(s, step) && (step.WriteRotation? || HashIsCurrent(s, step))
    ensures ActiveIsUnconsumed(Next(s, step))
  {
    if step.WriteRotation? {
      assert PendingAgrees(s, s.tasks[step.task]);
    }
  }

  /** When a pending rotation was checked, its hash had not been consumed. */
  predicate ChecksAgree(s: Database) {
    forall t | t in s.tasks && IsPending(s.tasks[t]) && s.tasks[t].phase.commits <= |s.log| ::
      !Consumed(s.log[..s.tasks[t].phase.commits], s.tasks[t].presented)
  }

  lemma ChecksStay(s: Database, step: Step)
    requires Inv(s) && ActiveIsUnconsumed(s) && ChecksAgree(s) && Enabled(s, step)
    ensures ChecksAgree(Next(s, step))
  {
    var s' := Next(s, step);
    forall t | t in s'.tasks && IsPending(s'.tasks[t]) && s'.tasks[t].phase.commits <= |s'.log|
      ensures !Consumed(s'.log[..s'.tasks[t].phase.commits], s'.tasks[t].presented)
    {
      if t in s.tasks && s'.tasks[t] == s.tasks[t] {
        assert PendingAgrees(s, s.tasks[t]);
        assert s'.log[..s.tasks[t].phase.commits] == s.log[..s.tasks[t].phase.commits];
      } else {
        assert s.log[..|s.log|] == s.log;
      }
    }
  }

  ghost predicate OthersKeepTheHash(states: seq<Database>, steps: seq<Step>)
    requires |states| == |steps| + 1
  {
    forall i {:trigger steps[i]} | 0 <= i < |steps| :: steps[i].WriteRotation? || HashIsCurrent(states[i], steps[i])
  }

  lemma {:induction false} AgreesAlways(config: SessionConfig, session: Session, hash: TokenHash,
                                        states: seq<Database>, steps: seq<Step>, i: nat)
    requires IsRun(Initial(config, session, hash), states, steps) && i < |states| && OthersKeepTheHash(states, steps)
    ensures Inv(states[i]) && ActiveIsUnconsumed(states[i]) && ChecksAgree(states[i])
  {
    if i > 0 {
      var s, step := states[i - 1], steps[i - 1];
      AgreesAlways(config, session, hash, states, steps, i - 1);
      InvPreserved(s, step);
      ActiveStaysUnconsumed(s, step);
      ChecksStay(s, step);
    }
  }

  /** As long as leases, touches and revocations are written on the hash that they read, a
      rotation consumes a hash that was already consumed if and only if another rotation of that
      hash was written between its check and its write. */
  lemma ConsumesAgainExactlyWhenOvertaken(config: SessionConfig, session: Session, hash: TokenHash,
                                          states: seq<Database>, steps: seq<Step>, i: nat, t: TaskId)
    requires IsRun(Initial(config, session, hash), states, steps) && i < |states| && OthersKeepTheHash(states, steps)
    requires t in states[i].tasks && IsPending(states[i].tasks[t])
    ensures var log, task := states[i].log, states[i].tasks[t];
            && task.phase.commits <= |log|
            && (Consumed(log, task.presented) <==> Consumed(log[task.phase.commits..], task.presented))
  {
    AgreesAlways(config, session, hash, states, steps, i);
    var log, task := states[i].log, states[i].tasks[t];
    assert PendingAgrees(states[i], task);
    ConsumedSplits(log, task.phase.commits, task.presented);
  }

  lemma ConsumedSplits(log: seq<Commit>, n: nat, hash: TokenHash)
    requires n <= |log|
    ensures Consumed(log, hash) <==> Consumed(log[..n], hash) || Consumed(log[n..], hash)
  {
    if i :| 0 <= i < |log| && log[i].previous == hash {
      assert if i < n then log[..n][i] == log[i] else log[n..][i - n] == log[i];
    }
  }

  ghost predicate WritesFindTheHash(states: seq<Database>, steps: seq<Step>)
    requires |states| == |steps| + 1
  {
    forall i {:trigger steps[i]} | 0 <= i < |steps| :: HashIsCurrent(states[i], steps[i])
  }

  predicate IsConsumedOnce(log: seq<Commit>) {
    forall i, j | 0 <= i < j < |log| :: log[i].previous != log[j].previous
  }

  lemma ConsumedOnceStays(s: Database, step: Step)
    requires Inv(s) && ActiveIsUnconsumed(s) && IsConsumedOnce(s.log) && Enabled(s, step) && HashIsCurrent(s, step)
    ensures IsConsumedOnce(Next(s, step).log)
  {
    if step.WriteRotation? {
      assert PendingAgrees(s, s.tasks[step.task]);
      forall i | 0 <= i < |s.log| ensures s.log[i].previous != s.row.stored.hash {
      }
    }
  }

  /** If every write finds the active hash that its task has read, as a conditional write would
      enforce, no hash is ever consumed twice. */
  lemma {:induction false} GuardedWritesConsumeOnce(config: SessionConfig, session: Session, hash: TokenHash,
                                                    states: seq<Database>, steps: seq<Step>, i: nat)
    requires IsRun(Initial(config, session, hash), states, steps) && i < |states| && WritesFindTheHash(states, steps)
    ensures IsConsumedOnce(states[i].log)
  {
    if i > 0 {
      GuardedWritesConsumeOnce(config, session, hash, states, steps, i - 1);
      AgreesAlways(config, session, hash, states, steps, i - 1);
      ConsumedOnceStays(states[i - 1], steps[i - 1]);
    }
  }

  lemma RevokedStaysByOneStep(s: Database, step: Step)
    requires Inv(s) && Enabled(s, step) && IsRevoked(s.row) && RevocationIsCurrent(s, step)
    ensures IsRevoked(Next(s, step).row) && !step.WriteRotation?
  {
  }

  lemma {:induction false} InvAlways(config: SessionConfig, session: Session, hash: TokenHash,
                                     states: seq<Database>, steps: seq<Step>, i: nat)
    requires IsRun(Initial(config, session, hash), states, steps) && i < |states|
    ensures Inv(states[i])
  {
    if i > 0 {
      InvAlways(config, session, hash, states, steps, i - 1);
      InvPreserved(states[i - 1], steps[i - 1]);
    }
  }

  /** If every write finds the revocation that its task has read, a revoked session stays revoked
      and no rotation of it is written. */
  lemma {:induction false} GuardedWritesKeepRevocation(config: SessionConfig, session: Session, hash: TokenHash,
                                                       states: seq<Database>, steps: seq<Step>, i: nat, j: nat)
    requires IsRun(Initial(config, session, hash), states, steps) && i <= j < |states| && IsRevoked(states[i].row)
    requires forall k {:trigger steps[k]} | i <= k < j :: RevocationIsCurrent(states[k], steps[k])
    ensures IsRevoked(states[j].row) && forall k | i <= k < j :: !steps[k].WriteRotation?
  {
    if i < j {
      GuardedWritesKeepRevocation(config, session, hash, states, steps, i, j - 1);
      InvAlways(config, session, hash, states, steps, j - 1);
      RevokedStaysByOneStep(states[j - 1], steps[j - 1]);
    }
  }

  // ---- inputs on which it fails ----

  lemma RunExtends(start: Database, states: seq<Database>, steps: seq<Step>, step: Step)
    requires IsRun(start, states, steps) && Enabled(states[|steps|], step)
    ensures IsRun(start, states + [Next(states[|steps|], step)], steps + [step])
  {
    var states', steps' := states + [Next(states[|steps|], step)], steps + [step];
    forall i {:trigger steps'[i]} | 0 <= i < |steps'|
      ensures Enabled(states'[i], steps'[i]) && states'[i + 1] == Next(states'[i], steps'[i])
    {
      if i < |steps| {
        assert steps'[i] == steps[i] && states'[i] == states[i] && states'[i + 1] == states[i + 1];
      }
    }
  }

  /** A client holds the active token of a session that can be renewed now. */
  predicate IsRenewable(s: Database) {
    && s.row.stored.hash in s.released && !IsRevoked(s.row)
    && s.row.stored.session.IsActiveAt(s.clock) && s.row.stored.refresh.IsActiveAt(s.clock)
    && (s.row.lease.Some? ==> !s.row.lease.value.IsActiveAt(s.clock))
    && s.config.renewalLeaseTtl > 0
  }

  /** Every issued session starts in such a state. */
  lemma IssuedSessionIsRenewable(config: SessionConfig, session: Session, hash: TokenHash)
    requires session.IsActiveAt(session.createdAt) && config.renewalLeaseTtl > 0
    ensures IsRenewable(Initial(config, session, hash))
  {
  }

  predicate AreFresh(s: Database, t: TaskId, leaseId: LeaseId, next: TokenHash) {
    t !in s.tasks && leaseId !in s.leaseIds && next !in s.drawn && next !in s.presented && next != s.row.stored.hash
  }

  function Leased(s: Database, leaseId: LeaseId): Row {
    s.row.(lease := Some(LeaseFromTtl(s.row.stored.session.sessionId, leaseId, s.clock, s.config.renewalLeaseTtl)))
  }

  /** The state in which renewal `t`, started in `s` and run alone, has been checked. */
  function Checked(s: Database, t: TaskId, leaseId: LeaseId, next: TokenHash): Database {
    var task := Renewal(s.clock, s.row.stored.hash, Rotating(s.row.stored.session, next, Leased(s, leaseId), |s.log|));
    s.(row := Leased(s, leaseId), tasks := s.tasks[t := task], drawn := s.drawn + {next},
       presented := s.presented + {s.row.stored.hash}, leaseIds := s.leaseIds + {leaseId})
  }

  lemma StartRenewal(s: Database, t: TaskId) returns (states: seq<Database>, steps: seq<Step>)
    requires IsRenewable(s) && t !in s.tasks
    ensures IsRun(s, states, steps) && |steps| == 3
    ensures var task := Renewal(s.clock, s.row.stored.hash, Acquiring(s.row.stored.session, s.row));
            states[3] == s.(tasks := s.tasks[t := task], presented := s.presented + {s.row.stored.hash})
  {
    var begun := Next(s, Begin(t, s.row.stored.hash));
    var found := Next(begun, Look(t));
    states, steps := [s, begun, found, Next(found, ReadLease(t))], [Begin(t, s.row.stored.hash), Look(t), ReadLease(t)];
    var task := Renewal(s.clock, s.row.stored.hash, Acquiring(s.row.stored.session, s.row));
    assert states[3].tasks == s.tasks[t := task];
  }

  lemma CheckRenewal(s: Database, t: TaskId, leaseId: LeaseId, next: TokenHash)
    returns (states: seq<Database>, steps: seq<Step>)
    requires IsRenewable(s) && AreFresh(s, t, leaseId, next)
    ensures IsRun(s, states, steps) && states[|steps|] == Checked(s, t, leaseId, next)
  {
    states, steps := StartRenewal(s, t);
    var acquiring := states[3];
    RunExtends(s, states, steps, WriteLease(t, leaseId));
    var holding := Next(acquiring, WriteLease(t, leaseId));
    states, steps := states + [holding], steps + [WriteLease(t, leaseId)];
    RunExtends(s, states, steps, ReadRotation(t, next));
    states, steps := states + [Next(holding, ReadRotation(t, next))], steps + [ReadRotation(t, next)];
    assert states[|steps|].tasks == Checked(s, t, leaseId, next).tasks;
  }

  lemma RunsConcatenate(s: Database, states: seq<Database>, steps: seq<Step>, states': seq<Database>, steps': seq<Step>)
    requires IsRun(s, states, steps) && IsRun(states[|steps|], states', steps')
    ensures IsRun(s, states + states'[1..], steps + steps')
    ensures (states + states'[1..])[|steps| + |steps'|] == states'[|steps'|]
  {
    var all, done := states + states'[1..], steps + steps';
    forall i {:trigger done[i]} | 0 <= i < |done|
      ensures Enabled(all[i], done[i]) && all[i + 1] == Next(all[i], done[i])
    {
      if i < |steps| {
        assert done[i] == steps[i] && all[i] == states[i] && all[i + 1] == states[i + 1];
      } else {
        var m := i - |steps|;
        assert done[i] == steps'[m] && all[i] == states'[m] && all[i + 1] == states'[m + 1];
      }
    }
  }

  /** Two renewals consume one token: the first is checked and pauses until its lease has
      expired, the second runs in between, and both are answered with a renewed session. */
  lemma TwoRenewalsConsumeOneToken(s: Database, q: TaskId, r: TaskId, a: LeaseId, b: LeaseId,
                                   m: TokenHash, n: TokenHash)
    returns (states: seq<Database>, steps: seq<Step>)
    requires IsRenewable(s) && AreFresh(s, q, a, m) && AreFresh(s, r, b, n) && q != r && a != b && m != n
    requires s.row.stored.session.expiresAt > s.clock + s.config.renewalLeaseTtl
    requires s.row.stored.refresh.expiresAt > s.clock + s.config.renewalLeaseTtl
    ensures IsRun(s, states, steps)
    ensures var hash := s.row.stored.hash; states[|steps|].log == s.log + [Commit(r, hash, n), Commit(q, hash, m)]
  {
    states, steps := CheckRenewal(s, q, a, m);
    var later := Tick(s.clock + s.config.renewalLeaseTtl);
    RunExtends(s, states, steps, later);
    states, steps := states + [Next(states[|steps|], later)], steps + [later];
    var paused := states[|steps|];
    var states', steps' := CheckRenewal(paused, r, b, n);
    RunsConcatenate(s, states, steps, states', steps');
    states, steps := states + states'[1..], steps + steps';
    RunExtends(s, states, steps, WriteRotation(r));
    states, steps := states + [Next(states[|steps|], WriteRotation(r))], steps + [WriteRotation(r)];
    RunExtends(s, states, steps, WriteRotation(q));
    states, steps := states + [Next(states[|steps|], WriteRotation(q))], steps + [WriteRotation(q)];
  }

  /** A rotation undoes a revocation that was written between its check and its write. */
  lemma RotationUndoesRevocation(s: Database, t: TaskId, revoker: TaskId, leaseId: LeaseId, next: TokenHash)
    returns (states: seq<Database>, steps: seq<Step>, k: nat)
    requires IsRenewable(s) && AreFresh(s, t, leaseId, next) && revoker !in s.tasks && revoker != t
    ensures IsRun(s, states, steps) && k < |steps|
    ensures IsRevoked(states[k].row) && !IsRevoked(states[|steps|].row) && states[|steps|].row.stored.hash == next
  {
    states, steps := CheckRenewal(s, t, leaseId, next);
    RunExtends(s, states, steps, ReadRevocation(revoker));
    states, steps := states + [Next(states[|steps|], ReadRevocation(revoker))], steps + [ReadRevocation(revoker)];
    RunExtends(s, states, steps, WriteRevocation(revoker));
    states, steps := states + [Next(states[|steps|], WriteRevocation(revoker))], steps + [WriteRevocation(revoker)];
    k := |steps|;
    RunExtends(s, states, steps, WriteRotation(t));
    states, steps := states + [Next(states[|steps|], WriteRotation(t))], steps + [WriteRotation(t)];
  }

  /** A touch that read the record before a rotation and writes it afterwards makes the consumed
      token active again. */
  lemma TouchRevivesConsumedToken(s: Database, t: TaskId, toucher: TaskId, at: Time, leaseId: LeaseId, next: TokenHash)
    returns (states: seq<Database>, steps: seq<Step>)
    requires IsRenewable(s) && AreFresh(s, t, leaseId, next) && toucher !in s.tasks && toucher != t
    ensures IsRun(s, states, steps)
    ensures var end := states[|steps|];
            end.row.stored.hash == s.row.stored.hash && Consumed(end.log, end.row.stored.hash)
  {
    var touching := Next(s, ReadTouch(toucher, at));
    var states', steps' := CheckRenewal(touching, t, leaseId, next);
    RunsConcatenate(s, [s, touching], [ReadTouch(toucher, at)], states', steps');
    states, steps := [s, touching] + states'[1..], [ReadTouch(toucher, at)] + steps';
    RunExtends(s, states, steps, WriteRotation(t));
    states, steps := states + [Next(states[|steps|], WriteRotation(t))], steps + [WriteRotation(t)];
    RunExtends(s, states, steps, WriteTouch(toucher));
    states, steps := states + [Next(states[|steps|], WriteTouch(toucher))], steps + [WriteTouch(toucher)];
    assert states[|steps|].log[|s.log|].previous == s.row.stored.hash;
  }
}
