/** The interleaved protocol refines an atomic specification that keeps, per session, the
    active hash, the expiry and a revoked flag. */
module RenewalRefinement {
  import opened Wrappers
  import opened Sessions
  import opened RepositoryContract
  import opened RenewalProtocol
  import opened RenewalInvariant

  datatype AtomicSession = AtomicSession(hash: TokenHash, expiresAt: Time, revoked: bool)

  type Atomic = map<SessionId, AtomicSession>

  datatype AtomicStep =
    | Insert(id: SessionId, hash: TokenHash, expiresAt: Time)
    | Swap(id: SessionId, previous: TokenHash, next: TokenHash, expiresAt: Time)
    | Disable(ids: set<SessionId>)
    | Stutter

  /** No session has this active hash. */
  predicate Unused(a: Atomic, hash: TokenHash) {
    forall id | id in a :: a[id].hash != hash
  }

  predicate AtomicEnabled(a: Atomic, step: AtomicStep) {
    match step
    case Insert(id, hash, _) => id !in a && Unused(a, hash)
    case Swap(id, previous, next, expiresAt) =>
      id in a && !a[id].revoked && a[id].hash == previous && Unused(a, next) && a[id].expiresAt <= expiresAt
    case Disable(ids) => ids <= a.Keys
    case Stutter => true
  }

  function AtomicNext(a: Atomic, step: AtomicStep): Atomic {
    match step
    case Insert(id, hash, expiresAt) => a[id := AtomicSession(hash, expiresAt, false)]
    case Swap(id, _, next, expiresAt) => a[id := AtomicSession(next, expiresAt, false)]
    case Disable(ids) => map id | id in a :: if id in ids then a[id].(revoked := true) else a[id]
    case Stutter => a
  }

  function Abstraction(s: System): Atomic {
    map id | id in s.store.sessions ::
      AtomicSession(s.store.sessions[id].hash, s.store.sessions[id].session.expiresAt,
                    s.store.sessions[id].session.revoked)
  }

  function Members(store: Store, family: FamilyId): set<SessionId> {
    set id | id in store.sessions && store.sessions[id].session.familyId == family
  }

  /** The atomic step a protocol step performs. Only a create, a committed rotation and a
      revocation are visible; every other step of every request is a stutter. */
  ghost function Label(s: System, step: Step): AtomicStep
    requires Enabled(s, step)
  {
    match step
    case Create(r, _) =>
      Insert(s.requests[r].session.sessionId, s.requests[r].pair.refresh, s.requests[r].session.expiresAt)
    case Rotate(r, _, Rotated, _) =>
      var input := RotateInput(s.config, s.requests[r]);
      Swap(input.sessionId, s.requests[r].presented, input.next, s.requests[r].now + s.config.refreshTokenTtl)
    case RevokeReplayed(r, _) => Disable(Members(s.store, s.requests[r].phase.lookup.family.familyId))
    case Revoke(id, _) => Disable({id})
    case RevokeFamily(family, _) => Disable(Members(s.store, family))
    case _ => Stutter
  }

  lemma CreateRefines(s: System, step: Step)
    requires HashesAgree(s) && RequestsAgree(s) && Enabled(s, step) && step.Create?
    ensures AtomicEnabled(Abstraction(s), Label(s, step))
    ensures Abstraction(Next(s, step)) == AtomicNext(Abstraction(s), Label(s, step))
  {
    assert RequestAgrees(s, s.requests[step.request]);
  }

  lemma RotateRefines(s: System, step: Step)
    requires HashesAgree(s) && RequestsAgree(s) && PresentersAreLater(s) && Enabled(s, step) && step.Rotate?
    ensures AtomicEnabled(Abstraction(s), Label(s, step))
    ensures Abstraction(Next(s, step)) == AtomicNext(Abstraction(s), Label(s, step))
  {
    assert RequestAgrees(s, s.requests[step.request]);
  }

  lemma RevocationRefines(s: System, step: Step)
    requires RequestsAgree(s) && Enabled(s, step) && (step.Revoke? || step.RevokeFamily? || step.RevokeReplayed?)
    ensures AtomicEnabled(Abstraction(s), Label(s, step))
    ensures Abstraction(Next(s, step)) == AtomicNext(Abstraction(s), Label(s, step))
  {
  }

  lemma OthersStutter(s: System, step: Step)
    requires Enabled(s, step)
    requires !step.Create? && !step.Rotate? && !step.Revoke? && !step.RevokeFamily? && !step.RevokeReplayed?
    ensures Label(s, step) == Stutter
    ensures Abstraction(Next(s, step)) == Abstraction(s)
  {
  }

  /** Every step of the protocol is one step of the specification. */
  lemma StepRefines(s: System, step: Step)
    requires Inv(s) && Enabled(s, step)
    ensures AtomicEnabled(Abstraction(s), Label(s, step))
    ensures Abstraction(Next(s, step)) == AtomicNext(Abstraction(s), Label(s, step))
  {
    if step.Create? {
      CreateRefines(s, step);
    } else if step.Rotate? {
      RotateRefines(s, step);
    } else if step.Revoke? || step.RevokeFamily? || step.RevokeReplayed? {
      RevocationRefines(s, step);
    } else {
      OthersStutter(s, step);
    }
  }

  ghost predicate IsAtomicRun(states: seq<Atomic>, steps: seq<AtomicStep>) {
    && |states| == |steps| + 1
    && states[0] == map[]
    && forall i {:trigger steps[i]} | 0 <= i < |steps| ::
         AtomicEnabled(states[i], steps[i]) && states[i + 1] == AtomicNext(states[i], steps[i])
  }

  ghost function AtomicStates(states: seq<System>): seq<Atomic> {
    seq(|states|, i requires 0 <= i < |states| => Abstraction(states[i]))
  }

  ghost function AtomicSteps(config: SessionConfig, states: seq<System>, steps: seq<Step>): seq<AtomicStep>
    requires IsRun(config, states, steps)
  {
    seq(|steps|, i requires 0 <= i < |steps| && Enabled(states[i], steps[i]) => Label(states[i], steps[i]))
  }

  lemma StepRefinesAt(config: SessionConfig, states: seq<System>, steps: seq<Step>, i: nat)
    requires IsRun(config, states, steps) && i < |steps|
    ensures AtomicEnabled(AtomicStates(states)[i], AtomicSteps(config, states, steps)[i])
    ensures AtomicStates(states)[i + 1] == AtomicNext(AtomicStates(states)[i], AtomicSteps(config, states, steps)[i])
  {
    assert Enabled(states[i], steps[i]);
    InvAlways(config, states, steps, i);
    StepRefines(states[i], steps[i]);
  }

  /** Every interleaved run, seen through the abstraction, is a run of the specification. */
  lemma RunRefines(config: SessionConfig, states: seq<System>, steps: seq<Step>)
    requires IsRun(config, states, steps)
    ensures IsAtomicRun(AtomicStates(states), AtomicSteps(config, states, steps))
  {
    var atomicStates, atomicSteps := AtomicStates(states), AtomicSteps(config, states, steps);
    forall i {:trigger atomicSteps[i]} | 0 <= i < |steps|
      ensures AtomicEnabled(atomicStates[i], atomicSteps[i])
      ensures atomicStates[i + 1] == AtomicNext(atomicStates[i], atomicSteps[i])
    {
      StepRefinesAt(config, states, steps, i);
    }
  }
}
