/** One pipeline per nullifier at a time, and joiners get the leader's result. */
module RelayerLock {
  import opened Bytes
  import opened RelayerProtocol

  /** The pipeline of this request has started and still holds its lock. */
  predicate Running(s: State, id: Id) {
    id in s.pcs && HoldsLock(s.pcs[id])
  }

  predicate HoldsLock(pc: Pc) {
    !pc.Joined? && !pc.Returned? && !pc.Lost?
  }

  /** The lock table lists exactly the running pipelines, each under its own nullifier. */
  ghost predicate Locked(rq: Requests, s: State) {
    && (forall n {:trigger s.inFlight[n]} :: n in s.inFlight ==>
          Running(s, s.inFlight[n]) && rq(s.inFlight[n]).nullifier == n)
    && (forall id {:trigger Running(s, id)} :: Running(s, id) ==>
          rq(id).nullifier in s.inFlight && s.inFlight[rq(id).nullifier] == id)
  }

  /** A step keeps, takes or releases the lock in step with whether the request holds it. */
  predicate LockShape(s: State, n: Nullifier, id: Id, m: Move) {
    match m.lock
    case Keep => Running(s, id) == HoldsLock(m.pc)
    case Take => !Running(s, id) && HoldsLock(m.pc) && n !in s.inFlight
    case Release => Running(s, id) && !HoldsLock(m.pc)
  }

  lemma MovesHaveLockShape(c: Config, rq: Requests, s: State, e: Event)
    requires Enabled(c, rq, s, e) && OwnStep(e)
    ensures LockShape(s, rq(e.id).nullifier, e.id, MoveOf(c, rq, s, e))
  {
  }

  lemma ApplyKeepsLocked(rq: Requests, s: State, id: Id, m: Move)
    requires Locked(rq, s) && LockShape(s, rq(id).nullifier, id, m)
    ensures Locked(rq, Apply(rq(id), s, id, m))
  {
    var s' := Apply(rq(id), s, id, m);
    assert forall x :: x != id ==> Running(s, x) == Running(s', x);
    forall x | Running(s', x)
      ensures rq(x).nullifier in s'.inFlight && s'.inFlight[rq(x).nullifier] == x
    {
      assert x != id ==> Running(s, x);
    }
  }

  lemma LockedKept(c: Config, rq: Requests, s: State, e: Event)
    requires Locked(rq, s) && Enabled(c, rq, s, e)
    ensures Locked(rq, Next(c, rq, s, e))
  {
    var s' := Next(c, rq, s, e);
    if OwnStep(e) {
      MovesHaveLockShape(c, rq, s, e);
      ApplyKeepsLocked(rq, s, e.id, MoveOf(c, rq, s, e));
    } else if e.Restart? {
      assert forall x :: !Running(s', x);
    } else {
      assert forall x :: Running(s, x) == Running(s', x);
    }
  }
}
