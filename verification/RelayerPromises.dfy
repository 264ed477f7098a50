/** Promises: a joiner waits for the leader of its own nullifier and returns what the leader got. */
module RelayerPromises {
  import opened Bytes
  import opened RelayerProtocol
  import opened RelayerLock

  /** Promises settle once, and everything returned came from one. */
  ghost predicate Promised(rq: Requests, s: State) {
    && s.outcomes.Keys <= s.pcs.Keys && s.joinedTo.Keys <= s.pcs.Keys
    && forall id {:trigger s.pcs[id]} :: id in s.pcs ==> OwnRecords(rq, s, id)
  }

  /** The records kept under a request's own id are in order. */
  ghost predicate OwnRecords(rq: Requests, s: State, id: Id)
    requires id in s.pcs
  {
    && PcPromised(rq, s, id)
    && (id in s.outcomes ==>
         id !in s.joinedTo && (s.pcs[id].Settled? || s.pcs[id] == Returned(s.outcomes[id]) || s.pcs[id].Lost?))
    && (id in s.joinedTo ==>
         && (s.pcs[id].Joined? || s.pcs[id].Returned? || s.pcs[id].Lost?)
         && s.joinedTo[id] in s.pcs && rq(s.joinedTo[id]).nullifier == rq(id).nullifier)
  }

  ghost predicate PcPromised(rq: Requests, s: State, id: Id)
    requires id in s.pcs
  {
    match s.pcs[id]
    case Settled => id in s.outcomes
    case Joined(leader) =>
      && id in s.joinedTo && s.joinedTo[id] == leader && leader != id
      && (Running(s, leader) || leader in s.outcomes)
    case Returned(r) =>
      if id in s.joinedTo then s.joinedTo[id] in s.outcomes && s.outcomes[s.joinedTo[id]] == r
      else if id in s.outcomes then s.outcomes[id] == r
      else r == Guarded
    case _ => true
  }

  /** What a step may do to promises. */
  predicate PromiseShape(s: State, n: Nullifier, id: Id, m: Move) {
    match m.pc
    case Settled => m.outcome.Some? && m.joins.None? && Unsettled(s, id)
    case Joined(leader) =>
      m.outcome.None? && m.joins == Some(leader) && id !in s.pcs && n in s.inFlight && leader == s.inFlight[n]
    case Returned(r) =>
      && m.outcome.None? && m.joins.None?
      && (|| (id !in s.pcs && r == Guarded)
          || (id in s.pcs && s.pcs[id].Settled? && id in s.outcomes && r == s.outcomes[id])
          || (id in s.pcs && s.pcs[id].Joined? && s.pcs[id].leader in s.outcomes && r == s.outcomes[s.pcs[id].leader]))
    case _ => m.outcome.None? && m.joins.None? && HoldsLock(m.pc) && (id !in s.pcs || Unsettled(s, id))
  }

  predicate Unsettled(s: State, id: Id) {
    Running(s, id) && !s.pcs[id].Settled?
  }

  lemma MovesHavePromiseShape(c: Config, rq: Requests, s: State, e: Event)
    requires Enabled(c, rq, s, e) && OwnStep(e)
    ensures PromiseShape(s, rq(e.id).nullifier, e.id, MoveOf(c, rq, s, e))
  {
  }

  /** A promise settles, once. */
  lemma SettlerPromised(rq: Requests, s: State, id: Id, m: Move)
    requires Promised(rq, s) && PromiseShape(s, rq(id).nullifier, id, m) && m.pc.Settled?
    ensures OwnRecords(rq, Apply(rq(id), s, id, m), id)
  {
    assert OwnRecords(rq, s, id);
    assert id !in s.joinedTo;
  }

  lemma JoinerPromised(rq: Requests, s: State, id: Id, m: Move)
    requires Locked(rq, s) && Promised(rq, s) && PromiseShape(s, rq(id).nullifier, id, m) && m.pc.Joined?
    ensures OwnRecords(rq, Apply(rq(id), s, id, m), id)
  {
    var leader := m.pc.leader;
    assert leader == s.inFlight[rq(id).nullifier];
    assert Running(s, leader) && leader != id;
    assert id !in s.outcomes;
    assert Running(Apply(rq(id), s, id, m), leader);
  }

  lemma ReturnerPromised(rq: Requests, s: State, id: Id, m: Move)
    requires Promised(rq, s) && PromiseShape(s, rq(id).nullifier, id, m) && m.pc.Returned?
    ensures OwnRecords(rq, Apply(rq(id), s, id, m), id)
  {
    assert id in s.outcomes ==> id in s.pcs && id !in s.joinedTo;
    assert id in s.joinedTo ==> id in s.pcs && s.joinedTo[id] in s.pcs;
    assert id in s.pcs ==> OwnRecords(rq, s, id);
  }

  lemma WorkerPromised(rq: Requests, s: State, id: Id, m: Move)
    requires Promised(rq, s) && PromiseShape(s, rq(id).nullifier, id, m)
    requires HoldsLock(m.pc) && !m.pc.Settled?
    ensures OwnRecords(rq, Apply(rq(id), s, id, m), id)
  {
    assert id !in s.outcomes && id !in s.joinedTo;
  }

  /** The moving request itself. */
  lemma MoverPromised(rq: Requests, s: State, id: Id, m: Move)
    requires Locked(rq, s) && Promised(rq, s) && PromiseShape(s, rq(id).nullifier, id, m)
    ensures OwnRecords(rq, Apply(rq(id), s, id, m), id)
  {
    if m.pc.Settled? {
      SettlerPromised(rq, s, id, m);
    } else if m.pc.Joined? {
      JoinerPromised(rq, s, id, m);
    } else if m.pc.Returned? {
      ReturnerPromised(rq, s, id, m);
    } else {
      WorkerPromised(rq, s, id, m);
    }
  }

  /** Everyone else keeps what they had: settled promises stay, and a leader that stops running has settled. */
  lemma OthersPromised(rq: Requests, s: State, id: Id, m: Move, x: Id)
    requires Promised(rq, s) && PromiseShape(s, rq(id).nullifier, id, m)
    requires x != id && x in s.pcs
    ensures OwnRecords(rq, Apply(rq(id), s, id, m), x)
  {
    var s' := Apply(rq(id), s, id, m);
    assert OwnRecords(rq, s, x);
    assert id in s.outcomes ==> id in s.pcs;
    if s.pcs[x].Joined? {
      var leader := s.pcs[x].leader;
      if leader == id {
        assert Running(s, id) || id in s.outcomes;
      } else {
        assert Running(s, leader) == Running(s', leader);
      }
    }
  }

  lemma ApplyKeepsPromised(rq: Requests, s: State, id: Id, m: Move)
    requires Locked(rq, s) && Promised(rq, s) && PromiseShape(s, rq(id).nullifier, id, m)
    ensures Promised(rq, Apply(rq(id), s, id, m))
  {
    var s' := Apply(rq(id), s, id, m);
    MoverPromised(rq, s, id, m);
    forall x | x in s'.pcs
      ensures OwnRecords(rq, s', x)
    {
      if x != id { OthersPromised(rq, s, id, m, x); }
    }
  }

  /** Steps of the chain, probes and restarts settle nothing and answer nobody. */
  lemma QuietKeepsPromised(rq: Requests, s: State, s': State)
    requires Promised(rq, s)
    requires s'.outcomes == s.outcomes && s'.joinedTo == s.joinedTo && s'.pcs.Keys == s.pcs.Keys
    requires s'.pcs == s.pcs || forall id :: id in s.pcs ==>
      s'.pcs[id] == if s.pcs[id].Returned? then s.pcs[id] else Lost
    ensures Promised(rq, s')
  {
    forall x | x in s'.pcs
      ensures OwnRecords(rq, s', x)
    {
      assert OwnRecords(rq, s, x);
      if s'.pcs[x].Joined? {
        assert s'.pcs == s.pcs;
      }
    }
  }

  lemma PromisedKept(c: Config, rq: Requests, s: State, e: Event)
    requires Locked(rq, s) && Promised(rq, s) && Enabled(c, rq, s, e)
    ensures Promised(rq, Next(c, rq, s, e))
  {
    if OwnStep(e) {
      MovesHavePromiseShape(c, rq, s, e);
      ApplyKeepsPromised(rq, s, e.id, MoveOf(c, rq, s, e));
    } else {
      QuietKeepsPromised(rq, s, Next(c, rq, s, e));
    }
  }
}
