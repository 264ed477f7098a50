/** The privacy delay: what has happened by the time a withdrawal passes the gate. */
module RelayerGate {
  import opened Bytes
  import opened MerkleTree
  import opened RelayerProtocol

  /** Guard and parity held, and an armed gate was passed. */
  ghost predicate Cleared(c: Config, rq: Requests, s: State, id: Id) {
    PassesGuard(c, rq(id)) && Parity(c, rq(id)) && (GateArmed(c) ==> id in s.passedAt)
  }

  /** What is known of a request from where it is suspended. */
  ghost predicate PcGated(c: Config, rq: Requests, s: State, id: Id)
    requires id in s.pcs
  {
    match s.pcs[id]
    case AwaitSpent(_) | AwaitParity => PassesGuard(c, rq(id)) && id !in s.passedAt
    case AwaitSlot | AwaitRow(_) => AtGate(c, rq, s, id)
    case AwaitGate(_, firstSeen) =>
      AtGate(c, rq, s, id) && rq(id).rootText in s.rootSeen && s.rootSeen[rq(id).rootText] == firstSeen
    case AwaitVerify | AwaitSubmit | AwaitMark => Cleared(c, rq, s, id)
    case _ => true
  }

  ghost predicate AtGate(c: Config, rq: Requests, s: State, id: Id) {
    GateArmed(c) && PassesGuard(c, rq(id)) && Parity(c, rq(id)) && id !in s.passedAt
  }

  /** A success was cleared and splits the denomination into what is paid out and the fee. */
  ghost predicate ResultGated(c: Config, rq: Requests, s: State, id: Id)
    requires id in s.outcomes
  {
    s.outcomes[id].Success? ==>
      Cleared(c, rq, s, id) && s.outcomes[id].fee == rq(id).fee &&
        s.outcomes[id].amount + s.outcomes[id].fee == c.denomination
  }

  /** A passage came at least the delay after the root was first seen. */
  ghost predicate PassageGated(c: Config, rq: Requests, s: State, id: Id)
    requires id in s.passedAt
  {
    id in s.pcs && rq(id).rootText in s.rootSeen && s.passedAt[id] - s.rootSeen[rq(id).rootText] >= c.delaySlots > 0
  }

  /** The rejection of a request that armed its own root: no slot has elapsed, all the delay remains. */
  function ArmingRejection(c: Config): Result {
    Delayed(0, c.delaySlots)
  }

  /** The request that armed a root at a slot, and all that can have become of it since. */
  ghost predicate ArmedThenStopped(c: Config, rq: Requests, s: State, root: RootText, slot: int, id: Id) {
    && rq(id).rootText == root && PassesGuard(c, rq(id)) && Parity(c, rq(id))
    && id in s.pcs && id !in s.passedAt
    && match s.pcs[id]
       case AwaitGate(seenAt, _) => seenAt == slot
       case Settled => id in s.outcomes && s.outcomes[id] in {ArmingRejection(c), Threw}
       case Returned(r) => r in {ArmingRejection(c), Threw}
       case Lost => true
       case _ => false
  }

  ghost predicate Gated(c: Config, rq: Requests, s: State) {
    && (forall id {:trigger s.pcs[id]} :: id in s.pcs ==> PcGated(c, rq, s, id))
    && (forall id {:trigger s.outcomes[id]} :: id in s.outcomes ==> ResultGated(c, rq, s, id))
    && (forall id {:trigger s.passedAt[id]} :: id in s.passedAt ==> PassageGated(c, rq, s, id))
    && (forall id {:trigger id in s.submitted} :: id in s.submitted ==> Cleared(c, rq, s, id))
  }

  ghost predicate ArmedWell(c: Config, rq: Requests, s: State) {
    && s.armedBy.Keys == s.rootSeen.Keys
    && (forall root {:trigger s.armedBy[root]} :: root in s.armedBy ==>
          ArmedThenStopped(c, rq, s, root, s.rootSeen[root], s.armedBy[root]))
  }

  /** A step writes a root's row only when there is none, and records a passage only after the delay. */
  predicate GateShape(c: Config, q: Request, s: State, id: Id, m: Move) {
    && (m.arms.Some? ==> q.rootText !in s.rootSeen)
    && (m.passes.Some? ==>
         id in s.pcs && s.pcs[id].AwaitGate? && m.passes.value - s.pcs[id].firstSeen >= c.delaySlots > 0)
    && (m.submits ==> id in s.pcs && s.pcs[id].AwaitVerify?)
    && (m.outcome.Some? && m.outcome.value.Success? ==>
         id in s.pcs && s.pcs[id].AwaitMark? && m.outcome.value == Success(c.denomination - q.fee, q.fee))
  }

  lemma MovesHaveGateShape(c: Config, rq: Requests, s: State, e: Event)
    requires Enabled(c, rq, s, e) && OwnStep(e)
    requires Gated(c, rq, s)
    ensures GateShape(c, rq(e.id), s, e.id, MoveOf(c, rq, s, e))
  {
    if e.Decide? {
      assert PcGated(c, rq, s, e.id);
    }
  }

  /** The order in which a request goes through the checks. */
  predicate ClearingMove(c: Config, q: Request, s: State, id: Id, m: Move) {
    match m.pc
    case AwaitSpent(_) => PassesGuard(c, q) && id !in s.pcs && m.passes.None?
    case AwaitParity => id in s.pcs && s.pcs[id].AwaitSpent? && m.passes.None?
    case AwaitSlot => GateArmed(c) && Parity(c, q) && id in s.pcs && s.pcs[id].AwaitParity? && m.passes.None?
    case AwaitRow(_) => id in s.pcs && s.pcs[id].AwaitSlot? && m.passes.None?
    case AwaitGate(_, firstSeen) =>
      && id in s.pcs && s.pcs[id].AwaitRow? && m.passes.None?
      && (if m.arms.Some? then firstSeen == m.arms.value
          else q.rootText in s.rootSeen && firstSeen == s.rootSeen[q.rootText])
    case AwaitVerify =>
      && id in s.pcs
      && ((s.pcs[id].AwaitParity? && !GateArmed(c) && Parity(c, q)) || (s.pcs[id].AwaitGate? && m.passes.Some?))
    case AwaitSubmit => id in s.pcs && s.pcs[id].AwaitVerify?
    case AwaitMark => id in s.pcs && s.pcs[id].AwaitSubmit?
    case _ => true
  }

  lemma MovesClear(c: Config, rq: Requests, s: State, e: Event)
    requires Enabled(c, rq, s, e) && OwnStep(e)
    ensures ClearingMove(c, rq(e.id), s, e.id, MoveOf(c, rq, s, e))
  {
  }

  /** The request whose step it is. */
  lemma MoverGated(c: Config, rq: Requests, s: State, id: Id, m: Move)
    requires Gated(c, rq, s) && ClearingMove(c, rq(id), s, id, m)
    ensures PcGated(c, rq, Apply(rq(id), s, id, m), id)
  {
    assert id in s.passedAt ==> PassageGated(c, rq, s, id);
    assert id in s.pcs ==> PcGated(c, rq, s, id);
  }

  /** Everyone else: rows and passages only grow. */
  lemma OthersGated(c: Config, rq: Requests, s: State, id: Id, m: Move, x: Id)
    requires Gated(c, rq, s) && GateShape(c, rq(id), s, id, m) && x in s.pcs && x != id
    ensures PcGated(c, rq, Apply(rq(id), s, id, m), x)
  {
    assert PcGated(c, rq, s, x);
  }

  lemma PassagesGated(c: Config, rq: Requests, s: State, id: Id, m: Move, x: Id)
    requires Gated(c, rq, s) && GateShape(c, rq(id), s, id, m)
    requires x in Apply(rq(id), s, id, m).passedAt
    ensures PassageGated(c, rq, Apply(rq(id), s, id, m), x)
  {
    assert x in s.passedAt ==> PassageGated(c, rq, s, x);
    assert id in s.pcs ==> PcGated(c, rq, s, id);
  }

  lemma ResultsGated(c: Config, rq: Requests, s: State, id: Id, m: Move, x: Id)
    requires Gated(c, rq, s) && GateShape(c, rq(id), s, id, m)
    requires x in Apply(rq(id), s, id, m).outcomes
    ensures ResultGated(c, rq, Apply(rq(id), s, id, m), x)
  {
    assert x in s.outcomes ==> ResultGated(c, rq, s, x);
    assert id in s.pcs ==> PcGated(c, rq, s, id);
  }

  lemma ApplyKeepsGated(c: Config, rq: Requests, s: State, id: Id, m: Move)
    requires Gated(c, rq, s) && GateShape(c, rq(id), s, id, m)
    requires PcGated(c, rq, Apply(rq(id), s, id, m), id)
    ensures Gated(c, rq, Apply(rq(id), s, id, m))
  {
    var s' := Apply(rq(id), s, id, m);
    forall x | x in s'.pcs
      ensures PcGated(c, rq, s', x)
    {
      if x != id { OthersGated(c, rq, s, id, m, x); }
    }
    forall x | x in s'.outcomes
      ensures ResultGated(c, rq, s', x)
    {
      ResultsGated(c, rq, s, id, m, x);
    }
    forall x | x in s'.passedAt
      ensures PassageGated(c, rq, s', x)
    {
      PassagesGated(c, rq, s, id, m, x);
    }
    assert id in s.pcs ==> PcGated(c, rq, s, id);
  }

  lemma GatedKept(c: Config, rq: Requests, s: State, e: Event)
    requires Gated(c, rq, s) && Enabled(c, rq, s, e)
    ensures Gated(c, rq, Next(c, rq, s, e))
  {
    if OwnStep(e) {
      MovesHaveGateShape(c, rq, s, e);
      MovesClear(c, rq, s, e);
      MoverGated(c, rq, s, e.id, MoveOf(c, rq, s, e));
      ApplyKeepsGated(c, rq, s, e.id, MoveOf(c, rq, s, e));
    } else {
      QuietSteps(c, rq, s, e);
      QuietKeepsGated(c, rq, s, Next(c, rq, s, e));
    }
  }

  /** What no step of the chain, probe or restart touches. */
  predicate SameRecords(s: State, s': State) {
    && s'.rootSeen == s.rootSeen && s'.armedBy == s.armedBy && s'.passedAt == s.passedAt
    && s'.outcomes == s.outcomes && s'.submitted == s.submitted && s'.pcs.Keys == s.pcs.Keys
    && forall id {:trigger s'.pcs[id]} :: id in s.pcs ==> s'.pcs[id] == s.pcs[id] || s'.pcs[id].Lost?
  }

  lemma QuietSteps(c: Config, rq: Requests, s: State, e: Event)
    requires Enabled(c, rq, s, e) && !OwnStep(e)
    ensures SameRecords(s, Next(c, rq, s, e))
  {
  }

  /** Steps of the chain, probes and restarts leave the gate's records alone. */
  lemma QuietKeepsGated(c: Config, rq: Requests, s: State, s': State)
    requires Gated(c, rq, s)
    requires SameRecords(s, s')
    ensures Gated(c, rq, s')
  {
    forall x | x in s'.pcs ensures PcGated(c, rq, s', x) { assert PcGated(c, rq, s, x); }
    forall x | x in s'.outcomes ensures ResultGated(c, rq, s', x) { assert ResultGated(c, rq, s, x); }
    forall x | x in s'.passedAt ensures PassageGated(c, rq, s', x) { assert PassageGated(c, rq, s, x); }
  }

  /** A request that armed a root settles as rejected or thrown, and returns that. */
  predicate StoppingMove(c: Config, s: State, id: Id, m: Move) {
    && m.passes.None?
    && match m.pc
       case Settled => m.outcome.Some? && m.outcome.value in {ArmingRejection(c), Threw}
       case Returned(r) => m.outcome.None? && r in {ArmingRejection(c), Threw}
       case _ => false
  }

  lemma ArmerMovesStop(c: Config, rq: Requests, s: State, e: Event, root: RootText, slot: int)
    requires Gated(c, rq, s) && Enabled(c, rq, s, e) && OwnStep(e)
    requires root in s.rootSeen && s.rootSeen[root] == slot && ArmedThenStopped(c, rq, s, root, slot, e.id)
    ensures StoppingMove(c, s, e.id, MoveOf(c, rq, s, e))
  {
    assert PcGated(c, rq, s, e.id);
  }

  /** The arming request itself moves only towards its rejection. */
  lemma ArmerStops(c: Config, rq: Requests, s: State, e: Event, root: RootText)
    requires Gated(c, rq, s) && ArmedWell(c, rq, s) && Enabled(c, rq, s, e) && OwnStep(e)
    requires root in s.armedBy && s.armedBy[root] == e.id
    ensures ArmedThenStopped(c, rq, Apply(rq(e.id), s, e.id, MoveOf(c, rq, s, e)), root, s.rootSeen[root], e.id)
  {
    assert ArmedThenStopped(c, rq, s, root, s.rootSeen[root], e.id);
    ArmerMovesStop(c, rq, s, e, root, s.rootSeen[root]);
  }

  lemma ArmerArms(c: Config, rq: Requests, s: State, e: Event)
    requires Gated(c, rq, s) && Enabled(c, rq, s, e) && OwnStep(e) && MoveOf(c, rq, s, e).arms.Some?
    ensures ArmedThenStopped(c, rq, Apply(rq(e.id), s, e.id, MoveOf(c, rq, s, e)),
      rq(e.id).rootText, MoveOf(c, rq, s, e).arms.value, e.id)
  {
    assert PcGated(c, rq, s, e.id);
  }

  /** A root armed by someone else: its record is not touched. */
  lemma ArmedByOther(c: Config, rq: Requests, s: State, id: Id, m: Move, root: RootText)
    requires ArmedWell(c, rq, s) && root in s.armedBy && s.armedBy[root] != id
    ensures ArmedThenStopped(c, rq, Apply(rq(id), s, id, m), root, s.rootSeen[root], s.armedBy[root])
  {
    assert ArmedThenStopped(c, rq, s, root, s.rootSeen[root], s.armedBy[root]);
  }

  lemma ApplyKeepsArmed(c: Config, rq: Requests, s: State, id: Id, m: Move)
    requires ArmedWell(c, rq, s) && (m.arms.Some? ==> rq(id).rootText !in s.rootSeen)
    requires forall root :: root in s.armedBy && s.armedBy[root] == id ==>
      ArmedThenStopped(c, rq, Apply(rq(id), s, id, m), root, s.rootSeen[root], id)
    requires m.arms.Some? ==> ArmedThenStopped(c, rq, Apply(rq(id), s, id, m), rq(id).rootText, m.arms.value, id)
    ensures ArmedWell(c, rq, Apply(rq(id), s, id, m))
  {
    var s' := Apply(rq(id), s, id, m);
    forall root | root in s'.armedBy
      ensures ArmedThenStopped(c, rq, s', root, s'.rootSeen[root], s'.armedBy[root])
    {
      if root in s.armedBy && s.armedBy[root] != id {
        ArmedByOther(c, rq, s, id, m, root);
      }
    }
  }

  /** All the roots the moving request has armed. */
  lemma ArmersStop(c: Config, rq: Requests, s: State, e: Event)
    requires Gated(c, rq, s) && ArmedWell(c, rq, s) && Enabled(c, rq, s, e) && OwnStep(e)
    ensures forall root :: root in s.armedBy && s.armedBy[root] == e.id ==>
      ArmedThenStopped(c, rq, Apply(rq(e.id), s, e.id, MoveOf(c, rq, s, e)), root, s.rootSeen[root], e.id)
  {
    forall root | root in s.armedBy && s.armedBy[root] == e.id
      ensures ArmedThenStopped(c, rq, Apply(rq(e.id), s, e.id, MoveOf(c, rq, s, e)), root, s.rootSeen[root], e.id)
    {
      ArmerStops(c, rq, s, e, root);
    }
  }

  lemma OwnStepKeepsArmed(c: Config, rq: Requests, s: State, e: Event)
    requires Gated(c, rq, s) && ArmedWell(c, rq, s) && Enabled(c, rq, s, e) && OwnStep(e)
    ensures ArmedWell(c, rq, Apply(rq(e.id), s, e.id, MoveOf(c, rq, s, e)))
  {
    var m := MoveOf(c, rq, s, e);
    MovesHaveGateShape(c, rq, s, e);
    ArmersStop(c, rq, s, e);
    if m.arms.Some? {
      ArmerArms(c, rq, s, e);
    }
    ApplyKeepsArmed(c, rq, s, e.id, m);
  }

  lemma ArmedKept(c: Config, rq: Requests, s: State, e: Event)
    requires Gated(c, rq, s) && ArmedWell(c, rq, s) && Enabled(c, rq, s, e)
    ensures ArmedWell(c, rq, Next(c, rq, s, e))
  {
    if OwnStep(e) {
      OwnStepKeepsArmed(c, rq, s, e);
    } else {
      QuietSteps(c, rq, s, e);
      QuietKeepsArmed(c, rq, s, Next(c, rq, s, e));
    }
  }

  lemma QuietKeepsArmed(c: Config, rq: Requests, s: State, s': State)
    requires ArmedWell(c, rq, s)
    requires SameRecords(s, s')
    ensures ArmedWell(c, rq, s')
  {
    forall root | root in s'.armedBy
      ensures ArmedThenStopped(c, rq, s', root, s'.rootSeen[root], s'.armedBy[root])
    {
      assert ArmedThenStopped(c, rq, s, root, s.rootSeen[root], s.armedBy[root]);
    }
  }

  /** Only the first sighting of a root writes its row, with the slot the request had read. */
  lemma ArmsAtASighting(c: Config, rq: Requests, s: State, e: Event)
    requires Enabled(c, rq, s, e) && OwnStep(e) && MoveOf(c, rq, s, e).arms.Some?
    ensures e == Observe(e.id) && rq(e.id).rootText !in s.rootSeen &&
      s.pcs[e.id] == AwaitRow(MoveOf(c, rq, s, e).arms.value)
  {
  }

  /** A row of the first-seen table never changes once written, restarts included. */
  lemma RowsStay(c: Config, rq: Requests, s: State, e: Event, root: RootText)
    requires Enabled(c, rq, s, e) && root in s.rootSeen
    ensures root in Next(c, rq, s, e).rootSeen && Next(c, rq, s, e).rootSeen[root] == s.rootSeen[root]
  {
    if OwnStep(e) && MoveOf(c, rq, s, e).arms.Some? {
      ArmsAtASighting(c, rq, s, e);
    }
  }
}
