/** A withdrawal from arrival to payment, and one whose confirmation is lost. */
module RelayerJourney {
  import opened Bytes
  import opened MerkleTree
  import opened RelayerProtocol
  import opened RelayerWitnesses
  import RelayerOutcomes
  import MixerPool

  /**
   What an honest withdrawal brings: it is meant for this relayer with enough of a fee, its body is
   what the proof's signals bind, and nobody has spent its nullifier or is spending it.
   */
  predicate Honest(c: Config, rq: Requests, s: State, id: Id) {
    var q := rq(id);
    && q.relayer == c.ours && q.feeParses && q.fee >= c.minFee
    && |q.signals| == 5
    && c.rootValue(q.rootText) == Some(q.signals[0])
    && c.nullifierValue(q.nullifier) == Some(q.signals[1])
    && MixerPool.KeyField(c.hash, q.recipient) == q.signals[2]
    && MixerPool.KeyField(c.hash, q.relayer) == q.signals[3]
    && q.fee == q.signals[4]
    && id !in s.pcs && id !in s.submitted && id !in s.landed && q.nullifier !in s.inFlight && q.nullifier !in s.known
  }

  /** The gate is off, or the root was first seen at least the delay before this slot. */
  predicate GateOpen(c: Config, rq: Requests, s: State, id: Id, slot: int) {
    c.delaySlots > 0 && c.gateWired ==>
      rq(id).rootText in s.rootSeen && slot - s.rootSeen[rq(id).rootText] >= c.delaySlots
  }

  lemma HonestStarts(c: Config, rq: Requests, s: State, id: Id)
    requires Honest(c, rq, s, id)
    ensures Enabled(c, rq, s, Arrive(id)) && Next(c, rq, s, Arrive(id)) == Held(rq, s, id, AwaitSpent(false))
  {
  }

  /** The body matches: on to the gate if there is one, else straight to the proof. */
  lemma HonestMatches(c: Config, rq: Requests, s: State, id: Id)
    requires Honest(c, rq, s, id)
    ensures var t := Held(rq, s, id, AwaitParity);
      var next := if c.delaySlots > 0 && c.gateWired then AwaitSlot else AwaitVerify;
      Enabled(c, rq, t, ParityReply(id)) && Next(c, rq, t, ParityReply(id)) == Held(rq, s, id, next)
  {
  }

  lemma ReadsRow(c: Config, rq: Requests, s: State, id: Id, slot: int)
    requires id !in s.pcs && rq(id).rootText in s.rootSeen
    ensures var t := Held(rq, s, id, AwaitRow(slot));
      && Enabled(c, rq, t, Observe(id))
      && Next(c, rq, t, Observe(id)) == Held(rq, s, id, AwaitGate(slot, s.rootSeen[rq(id).rootText]))
  {
  }

  /** The record of a passage, when there is a gate to pass. */
  function Cleared(c: Config, s: State, id: Id, slot: int): State {
    if c.delaySlots > 0 && c.gateWired then s.(passedAt := s.passedAt[id := slot]) else s
  }

  lemma PassesGate(c: Config, rq: Requests, s: State, id: Id, slot: int, row: int)
    requires id !in s.pcs && slot - row >= c.delaySlots > 0 && c.gateWired
    ensures var t := Held(rq, s, id, AwaitGate(slot, row));
      && Enabled(c, rq, t, Decide(id))
      && Next(c, rq, t, Decide(id)) == Held(rq, Cleared(c, s, id, slot), id, AwaitVerify)
  {
  }

  lemma ToParityReply(c: Config, rq: Requests, es: seq<Event>, id: Id) returns (more: seq<Event>)
    requires Legal(c, rq, es) && Honest(c, rq, Run(c, rq, es), id)
    ensures Legal(c, rq, more) && es <= more
    ensures Run(c, rq, more) ==
      Held(rq, Run(c, rq, es), id, if c.delaySlots > 0 && c.gateWired then AwaitSlot else AwaitVerify)
  {
    var s := Run(c, rq, es);
    HonestStarts(c, rq, s, id);
    more := Reach(c, rq, es, Arrive(id), s, Held(rq, s, id, AwaitSpent(false)));
    FoundUnspent(c, rq, s, id);
    more := Reach(c, rq, more, SpentReply(id, false), Held(rq, s, id, AwaitSpent(false)), Held(rq, s, id, AwaitParity));
    HonestMatches(c, rq, s, id);
    var next := if c.delaySlots > 0 && c.gateWired then AwaitSlot else AwaitVerify;
    more := Reach(c, rq, more, ParityReply(id), Held(rq, s, id, AwaitParity), Held(rq, s, id, next));
  }

  lemma ToProof(c: Config, rq: Requests, es: seq<Event>, id: Id, slot: int) returns (more: seq<Event>)
    requires Legal(c, rq, es) && Honest(c, rq, Run(c, rq, es), id) && GateOpen(c, rq, Run(c, rq, es), id, slot)
    ensures Legal(c, rq, more) && es <= more
    ensures Run(c, rq, more) == Held(rq, Cleared(c, Run(c, rq, es), id, slot), id, AwaitVerify)
  {
    var s := Run(c, rq, es);
    more := ToParityReply(c, rq, es, id);
    if c.delaySlots > 0 && c.gateWired {
      var row := s.rootSeen[rq(id).rootText];
      ReadSlot(c, rq, s, id, slot);
      more := Reach(c, rq, more, SlotReply(id, slot), Held(rq, s, id, AwaitSlot), Held(rq, s, id, AwaitRow(slot)));
      ReadsRow(c, rq, s, id, slot);
      more := Reach(c, rq, more, Observe(id), Held(rq, s, id, AwaitRow(slot)), Held(rq, s, id, AwaitGate(slot, row)));
      PassesGate(c, rq, s, id, slot, row);
      more := Reach(c, rq, more, Decide(id), Held(rq, s, id, AwaitGate(slot, row)),
        Held(rq, Cleared(c, s, id, slot), id, AwaitVerify));
    }
  }

  /** The state once the transaction has landed, its confirmation still to come. */
  function OnTheWay(c: Config, rq: Requests, s: State, id: Id): State
    requires c.nullifierValue(rq(id).nullifier).Some?
  {
    Held(rq, s, id, AwaitSubmit).(
      pending := s.pending + 1, submitted := s.submitted + {id}, landed := s.landed + {id},
      chain := s.chain + {c.nullifierValue(rq(id).nullifier).value})
  }

  lemma Verified(c: Config, rq: Requests, s: State, id: Id)
    requires id !in s.pcs
    ensures var t := Held(rq, s, id, AwaitVerify);
      && Enabled(c, rq, t, VerifyReply(id, true))
      && Next(c, rq, t, VerifyReply(id, true)) ==
           Held(rq, s, id, AwaitSubmit).(pending := s.pending + 1, submitted := s.submitted + {id})
  {
  }

  lemma Lands(c: Config, rq: Requests, s: State, id: Id)
    requires id !in s.landed && c.nullifierValue(rq(id).nullifier).Some?
    ensures var t := Held(rq, s, id, AwaitSubmit).(pending := s.pending + 1, submitted := s.submitted + {id});
      Enabled(c, rq, t, Land(id)) && Next(c, rq, t, Land(id)) == OnTheWay(c, rq, s, id)
  {
  }

  lemma ToLanding(c: Config, rq: Requests, es: seq<Event>, id: Id, slot: int) returns (more: seq<Event>)
    requires Legal(c, rq, es) && Honest(c, rq, Run(c, rq, es), id) && GateOpen(c, rq, Run(c, rq, es), id, slot)
    ensures Legal(c, rq, more) && es <= more
    ensures Run(c, rq, more) == OnTheWay(c, rq, Cleared(c, Run(c, rq, es), id, slot), id)
  {
    var s := Cleared(c, Run(c, rq, es), id, slot);
    more := ToProof(c, rq, es, id, slot);
    Verified(c, rq, s, id);
    var t := Held(rq, s, id, AwaitSubmit).(pending := s.pending + 1, submitted := s.submitted + {id});
    more := Reach(c, rq, more, VerifyReply(id, true), Held(rq, s, id, AwaitVerify), t);
    Lands(c, rq, s, id);
    more := Reach(c, rq, more, Land(id), t, OnTheWay(c, rq, s, id));
  }

  /** What a paid withdrawal leaves behind. */
  predicate PaidOut(c: Config, rq: Requests, s: State, t: State, id: Id) {
    var q := rq(id);
    && id in t.pcs && t.pcs[id] == Returned(Success(c.denomination - q.fee, q.fee))
    && t.total == s.total + 1 && t.pending == s.pending
    && q.nullifier in t.known && q.nullifier !in t.inFlight && OnTheChain(c, t.chain, q.nullifier)
  }

  /** The transaction is confirmed and the nullifier marked. */
  function MarkedState(c: Config, rq: Requests, s: State, id: Id): State
    requires c.nullifierValue(rq(id).nullifier).Some?
  {
    var t := OnTheWay(c, rq, s, id);
    t.(pcs := t.pcs[id := AwaitMark], known := t.known + {rq(id).nullifier}, marked := t.marked[rq(id).nullifier := id])
  }

  /** The success is settled. */
  function SettledState(c: Config, rq: Requests, s: State, id: Id): State
    requires c.nullifierValue(rq(id).nullifier).Some?
  {
    var t, fee := MarkedState(c, rq, s, id), rq(id).fee;
    t.(pcs := t.pcs[id := Settled], pending := t.pending - 1, total := t.total + 1, succeeded := t.succeeded + {id},
       outcomes := t.outcomes[id := Success(c.denomination - fee, fee)])
  }

  lemma ConfirmedMarks(c: Config, rq: Requests, s: State, id: Id)
    requires rq(id).nullifier !in s.known && c.nullifierValue(rq(id).nullifier).Some?
    ensures var t := OnTheWay(c, rq, s, id);
      Enabled(c, rq, t, SubmitOk(id)) && Next(c, rq, t, SubmitOk(id)) == MarkedState(c, rq, s, id)
  {
  }

  lemma MarkedSettles(c: Config, rq: Requests, s: State, id: Id)
    requires c.nullifierValue(rq(id).nullifier).Some?
    ensures var t := MarkedState(c, rq, s, id);
      Enabled(c, rq, t, MarkDone(id)) && Next(c, rq, t, MarkDone(id)) == SettledState(c, rq, s, id)
  {
  }

  lemma SettledPays(c: Config, rq: Requests, s: State, id: Id)
    requires c.nullifierValue(rq(id).nullifier).Some?
    ensures var t := SettledState(c, rq, s, id);
      Enabled(c, rq, t, Finish(id)) && PaidOut(c, rq, s, Next(c, rq, t, Finish(id)), id)
      && Next(c, rq, t, Finish(id)).submitted == s.submitted + {id}
  {
  }

  lemma ToSettled(c: Config, rq: Requests, es: seq<Event>, id: Id, slot: int) returns (more: seq<Event>)
    requires Legal(c, rq, es) && Honest(c, rq, Run(c, rq, es), id) && GateOpen(c, rq, Run(c, rq, es), id, slot)
    ensures Legal(c, rq, more) && es <= more
    ensures Run(c, rq, more) == SettledState(c, rq, Cleared(c, Run(c, rq, es), id, slot), id)
  {
    var s := Cleared(c, Run(c, rq, es), id, slot);
    more := ToLanding(c, rq, es, id, slot);
    ConfirmedMarks(c, rq, s, id);
    more := Reach(c, rq, more, SubmitOk(id), OnTheWay(c, rq, s, id), MarkedState(c, rq, s, id));
    MarkedSettles(c, rq, s, id);
    more := Reach(c, rq, more, MarkDone(id), MarkedState(c, rq, s, id), SettledState(c, rq, s, id));
  }

  /**
   Nothing stands in the way of an honest withdrawal: from any point of any run, when its proof is
   valid and its transaction is confirmed, it is paid the denomination less the fee.
   */
  lemma HonestWithdrawalIsPaid(c: Config, rq: Requests, es: seq<Event>, id: Id, slot: int) returns (more: seq<Event>)
    requires Legal(c, rq, es) && Honest(c, rq, Run(c, rq, es), id) && GateOpen(c, rq, Run(c, rq, es), id, slot)
    ensures Legal(c, rq, more) && es <= more && VerifyReply(id, true) in more
    ensures PaidOut(c, rq, Run(c, rq, es), Run(c, rq, more), id)
  {
    var s := Cleared(c, Run(c, rq, es), id, slot);
    more := ToSettled(c, rq, es, id, slot);
    SettledPays(c, rq, s, id);
    var t := SettledState(c, rq, s, id);
    more := Reach(c, rq, more, Finish(id), t, Next(c, rq, t, Finish(id)));
    WasVerified(c, rq, more, id);
  }

  lemma WasVerified(c: Config, rq: Requests, es: seq<Event>, id: Id)
    requires Legal(c, rq, es) && id in Run(c, rq, es).submitted
    ensures VerifyReply(id, true) in es
  {
    RelayerOutcomes.SubmittedIffProofValid(c, rq, es, id);
  }

  /**
   With a lost confirmation the same request is told that its submission failed, though the chain has its
   nullifier.
   */
  lemma LandedButToldOtherwise(c: Config, rq: Requests, es: seq<Event>, id: Id, slot: int) returns (more: seq<Event>)
    requires Legal(c, rq, es) && Honest(c, rq, Run(c, rq, es), id) && GateOpen(c, rq, Run(c, rq, es), id, slot)
    ensures Legal(c, rq, more) && es <= more
    ensures var s, t, n := Run(c, rq, es), Run(c, rq, more), rq(id).nullifier;
      && id in t.outcomes && t.outcomes[id] == SubmitFailed && id in t.landed && OnTheChain(c, t.chain, n)
      && n !in t.known && t.total == s.total && t.pending == s.pending
  {
    more := ToLanding(c, rq, es, id, slot);
    more := Extend(c, rq, more, SubmitErr(id));
  }

  /** From the very start, with no gate wired. */
  lemma FirstWithdrawalIsPaid() returns (es: seq<Event>)
    ensures var c, rq := Example(1).(gateWired := false), ExampleRequests(Plain);
      Legal(c, rq, es) && PaidOut(c, rq, START, Run(c, rq, es), 7)
  {
    var c, rq := Example(1).(gateWired := false), ExampleRequests(Plain);
    ExamplesClear(1, Plain, 7);
    es := HonestWithdrawalIsPaid(c, rq, [], 7, 0);
  }
}
