/** Why a pipeline ends the way it does: each outcome is tied to the check that failed, over all runs. */
module RelayerOutcomes {
  import opened Bytes
  import opened RelayerProtocol
  import opened RelayerLock
  import opened RelayerBooks
  import opened RelayerPromises
  import opened RelayerGate
  import opened RelayerRuns
  import MixerPool

  /** The result a step settles its request's promise with, if it does. */
  function Cause(c: Config, rq: Requests, s: State, e: Event): Option<Result>
    requires Enabled(c, rq, s, e)
  {
    match e
    case SpentReply(id, accountExists) =>
      if s.pcs[id].cached || accountExists then Some(AlreadySpent) else None
    case ParityReply(id) => if Parity(c, rq(id)) then None else Some(Mismatch)
    case Decide(id) =>
      var elapsed := s.pcs[id].seenAt - s.pcs[id].firstSeen;
      if c.delaySlots == 0 || elapsed >= c.delaySlots then None
      else if elapsed < 0 then Some(Delayed(0, c.delaySlots))
      else Some(Delayed(elapsed, c.delaySlots - elapsed))
    case VerifyReply(_, valid) => if valid then None else Some(BadProof)
    case SubmitErr(_) => Some(SubmitFailed)
    case MarkDone(id) => Some(Success(c.denomination - rq(id).fee, rq(id).fee))
    case RpcError(_) => Some(Threw)
    case _ => None
  }

  /** Steps of a request that may settle it. */
  predicate OfRequest(e: Event, id: Id) {
    OwnStep(e) && e.id == id
  }

  lemma QuietOutcomes(c: Config, rq: Requests, s: State, e: Event)
    requires Enabled(c, rq, s, e) && !OwnStep(e)
    ensures Next(c, rq, s, e).outcomes == s.outcomes && Cause(c, rq, s, e).None?
  {
  }

  /** The outcome a move writes is its cause. */
  lemma MoveSettles(c: Config, rq: Requests, s: State, e: Event)
    requires Enabled(c, rq, s, e) && OwnStep(e) && Books(c, rq, s)
    ensures MoveOf(c, rq, s, e).outcome == Cause(c, rq, s, e)
  {
    if e.SubmitOk? {
      MovesHaveCountShape(c, rq, s, e);
    }
  }

  lemma StepOutcomes(c: Config, rq: Requests, s: State, e: Event)
    requires Enabled(c, rq, s, e) && Books(c, rq, s)
    ensures Next(c, rq, s, e).outcomes ==
      if OwnStep(e) && Cause(c, rq, s, e).Some? then s.outcomes[e.id := Cause(c, rq, s, e).value] else s.outcomes
  {
    if OwnStep(e) {
      MoveSettles(c, rq, s, e);
    } else {
      QuietOutcomes(c, rq, s, e);
    }
  }

  /** A step that settles comes from a request whose promise is open. */
  lemma SettlesOnce(c: Config, rq: Requests, s: State, e: Event)
    requires Enabled(c, rq, s, e) && Promised(rq, s) && OwnStep(e) && Cause(c, rq, s, e).Some?
    ensures e.id !in s.outcomes
  {
    assert e.id in s.pcs && OwnRecords(rq, s, e.id);
  }

  /** The k-th step settles the request with this result. */
  ghost predicate SettlesAt(c: Config, rq: Requests, es: seq<Event>, k: nat, id: Id, r: Result)
    requires Legal(c, rq, es)
  {
    && k < |es| && OfRequest(es[k], id)
    && Enabled(c, rq, At(c, rq, es, k), es[k]) && Cause(c, rq, At(c, rq, es, k), es[k]) == Some(r)
  }

  /** Some step settles the request with this result. */
  ghost predicate EverSettled(c: Config, rq: Requests, es: seq<Event>, id: Id, r: Result)
    requires Legal(c, rq, es)
  {
    exists k: nat :: SettlesAt(c, rq, es, k, id, r)
  }

  lemma SettlesInPrefix(c: Config, rq: Requests, es: seq<Event>, before: seq<Event>, k: nat, id: Id, r: Result)
    requires Legal(c, rq, es) && Legal(c, rq, before) && before <= es && k < |before|
    ensures SettlesAt(c, rq, before, k, id, r) <==> SettlesAt(c, rq, es, k, id, r)
  {
    assert before[..k] == es[..k];
  }

  lemma SettledLater(c: Config, rq: Requests, es: seq<Event>, before: seq<Event>, id: Id, r: Result)
    requires Legal(c, rq, es) && Legal(c, rq, before) && before <= es && EverSettled(c, rq, before, id, r)
    ensures EverSettled(c, rq, es, id, r)
  {
    var k: nat :| SettlesAt(c, rq, before, k, id, r);
    SettlesInPrefix(c, rq, es, before, k, id, r);
  }

  /** A settled request is settled by the last step or by one before it. */
  lemma SettledEarlier(c: Config, rq: Requests, es: seq<Event>, before: seq<Event>, id: Id, r: Result)
    requires Legal(c, rq, es) && Legal(c, rq, before) && before <= es && |es| == |before| + 1
    requires EverSettled(c, rq, es, id, r)
    ensures EverSettled(c, rq, before, id, r) || SettlesAt(c, rq, es, |before|, id, r)
  {
    var k: nat :| SettlesAt(c, rq, es, k, id, r);
    LastOrEarlier(c, rq, es, before, k, id, r);
  }

  lemma LastOrEarlier(c: Config, rq: Requests, es: seq<Event>, before: seq<Event>, k: nat, id: Id, r: Result)
    requires Legal(c, rq, es) && Legal(c, rq, before) && before <= es && |es| == |before| + 1
    requires SettlesAt(c, rq, es, k, id, r)
    ensures EverSettled(c, rq, before, id, r) || SettlesAt(c, rq, es, |before|, id, r)
  {
    if k < |before| {
      SettlesInPrefix(c, rq, es, before, k, id, r);
    } else {
      assert k == |before|;
    }
  }

  /** The outcome of a request. */
  function OutcomeOf(s: State, id: Id): Option<Result> {
    if id in s.outcomes then Some(s.outcomes[id]) else None
  }

  lemma OutcomeStep(c: Config, rq: Requests, s: State, e: Event, id: Id, r: Result)
    requires Enabled(c, rq, s, e) && Books(c, rq, s) && Promised(rq, s)
    ensures OutcomeOf(Next(c, rq, s, e), id) == Some(r) <==>
      OutcomeOf(s, id) == Some(r) || (OfRequest(e, id) && Cause(c, rq, s, e) == Some(r))
  {
    var settles := OwnStep(e) && Cause(c, rq, s, e).Some?;
    var was, now := s.outcomes, Next(c, rq, s, e).outcomes;
    StepOutcomes(c, rq, s, e);
    if settles {
      SettlesOnce(c, rq, s, e);
      assert now == was[e.id := Cause(c, rq, s, e).value];
    } else {
      assert now == was;
      assert OfRequest(e, id) ==> Cause(c, rq, s, e) == None;
    }
  }

  lemma OutcomeAt(c: Config, rq: Requests, es: seq<Event>, k: nat, id: Id, r: Result)
    requires Legal(c, rq, es) && k < |es|
    ensures OutcomeOf(At(c, rq, es, k + 1), id) == Some(r) <==>
      OutcomeOf(At(c, rq, es, k), id) == Some(r) || SettlesAt(c, rq, es, k, id, r)
  {
    StepAt(c, rq, es, k);
    InvAt(c, rq, es, k);
    var s := At(c, rq, es, k);
    assert Books(c, rq, s) && Promised(rq, s);
    OutcomeStep(c, rq, s, es[k], id, r);
  }

  /**
   In every run a pipeline's outcome is what one of its steps settled it with, and it is settled
   once: already spent by a reply that says so, a mismatch by a body that does not match, a delay by a
   comparison before the delay is over, a bad proof by a verification that fails, a failed submission
   by one that errs, a success by the mark, and a throw by a failed call.
   */
  lemma {:induction false} OutcomesSayWhy(c: Config, rq: Requests, es: seq<Event>, id: Id, r: Result)
    requires Legal(c, rq, es)
    ensures OutcomeOf(Run(c, rq, es), id) == Some(r) <==> EverSettled(c, rq, es, id, r)
  {
    if |es| == 0 {
    } else {
      var before := es[..|es| - 1];
      OutcomesSayWhy(c, rq, before, id, r);
      OutcomeAt(c, rq, es, |before|, id, r);
      assert es[..|es|] == es;
      if EverSettled(c, rq, es, id, r) {
        SettledEarlier(c, rq, es, before, id, r);
      }
      if EverSettled(c, rq, before, id, r) {
        SettledLater(c, rq, es, before, id, r);
      }
    }
  }

  // ---- the proof ----

  lemma StepSubmits(c: Config, rq: Requests, s: State, e: Event)
    requires Enabled(c, rq, s, e)
    ensures Next(c, rq, s, e).submitted ==
      if e.VerifyReply? && e.valid then s.submitted + {e.id} else s.submitted
  {
  }

  /** A request is submitted exactly when its proof was verified and found valid. */
  lemma {:induction false} SubmittedIffProofValid(c: Config, rq: Requests, es: seq<Event>, id: Id)
    requires Legal(c, rq, es)
    ensures id in Run(c, rq, es).submitted <==> VerifyReply(id, true) in es
  {
    if |es| == 0 {
    } else {
      var n := |es| - 1;
      SubmittedIffProofValid(c, rq, es[..n], id);
      StepSubmits(c, rq, Run(c, rq, es[..n]), es[n]);
      assert es == es[..n] + [es[n]];
    }
  }

  /** Where a submitted request may go. */
  predicate LatePc(pc: Pc) {
    pc.AwaitSubmit? || pc.AwaitMark? || pc.Settled? || pc.Returned? || pc.Lost?
  }

  /** What a submitted request may be settled with. */
  predicate LateResult(r: Result) {
    r.SubmitFailed? || r.Success? || r.Threw?
  }

  /** What is submitted is past the verification, and did not end there. */
  ghost predicate PastProof(s: State, id: Id) {
    id in s.submitted ==>
      && id in s.pcs && LatePc(s.pcs[id])
      && (id in s.outcomes ==> LateResult(s.outcomes[id]))
      && (s.pcs[id].Settled? || s.pcs[id].Returned? ==> id in s.outcomes)
  }

  /** A request that submits or has submitted moves on as one past its proof. */
  lemma LateMoves(c: Config, rq: Requests, s: State, e: Event)
    requires Enabled(c, rq, s, e) && OwnStep(e) && PastProof(s, e.id)
    requires e.id in s.submitted || (e.VerifyReply? && e.valid)
    ensures var m := MoveOf(c, rq, s, e);
      && LatePc(m.pc) && (m.outcome.Some? ==> LateResult(m.outcome.value))
      && (m.pc.Settled? ==> m.outcome.Some?) && (m.pc.Returned? ==> e.id in s.outcomes)
  {
  }

  /** Only a valid proof submits, and it settles nothing. */
  lemma OnlyValidProofsSubmit(c: Config, rq: Requests, s: State, e: Event)
    requires Enabled(c, rq, s, e) && OwnStep(e)
    ensures MoveOf(c, rq, s, e).submits <==> e.VerifyReply? && e.valid
  {
  }

  lemma UnsettledAtProof(rq: Requests, s: State, id: Id)
    requires Promised(rq, s) && id in s.pcs && s.pcs[id].AwaitVerify?
    ensures id !in s.outcomes
  {
    assert OwnRecords(rq, s, id);
  }

  lemma OwnStepPastProof(c: Config, rq: Requests, s: State, e: Event)
    requires Enabled(c, rq, s, e) && OwnStep(e) && PastProof(s, e.id) && Promised(rq, s)
    ensures PastProof(Apply(rq(e.id), s, e.id, MoveOf(c, rq, s, e)), e.id)
  {
    OnlyValidProofsSubmit(c, rq, s, e);
    if e.VerifyReply? && e.valid {
      UnsettledAtProof(rq, s, e.id);
      LateMoves(c, rq, s, e);
    } else if e.id in s.submitted {
      LateMoves(c, rq, s, e);
    }
  }

  lemma OtherStepPastProof(q: Request, s: State, x: Id, m: Move, id: Id)
    requires x != id && PastProof(s, id)
    ensures PastProof(Apply(q, s, x, m), id)
  {
  }

  lemma QuietPastProof(c: Config, rq: Requests, s: State, e: Event, id: Id)
    requires Enabled(c, rq, s, e) && !OwnStep(e) && PastProof(s, id)
    ensures PastProof(Next(c, rq, s, e), id)
  {
  }

  lemma PastProofKept(c: Config, rq: Requests, s: State, e: Event, id: Id)
    requires Enabled(c, rq, s, e) && PastProof(s, id) && Promised(rq, s)
    ensures PastProof(Next(c, rq, s, e), id)
  {
    if !OwnStep(e) {
      QuietPastProof(c, rq, s, e, id);
    } else if e.id == id {
      OwnStepPastProof(c, rq, s, e);
    } else {
      OtherStepPastProof(rq(e.id), s, e.id, MoveOf(c, rq, s, e), id);
    }
  }

  lemma {:induction false} PastProofAt(c: Config, rq: Requests, es: seq<Event>, k: nat, id: Id)
    requires Legal(c, rq, es) && k <= |es|
    ensures PastProof(At(c, rq, es, k), id)
  {
    if k == 0 {
    } else {
      PastProofAt(c, rq, es, k - 1, id);
      PastProofStep(c, rq, es, k - 1, id);
    }
  }

  lemma PastProofStep(c: Config, rq: Requests, es: seq<Event>, k: nat, id: Id)
    requires Legal(c, rq, es) && k < |es| && PastProof(At(c, rq, es, k), id)
    ensures PastProof(At(c, rq, es, k + 1), id)
  {
    StepAt(c, rq, es, k);
    InvAt(c, rq, es, k);
    assert Promised(rq, At(c, rq, es, k));
    PastProofKept(c, rq, At(c, rq, es, k), es[k], id);
  }

  /** A proof found invalid ends its request as a bad proof, and the request is never submitted. */
  lemma InvalidProofNeverSubmitted(c: Config, rq: Requests, es: seq<Event>, k: nat, id: Id)
    requires Legal(c, rq, es) && k < |es| && es[k] == VerifyReply(id, false)
    ensures var s := Run(c, rq, es);
      id in s.outcomes && s.outcomes[id] == BadProof && id !in s.submitted && id !in s.landed
  {
    StepAt(c, rq, es, k);
    assert SettlesAt(c, rq, es, k, id, BadProof);
    OutcomesSayWhy(c, rq, es, id, BadProof);
    assert es[..|es|] == es;
    PastProofAt(c, rq, es, |es|, id);
    RunInv(c, rq, es);
    assert Landings(Run(c, rq, es));
  }

  // ---- arrival ----

  /** What becomes of an arriving request: refused by the guard, joined to the pipeline of its spelling, or started. */
  lemma ArrivalMeans(c: Config, rq: Requests, s: State, id: Id)
    requires Enabled(c, rq, s, Arrive(id))
    ensures var q, t := rq(id), Next(c, rq, s, Arrive(id));
      var fits := q.relayer == c.ours && q.feeParses && q.fee >= c.minFee;
      && id in t.pcs
      && (!fits ==> t.pcs[id] == Returned(Guarded) && t.inFlight == s.inFlight)
      && (fits && q.nullifier in s.inFlight ==>
           t.pcs[id] == Joined(s.inFlight[q.nullifier]) && t.inFlight == s.inFlight)
      && (fits && q.nullifier !in s.inFlight ==>
           t.pcs[id] == AwaitSpent(q.nullifier in s.known) && t.inFlight == s.inFlight[q.nullifier := id])
      && t.outcomes == s.outcomes && t.known == s.known && t.rootSeen == s.rootSeen && t.pending == s.pending
  {
  }

  /** An answer read from the chain is remembered, so the same spelling is found in the cache from then on. */
  lemma SpentIsRemembered(c: Config, rq: Requests, s: State, id: Id)
    requires Enabled(c, rq, s, SpentReply(id, true))
    ensures rq(id).nullifier in Next(c, rq, s, SpentReply(id, true)).known
  {
  }
}
