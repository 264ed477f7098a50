/**
 The relayer's own memory and the table of first-seen roots, updated in place. Each method is the
 code between two awaits of the pipeline and is proved to take the protocol's step.
 */
module RelayerService {
  import opened Bytes
  import opened MerkleTree
  import opened RelayerProtocol

  /** The persisted table: the first write of a root wins. */
  class RootSeenTable {
    var rows: map<RootText, int>

    constructor ()
      ensures rows == map[]
    {
      rows := map[];
    }

    method Observe(root: RootText, currentSlot: int) returns (firstSeen: int)
      modifies this
      ensures rows == if root in old(rows) then old(rows) else old(rows)[root := currentSlot]
      ensures root in rows && firstSeen == rows[root]
    {
      if root !in rows {
        rows := rows[root := currentSlot];
      }
      return rows[root];
    }

    method Get(root: RootText) returns (firstSeen: Option<int>)
      ensures firstSeen == if root in rows then Some(rows[root]) else None
    {
      if root in rows {
        return Some(rows[root]);
      }
      return None;
    }
  }

  class Relayer {
    const c: Config
    const rootSeen: RootSeenTable
    var inFlight: map<Nullifier, Id>
    var known: set<Nullifier>
    var pendingWithdrawals: int
    var totalProcessed: int

    /** The fields hold what the protocol's state says the process remembers. */
    ghost predicate Mirrors(s: State)
      reads this, rootSeen
    {
      && inFlight == s.inFlight && known == s.known
      && pendingWithdrawals == s.pending && totalProcessed == s.total
      && rootSeen.rows == s.rootSeen
    }

    /** After an event the request stands where the step left it, and so do the fields. */
    ghost predicate Took(rq: Requests, s: State, e: Event, pc: Pc)
      reads this, rootSeen
      requires Enabled(c, rq, s, e) && OwnStep(e)
    {
      var s' := Next(c, rq, s, e);
      Mirrors(s') && e.id in s'.pcs && s'.pcs[e.id] == pc
    }

    /** A start or a restart: only the table survives. */
    constructor (c: Config, rootSeen: RootSeenTable, ghost s: State)
      requires rootSeen.rows == s.rootSeen
      ensures this.c == c && this.rootSeen == rootSeen
      ensures Mirrors(AfterRestart(s))
    {
      this.c := c;
      this.rootSeen := rootSeen;
      inFlight := map[];
      known := {};
      pendingWithdrawals := 0;
      totalProcessed := 0;
    }

    method ProcessWithdrawal(id: Id, q: Request, ghost rq: Requests, ghost s: State) returns (pc: Pc)
      requires Mirrors(s) && Enabled(c, rq, s, Arrive(id)) && q == rq(id)
      modifies this
      ensures Took(rq, s, Arrive(id), pc)
    {
      if q.relayer != c.ours {
        return Returned(Guarded);
      }
      if !q.feeParses || q.fee < c.minFee {
        return Returned(Guarded);
      }
      if q.nullifier in inFlight {
        return Joined(inFlight[q.nullifier]);
      }
      inFlight := inFlight[q.nullifier := id];
      return AwaitSpent(q.nullifier in known);
    }

    /** The registry has answered; an answer read from the chain is remembered. */
    method AfterIsSpent(
        id: Id, q: Request, cached: bool, accountExists: bool, ghost rq: Requests, ghost s: State) returns (pc: Pc)
      requires Mirrors(s) && Enabled(c, rq, s, SpentReply(id, accountExists)) && q == rq(id)
      requires s.pcs[id] == AwaitSpent(cached)
      modifies this
      ensures Took(rq, s, SpentReply(id, accountExists), pc)
    {
      if cached {
        return Settled;
      }
      if accountExists {
        known := known + {q.nullifier};
        return Settled;
      }
      return AwaitParity;
    }

    /** The slot has been read: the root's row is read, or written if this is its first sighting. */
    method CheckPrivacyDelay(id: Id, q: Request, currentSlot: int, ghost rq: Requests, ghost s: State) returns (pc: Pc)
      requires Mirrors(s) && Enabled(c, rq, s, Observe(id)) && q == rq(id)
      requires s.pcs[id] == AwaitRow(currentSlot)
      modifies rootSeen
      ensures Took(rq, s, Observe(id), pc)
    {
      var firstSeen := rootSeen.Observe(q.rootText, currentSlot);
      return AwaitGate(currentSlot, firstSeen);
    }

    method AfterVerify(id: Id, proofValid: bool, ghost rq: Requests, ghost s: State) returns (pc: Pc)
      requires Mirrors(s) && Enabled(c, rq, s, VerifyReply(id, proofValid))
      modifies this
      ensures Took(rq, s, VerifyReply(id, proofValid), pc)
    {
      if !proofValid {
        return Settled;
      }
      pendingWithdrawals := pendingWithdrawals + 1;
      return AwaitSubmit;
    }

    /** The transaction is confirmed: the nullifier is marked, or the registry throws. */
    method AfterSubmit(id: Id, q: Request, ghost rq: Requests, ghost s: State) returns (pc: Pc)
      requires Mirrors(s) && Enabled(c, rq, s, SubmitOk(id)) && q == rq(id)
      modifies this
      ensures Took(rq, s, SubmitOk(id), pc)
    {
      if c.kind.InMemory? && q.nullifier in known {
        return Settled;
      }
      known := known + {q.nullifier};
      return AwaitMark;
    }

    method AfterSubmitFailed(id: Id, ghost rq: Requests, ghost s: State) returns (pc: Pc)
      requires Mirrors(s) && Enabled(c, rq, s, SubmitErr(id))
      modifies this
      ensures Took(rq, s, SubmitErr(id), pc)
    {
      pendingWithdrawals := pendingWithdrawals - 1;
      return Settled;
    }

    method AfterMark(id: Id, q: Request, ghost rq: Requests, ghost s: State) returns (pc: Pc, result: Result)
      requires Mirrors(s) && Enabled(c, rq, s, MarkDone(id)) && q == rq(id)
      modifies this
      ensures Took(rq, s, MarkDone(id), pc)
      ensures Next(c, rq, s, MarkDone(id)).outcomes[id] == result
    {
      pendingWithdrawals := pendingWithdrawals - 1;
      totalProcessed := totalProcessed + 1;
      return Settled, Success(c.denomination - q.fee, q.fee);
    }

    /** The promise has settled: the lock goes, and the caller gets the promise's result. */
    method Finally(id: Id, q: Request, result: Result, ghost rq: Requests, ghost s: State) returns (pc: Pc)
      requires Mirrors(s) && Enabled(c, rq, s, Finish(id)) && q == rq(id) && result == s.outcomes[id]
      modifies this
      ensures Took(rq, s, Finish(id), pc)
    {
      inFlight := inFlight - {q.nullifier};
      return Returned(result);
    }
  }
}
