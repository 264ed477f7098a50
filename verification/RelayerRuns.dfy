/** What holds of every run of the relayer, whatever the interleaving and however often it restarts. */
module RelayerRuns {
  import opened Bytes
  import opened MerkleTree
  import opened RelayerProtocol
  import opened RelayerLock
  import opened RelayerBooks
  import opened RelayerPromises
  import opened RelayerGate

  /** A spend found in the cache stays there until the request moves on. */
  ghost predicate Caching(rq: Requests, s: State) {
    forall id {:trigger s.pcs[id]} :: id in s.pcs && s.pcs[id].AwaitSpent? && s.pcs[id].cached ==>
      rq(id).nullifier in s.known
  }

  lemma CachingKept(c: Config, rq: Requests, s: State, e: Event)
    requires Caching(rq, s) && Enabled(c, rq, s, e)
    ensures Caching(rq, Next(c, rq, s, e))
  {
  }

  /** Only what landed on the chain is marked or reported as a success. */
  ghost predicate Landings(s: State) {
    && (forall id {:trigger s.pcs[id]} :: id in s.pcs && s.pcs[id].AwaitMark? ==> id in s.landed)
    && (forall id {:trigger s.outcomes[id]} :: id in s.outcomes && s.outcomes[id].Success? ==> id in s.landed)
    && s.landed <= s.submitted
  }

  /** A mark follows a landing, and a success follows a mark. */
  predicate LandShape(s: State, id: Id, m: Move) {
    && (m.pc.AwaitMark? ==> id in s.landed)
    && (m.outcome.Some? && m.outcome.value.Success? ==> id in s.pcs && s.pcs[id].AwaitMark?)
  }

  lemma MovesHaveLandShape(c: Config, rq: Requests, s: State, e: Event)
    requires Enabled(c, rq, s, e) && OwnStep(e)
    ensures LandShape(s, e.id, MoveOf(c, rq, s, e))
  {
  }

  lemma LandingsKept(c: Config, rq: Requests, s: State, e: Event)
    requires Landings(s) && Enabled(c, rq, s, e)
    ensures Landings(Next(c, rq, s, e))
  {
    if OwnStep(e) {
      MovesHaveLandShape(c, rq, s, e);
      ApplyKeepsLandings(rq, s, e.id, MoveOf(c, rq, s, e));
    }
  }

  lemma ApplyKeepsLandings(rq: Requests, s: State, id: Id, m: Move)
    requires Landings(s) && LandShape(s, id, m)
    ensures Landings(Apply(rq(id), s, id, m))
  {
  }

  ghost predicate Inv(c: Config, rq: Requests, s: State) {
    Locked(rq, s) && Books(c, rq, s) && Counted(s) && Promised(rq, s) && Gated(c, rq, s) && ArmedWell(c, rq, s) &&
      Landings(s) && Caching(rq, s)
  }

  lemma InvKept(c: Config, rq: Requests, s: State, e: Event)
    requires Inv(c, rq, s) && Enabled(c, rq, s, e)
    ensures Inv(c, rq, Next(c, rq, s, e))
  {
    LockedKept(c, rq, s, e);
    BooksKept(c, rq, s, e);
    CountedKept(c, rq, s, e);
    PromisedKept(c, rq, s, e);
    GatedKept(c, rq, s, e);
    ArmedKept(c, rq, s, e);
    LandingsKept(c, rq, s, e);
    CachingKept(c, rq, s, e);
  }

  lemma StartInv(c: Config, rq: Requests)
    ensures Inv(c, rq, START)
  {
    assert UnderSubmission(START.pcs) == {} && BeingMarked(START.pcs) == {};
  }

  lemma {:induction false} RunInv(c: Config, rq: Requests, es: seq<Event>)
    requires Legal(c, rq, es)
    ensures Inv(c, rq, Run(c, rq, es))
  {
    if |es| == 0 {
      StartInv(c, rq);
    } else {
      var before := es[..|es| - 1];
      RunInv(c, rq, before);
      InvKept(c, rq, Run(c, rq, before), es[|es| - 1]);
    }
  }

  /** What a legal run has done by its k-th step is a legal run. */
  lemma {:induction false} Prefix(c: Config, rq: Requests, es: seq<Event>, k: nat)
    requires Legal(c, rq, es) && k <= |es|
    ensures Legal(c, rq, es[..k])
  {
    if k == |es| {
      assert es[..k] == es;
    } else {
      Prefix(c, rq, es[..|es| - 1], k);
      assert es[..|es| - 1][..k] == es[..k];
    }
  }

  /** The state in which the k-th step is taken. */
  ghost function At(c: Config, rq: Requests, es: seq<Event>, k: nat): (s: State)
    requires Legal(c, rq, es) && k <= |es|
  {
    Prefix(c, rq, es, k);
    Run(c, rq, es[..k])
  }

  lemma StepAt(c: Config, rq: Requests, es: seq<Event>, k: nat)
    requires Legal(c, rq, es) && k < |es|
    ensures Enabled(c, rq, At(c, rq, es, k), es[k])
    ensures At(c, rq, es, k + 1) == Next(c, rq, At(c, rq, es, k), es[k])
  {
    Prefix(c, rq, es, k);
    Prefix(c, rq, es, k + 1);
    assert es[..k + 1][..k] == es[..k];
  }

  lemma InvAt(c: Config, rq: Requests, es: seq<Event>, k: nat)
    requires Legal(c, rq, es) && k <= |es|
    ensures Inv(c, rq, At(c, rq, es, k))
  {
    Prefix(c, rq, es, k);
    RunInv(c, rq, es[..k]);
  }

  // ---- one pipeline, one success ----

  /** Never two pipelines for one nullifier at once. */
  lemma OnePipelineAtATime(c: Config, rq: Requests, es: seq<Event>, a: Id, b: Id)
    requires Legal(c, rq, es)
    ensures var s := Run(c, rq, es);
      Running(s, a) && Running(s, b) && rq(a).nullifier == rq(b).nullifier ==> a == b
  {
    RunInv(c, rq, es);
    assert Locked(rq, Run(c, rq, es));
  }

  /** What a joiner returns is its leader's result, for the same nullifier. */
  lemma JoinersShareTheResult(c: Config, rq: Requests, es: seq<Event>, a: Id)
    requires Legal(c, rq, es)
    requires var s := Run(c, rq, es); a in s.joinedTo && a in s.pcs && s.pcs[a].Returned?
    ensures var s := Run(c, rq, es);
      var leader := s.joinedTo[a];
      && rq(leader).nullifier == rq(a).nullifier
      && leader in s.outcomes && s.pcs[a].result == s.outcomes[leader]
      && (leader in s.pcs && s.pcs[leader].Returned? ==> s.pcs[leader] == s.pcs[a])
  {
    PromisesOf(c, rq, es, a);
    PromisesOf(c, rq, es, Run(c, rq, es).joinedTo[a]);
  }

  /** The records of one request, in any run. */
  lemma PromisesOf(c: Config, rq: Requests, es: seq<Event>, id: Id)
    requires Legal(c, rq, es) && id in Run(c, rq, es).pcs
    ensures OwnRecords(rq, Run(c, rq, es), id)
  {
    RunInv(c, rq, es);
  }

  predicate NoRestart(es: seq<Event>, i: nat, j: nat)
    requires i <= j <= |es|
  {
    forall k :: i <= k < j ==> !es[k].Restart?
  }

  /** Settled promises, landings and, until a restart, successes are never forgotten. */
  lemma RecordsGrow(c: Config, rq: Requests, s: State, e: Event)
    requires Enabled(c, rq, s, e)
    ensures s.outcomes.Keys <= Next(c, rq, s, e).outcomes.Keys
    ensures s.landed <= Next(c, rq, s, e).landed
    ensures !e.Restart? ==> s.succeeded <= Next(c, rq, s, e).succeeded
  {
  }

  lemma {:induction false} SuccessRemembered(c: Config, rq: Requests, es: seq<Event>, i: nat, j: nat, id: Id)
    requires Legal(c, rq, es) && i <= j <= |es| && NoRestart(es, i, j)
    requires id in At(c, rq, es, i).succeeded
    ensures id in At(c, rq, es, j).succeeded
  {
    if i == j {
    } else {
      SuccessRemembered(c, rq, es, i, j - 1, id);
      StepAt(c, rq, es, j - 1);
      RecordsGrow(c, rq, At(c, rq, es, j - 1), es[j - 1]);
    }
  }

  /** A request being marked holds its nullifier's mark and has not succeeded; one that has succeeded holds it too. */
  lemma MarksAt(c: Config, rq: Requests, es: seq<Event>, k: nat, id: Id)
    requires Legal(c, rq, es) && k <= |es|
    ensures var s, n := At(c, rq, es, k), rq(id).nullifier;
      && (id in s.pcs && s.pcs[id].AwaitMark? ==> n in s.marked && s.marked[n] == id && id !in s.succeeded)
      && (id in s.succeeded ==> n in s.marked && s.marked[n] == id)
  {
    InvAt(c, rq, es, k);
    assert Books(c, rq, At(c, rq, es, k));
  }

  /** Between restarts at most one pipeline per nullifier succeeds; this does not rest on the chain. */
  lemma OneSuccessPerLife(c: Config, rq: Requests, es: seq<Event>, i: nat, j: nat)
    requires Legal(c, rq, es) && i < j < |es| && NoRestart(es, i, j)
    requires es[i].MarkDone? && es[j].MarkDone?
    ensures rq(es[i].id).nullifier != rq(es[j].id).nullifier
  {
    StepAt(c, rq, es, i);
    SuccessRemembered(c, rq, es, i + 1, j, es[i].id);
    StepAt(c, rq, es, j);
    MarksAt(c, rq, es, j, es[i].id);
    MarksAt(c, rq, es, j, es[j].id);
  }

  /** The throw of a second mark is never reached: a confirmed submission always marks its nullifier. */
  lemma SecondMarkNeverThrows(c: Config, rq: Requests, es: seq<Event>, k: nat)
    requires Legal(c, rq, es) && k < |es| && es[k].SubmitOk?
    ensures At(c, rq, es, k + 1).pcs[es[k].id].AwaitMark?
    ensures rq(es[k].id).nullifier !in At(c, rq, es, k).marked
  {
    StepAt(c, rq, es, k);
    InvAt(c, rq, es, k);
    MovesHaveCountShape(c, rq, At(c, rq, es, k), es[k]);
    assert BeforeMark(At(c, rq, es, k).pcs[es[k].id]);
  }

  /** The program refuses a nullifier it has seen, whoever spent it. */
  ghost predicate HonestChain(c: Config, rq: Requests, es: seq<Event>)
    requires Legal(c, rq, es)
  {
    forall k {:trigger es[k]} :: 0 <= k < |es| && es[k].Land? ==>
      !OnTheChain(c, At(c, rq, es, k).chain, rq(es[k].id).nullifier)
  }

  ghost predicate LandedApart(c: Config, rq: Requests, s: State) {
    forall a, b {:trigger a in s.landed, b in s.landed} ::
      a in s.landed && b in s.landed && c.nullifierValue(rq(a).nullifier) == c.nullifierValue(rq(b).nullifier) ==>
        a == b
  }

  lemma LandedApartKept(c: Config, rq: Requests, s: State, e: Event)
    requires LandedApart(c, rq, s) && Enabled(c, rq, s, e)
    requires forall id {:trigger id in s.landed} :: id in s.landed ==> OnTheChain(c, s.chain, rq(id).nullifier)
    requires e.Land? ==> !OnTheChain(c, s.chain, rq(e.id).nullifier)
    ensures LandedApart(c, rq, Next(c, rq, s, e))
  {
    var s' := Next(c, rq, s, e);
    assert s'.landed == if e.Land? then s.landed + {e.id} else s.landed;
  }

  lemma LandedOnChain(c: Config, rq: Requests, es: seq<Event>, k: nat)
    requires Legal(c, rq, es) && k <= |es|
    ensures var s := At(c, rq, es, k);
      forall id {:trigger id in s.landed} :: id in s.landed ==> OnTheChain(c, s.chain, rq(id).nullifier)
  {
    InvAt(c, rq, es, k);
    assert Books(c, rq, At(c, rq, es, k));
  }

  lemma {:induction false} LandedOnce(c: Config, rq: Requests, es: seq<Event>, k: nat)
    requires Legal(c, rq, es) && HonestChain(c, rq, es) && k <= |es|
    ensures LandedApart(c, rq, At(c, rq, es, k))
  {
    if k == 0 {
    } else {
      LandedOnce(c, rq, es, k - 1);
      StepAt(c, rq, es, k - 1);
      LandedOnChain(c, rq, es, k - 1);
      LandedApartKept(c, rq, At(c, rq, es, k - 1), es[k - 1]);
    }
  }

  lemma {:induction false} OutcomeRemembered(c: Config, rq: Requests, es: seq<Event>, i: nat, j: nat, id: Id)
    requires Legal(c, rq, es) && i <= j <= |es|
    requires id in At(c, rq, es, i).outcomes && id in At(c, rq, es, i).landed
    ensures id in At(c, rq, es, j).outcomes && id in At(c, rq, es, j).landed
  {
    if i == j {
    } else {
      OutcomeRemembered(c, rq, es, i, j - 1, id);
      StepAt(c, rq, es, j - 1);
      RecordsGrow(c, rq, At(c, rq, es, j - 1), es[j - 1]);
    }
  }

  /** A request being marked has landed, and its promise is not settled yet. */
  lemma LandedUnsettled(c: Config, rq: Requests, es: seq<Event>, k: nat, id: Id)
    requires Legal(c, rq, es) && k <= |es|
    requires var s := At(c, rq, es, k); id in s.pcs && s.pcs[id].AwaitMark?
    ensures var s := At(c, rq, es, k); id in s.landed && id !in s.outcomes
  {
    InvAt(c, rq, es, k);
    var s := At(c, rq, es, k);
    assert Landings(s) && OwnRecords(rq, s, id);
  }

  /** Over the relayer's whole life, restarts included, at most one pipeline per nullifier succeeds. */
  lemma OneSuccessEver(c: Config, rq: Requests, es: seq<Event>, i: nat, j: nat)
    requires Legal(c, rq, es) && HonestChain(c, rq, es) && i < j < |es|
    requires es[i].MarkDone? && es[j].MarkDone?
    ensures c.nullifierValue(rq(es[i].id).nullifier) != c.nullifierValue(rq(es[j].id).nullifier)
  {
    StepAt(c, rq, es, i);
    LandedUnsettled(c, rq, es, i, es[i].id);
    RecordsGrow(c, rq, At(c, rq, es, i), es[i]);
    OutcomeRemembered(c, rq, es, i + 1, j, es[i].id);
    StepAt(c, rq, es, j);
    LandedUnsettled(c, rq, es, j, es[j].id);
    LandedOnce(c, rq, es, j);
  }

  /** The cache in front of the chain never says more than the chain. */
  lemma CacheWithinChain(c: Config, rq: Requests, es: seq<Event>)
    requires Legal(c, rq, es) && c.kind.OnChain?
    ensures forall n :: n in Run(c, rq, es).known ==> OnTheChain(c, Run(c, rq, es).chain, n)
  {
    RunInv(c, rq, es);
  }

  /** A node that answers truthfully when it is asked, and is asked only for what is not cached. */
  predicate TruthfulReply(c: Config, rq: Requests, s: State, e: Event)
    requires e.SpentReply? && e.id in s.pcs && s.pcs[e.id].AwaitSpent?
  {
    e.accountExists <==> !s.pcs[e.id].cached && OnTheChain(c, s.chain, rq(e.id).nullifier)
  }

  /** So the pre-check ends a pipeline as already spent exactly when the chain has the nullifier. */
  lemma CachedAnswersAreTheChains(c: Config, rq: Requests, es: seq<Event>, k: nat)
    requires Legal(c, rq, es) && c.kind.OnChain? && k < |es| && es[k].SpentReply?
    requires es[k].id in At(c, rq, es, k).pcs && At(c, rq, es, k).pcs[es[k].id].AwaitSpent?
    requires TruthfulReply(c, rq, At(c, rq, es, k), es[k])
    ensures var s' := At(c, rq, es, k + 1);
      es[k].id in s'.outcomes && s'.outcomes[es[k].id] == AlreadySpent <==>
        OnTheChain(c, At(c, rq, es, k).chain, rq(es[k].id).nullifier)
  {
    StepAt(c, rq, es, k);
    CachedUnsettled(c, rq, es, k, es[k].id);
  }

  /** A request at the pre-check is unsettled, and what it found in the cache is on the chain. */
  lemma CachedUnsettled(c: Config, rq: Requests, es: seq<Event>, k: nat, id: Id)
    requires Legal(c, rq, es) && c.kind.OnChain? && k <= |es|
    requires var s := At(c, rq, es, k); id in s.pcs && s.pcs[id].AwaitSpent?
    ensures var s := At(c, rq, es, k);
      id !in s.outcomes && (s.pcs[id].cached ==> OnTheChain(c, s.chain, rq(id).nullifier))
  {
    InvAt(c, rq, es, k);
    var s := At(c, rq, es, k);
    assert Caching(rq, s) && OwnRecords(rq, s, id);
  }

  // ---- counters and money ----

  /** The pending counter counts submissions under way; with nothing running, the books are closed. */
  lemma CountersExact(c: Config, rq: Requests, es: seq<Event>)
    requires Legal(c, rq, es)
    ensures var s := Run(c, rq, es);
      && s.pending == |UnderSubmission(s.pcs)|
      && s.total == |s.succeeded|
      && ((forall id :: !Running(s, id)) ==> s.pending == 0 && s.total == |s.marked|)
  {
    RunInv(c, rq, es);
    var s := Run(c, rq, es);
    if forall id :: !Running(s, id) {
      assert forall id :: id in s.pcs ==> !Running(s, id);
      assert UnderSubmission(s.pcs) == {} && BeingMarked(s.pcs) == {};
    }
  }

  /** A success was paid out of exactly one denomination, by a request that cleared every check and landed. */
  lemma SuccessIsCleared(c: Config, rq: Requests, es: seq<Event>, id: Id)
    requires Legal(c, rq, es)
    requires var s := Run(c, rq, es); id in s.outcomes && s.outcomes[id].Success?
    ensures var s := Run(c, rq, es);
      && s.outcomes[id].amount + s.outcomes[id].fee == c.denomination
      && s.outcomes[id].fee == rq(id).fee >= c.minFee
      && PassesGuard(c, rq(id)) && Parity(c, rq(id)) && id in s.landed && OnTheChain(c, s.chain, rq(id).nullifier)
      && (GateArmed(c) ==> id in s.passedAt)
  {
    RunInv(c, rq, es);
    assert ResultGated(c, rq, Run(c, rq, es), id);
  }
}
