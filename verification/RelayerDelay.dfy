/** The privacy delay over all runs: who armed a root, what became of that request, and who may pass. */
module RelayerDelay {
  import opened Bytes
  import opened RelayerProtocol
  import opened RelayerLock
  import opened RelayerPromises
  import opened RelayerGate
  import opened RelayerRuns

  /** A row is written by one step: the first sighting of its root, at the slot that request had read. */
  ghost predicate FirstSighting(c: Config, rq: Requests, es: seq<Event>, k: nat, root: RootText, id: Id, slot: int)
    requires Legal(c, rq, es)
  {
    && k < |es| && es[k] == Observe(id) && rq(id).rootText == root
    && var s := At(c, rq, es, k);
    root !in s.rootSeen && id in s.pcs && s.pcs[id] == AwaitRow(slot)
  }

  lemma RowWritten(c: Config, rq: Requests, s: State, e: Event, root: RootText)
    requires Enabled(c, rq, s, e) && s.armedBy.Keys == s.rootSeen.Keys
    requires var s' := Next(c, rq, s, e); root in s'.rootSeen && root in s'.armedBy
    ensures var s' := Next(c, rq, s, e);
      if root in s.rootSeen then s'.rootSeen[root] == s.rootSeen[root] && s'.armedBy[root] == s.armedBy[root]
      else e == Observe(s'.armedBy[root]) && rq(e.id).rootText == root && s.pcs[e.id] == AwaitRow(s'.rootSeen[root])
  {
    if OwnStep(e) && MoveOf(c, rq, s, e).arms.Some? {
      ArmsAtASighting(c, rq, s, e);
    }
  }

  lemma RowsHaveArmers(c: Config, rq: Requests, es: seq<Event>, k: nat)
    requires Legal(c, rq, es) && k <= |es|
    ensures At(c, rq, es, k).armedBy.Keys == At(c, rq, es, k).rootSeen.Keys
  {
    InvAt(c, rq, es, k);
  }

  /** The request on record as having armed a root is the one whose step wrote the row. */
  lemma {:induction false} RowHasAFirstSighting(
      c: Config, rq: Requests, es: seq<Event>, j: nat, root: RootText) returns (k: nat)
    requires Legal(c, rq, es) && j <= |es| && root in At(c, rq, es, j).rootSeen
    ensures var s := At(c, rq, es, j);
      k < j && root in s.armedBy && FirstSighting(c, rq, es, k, root, s.armedBy[root], s.rootSeen[root])
  {
    StepAt(c, rq, es, j - 1);
    var s := At(c, rq, es, j - 1);
    RowsHaveArmers(c, rq, es, j - 1);
    RowsHaveArmers(c, rq, es, j);
    RowWritten(c, rq, s, es[j - 1], root);
    if root in s.rootSeen {
      k := RowHasAFirstSighting(c, rq, es, j - 1, root);
    } else {
      k := j - 1;
    }
  }

  // ---- what becomes of the request that arms a root ----

  /** What first happens to a request after its sighting: its comparison, an RPC error, or a restart. */
  datatype Fate = Waiting | Compared | Errored | Forgotten

  /** Read off the steps between the sighting at k and step j. */
  function FateOf(es: seq<Event>, id: Id, k: nat, j: nat): Fate
    requires k < j <= |es|
  {
    if j == k + 1 then Waiting else FateNext(FateOf(es, id, k, j - 1), id, es[j - 1])
  }

  /** How a fate shows in the state: rejected with all the delay to wait, failed, or unanswered. */
  predicate Shows(c: Config, s: State, id: Id, slot: int, f: Fate) {
    && id in s.pcs
    && match f
       case Waiting => s.pcs[id] == AwaitGate(slot, slot) && id !in s.outcomes
       case Compared => Over(s.pcs[id]) && id in s.outcomes && s.outcomes[id] == ArmingRejection(c)
       case Errored => Over(s.pcs[id]) && id in s.outcomes && s.outcomes[id] == Threw
       case Forgotten => s.pcs[id].Lost? && id !in s.outcomes
  }

  predicate Over(pc: Pc) {
    pc.Settled? || pc.Returned? || pc.Lost?
  }

  function FateNext(f: Fate, id: Id, e: Event): Fate {
    if f != Waiting then f
    else if e == Decide(id) then Compared
    else if e == RpcError(id) then Errored
    else if e == Restart then Forgotten
    else Waiting
  }

  lemma OwnStepShows(c: Config, rq: Requests, s: State, e: Event, slot: int, f: Fate)
    requires Enabled(c, rq, s, e) && OwnStep(e) && c.delaySlots > 0 && Shows(c, s, e.id, slot, f)
    ensures Shows(c, Next(c, rq, s, e), e.id, slot, FateNext(f, e.id, e))
  {
  }

  /** A step of somebody else leaves a request where it is, with its promise as it is. */
  lemma OthersUntouched(q: Request, s: State, id: Id, m: Move, x: Id)
    requires x != id
    ensures var s' := Apply(q, s, id, m);
      && (x in s'.pcs <==> x in s.pcs) && (x in s.pcs ==> s'.pcs[x] == s.pcs[x])
      && (x in s'.outcomes <==> x in s.outcomes) && (x in s.outcomes ==> s'.outcomes[x] == s.outcomes[x])
  {
  }

  lemma FateUntouched(f: Fate, id: Id, e: Event)
    requires OwnStep(e) && e.id != id
    ensures FateNext(f, id, e) == f
  {
  }

  lemma OtherStepShows(c: Config, rq: Requests, s: State, e: Event, id: Id, slot: int, f: Fate)
    requires Enabled(c, rq, s, e) && OwnStep(e) && e.id != id && Shows(c, s, id, slot, f)
    ensures Shows(c, Apply(rq(e.id), s, e.id, MoveOf(c, rq, s, e)), id, slot, f)
  {
    OthersUntouched(rq(e.id), s, e.id, MoveOf(c, rq, s, e), id);
  }

  lemma QuietStepShows(c: Config, rq: Requests, s: State, e: Event, id: Id, slot: int, f: Fate)
    requires Enabled(c, rq, s, e) && !OwnStep(e) && Shows(c, s, id, slot, f)
    ensures Shows(c, Next(c, rq, s, e), id, slot, FateNext(f, id, e))
  {
  }

  lemma StepShows(c: Config, rq: Requests, s: State, e: Event, id: Id, slot: int, f: Fate)
    requires Enabled(c, rq, s, e) && c.delaySlots > 0 && Shows(c, s, id, slot, f)
    ensures Shows(c, Next(c, rq, s, e), id, slot, FateNext(f, id, e))
  {
    if !OwnStep(e) {
      QuietStepShows(c, rq, s, e, id, slot, f);
    } else if e.id == id {
      OwnStepShows(c, rq, s, e, slot, f);
    } else {
      FateUntouched(f, id, e);
      OtherStepShows(c, rq, s, e, id, slot, f);
    }
  }

  /** The sighting leaves the request waiting for its comparison, at the slot it wrote. */
  lemma SightingWaits(c: Config, rq: Requests, es: seq<Event>, k: nat, root: RootText, id: Id, slot: int)
    requires Legal(c, rq, es) && FirstSighting(c, rq, es, k, root, id, slot)
    ensures c.delaySlots > 0 && Shows(c, At(c, rq, es, k + 1), id, slot, Waiting)
  {
    StepAt(c, rq, es, k);
    InvAt(c, rq, es, k);
    var s := At(c, rq, es, k);
    assert PcGated(c, rq, s, id) && OwnRecords(rq, s, id);
  }

  lemma FateStep(c: Config, rq: Requests, es: seq<Event>, k: nat, j: nat, id: Id, slot: int)
    requires Legal(c, rq, es) && k + 1 < j <= |es| && c.delaySlots > 0
    requires Shows(c, At(c, rq, es, j - 1), id, slot, FateOf(es, id, k, j - 1))
    ensures Shows(c, At(c, rq, es, j), id, slot, FateOf(es, id, k, j))
  {
    StepAt(c, rq, es, j - 1);
    StepShows(c, rq, At(c, rq, es, j - 1), es[j - 1], id, slot, FateOf(es, id, k, j - 1));
  }

  lemma {:induction false} FateShows(c: Config, rq: Requests, es: seq<Event>, k: nat, j: nat, id: Id, slot: int)
    requires Legal(c, rq, es) && k < j <= |es| && c.delaySlots > 0
    requires Shows(c, At(c, rq, es, k + 1), id, slot, Waiting)
    ensures Shows(c, At(c, rq, es, j), id, slot, FateOf(es, id, k, j))
    decreases j - k
  {
    if j == k + 1 {
    } else {
      FateShows(c, rq, es, k, j - 1, id, slot);
      FateStep(c, rq, es, k, j, id, slot);
    }
  }

  /**
   In every run, the request whose step armed a root has been answered with the arming rejection
   if and only if its own comparison came before any RPC error on it and before any restart.
   */
  lemma ArmerRejected(c: Config, rq: Requests, es: seq<Event>, k: nat, j: nat, root: RootText, id: Id, slot: int)
    requires Legal(c, rq, es) && FirstSighting(c, rq, es, k, root, id, slot) && k < j <= |es|
    ensures var s := At(c, rq, es, j);
      (id in s.outcomes && s.outcomes[id] == ArmingRejection(c)) <==>
      exists i :: k < i < j && es[i] == Decide(id) && Undisturbed(es, id, k + 1, i)
  {
    SightingWaits(c, rq, es, k, root, id, slot);
    FateShows(c, rq, es, k, j, id, slot);
    ComparedMeans(es, id, k, j);
  }

  /** Between two steps nothing cuts a request off. */
  predicate Undisturbed(es: seq<Event>, id: Id, from: nat, to: nat)
    requires to <= |es|
  {
    forall m :: from <= m < to ==> es[m] != RpcError(id) && es[m] != Restart
  }

  /** The fate in plain words: some comparison of its own, with nothing before it to cut it off. */
  lemma {:induction false} ComparedMeans(es: seq<Event>, id: Id, k: nat, j: nat)
    requires k < j <= |es|
    ensures FateOf(es, id, k, j).Compared? <==>
      exists i :: k < i < j && es[i] == Decide(id) && Undisturbed(es, id, k + 1, i)
    ensures FateOf(es, id, k, j).Waiting? ==> Undisturbed(es, id, k + 1, j)
    ensures FateOf(es, id, k, j).Errored? || FateOf(es, id, k, j).Forgotten? ==> !Undisturbed(es, id, k + 1, j)
  {
    if j == k + 1 {
    } else {
      ComparedMeans(es, id, k, j - 1);
    }
  }

  /** A passage at slot s: the request, its slot, and the root's row when it is compared. */
  ghost predicate PassesAt(c: Config, rq: Requests, es: seq<Event>, j: nat, id: Id, slot: int)
    requires Legal(c, rq, es)
  {
    && j < |es| && es[j] == Decide(id)
    && AtComparison(At(c, rq, es, j), id) && At(c, rq, es, j).pcs[id].seenAt == slot
    && var s' := At(c, rq, es, j + 1);
    id in s'.pcs && s'.pcs[id].AwaitVerify?
  }

  /**
   A passage at slot s needs an earlier request on the same root, by someone else, with a
   parity-valid body, that sighted the root at a slot at most s - delay. By then it was rejected
   if and only if it had been compared with nothing cutting it off first.
   */
  lemma PassageNeedsAnArmer(
      c: Config, rq: Requests, es: seq<Event>, j: nat, id: Id, slot: int) returns (k: nat, armer: Id, seen: int)
    requires Legal(c, rq, es) && PassesAt(c, rq, es, j, id, slot)
    ensures k < j && FirstSighting(c, rq, es, k, rq(id).rootText, armer, seen)
    ensures slot - seen >= c.delaySlots > 0
    ensures armer != id && PassesGuard(c, rq(armer)) && Parity(c, rq(armer))
    ensures var s := At(c, rq, es, j);
      (armer in s.outcomes && s.outcomes[armer] == ArmingRejection(c)) <==>
      exists i :: k < i < j && es[i] == Decide(armer) && Undisturbed(es, armer, k + 1, i)
  {
    var s := At(c, rq, es, j);
    var root := rq(id).rootText;
    PassageAfterTheRow(c, rq, es, j, id, slot);
    k := RowHasAFirstSighting(c, rq, es, j, root);
    armer, seen := s.armedBy[root], s.rootSeen[root];
    SightingIsValid(c, rq, es, k, root, armer, seen);
    SomeoneElse(c, rq, es, k, j, root, armer, seen, id);
    ArmerRejected(c, rq, es, k, j, root, armer, seen);
  }

  /** A passage comes at least the delay after the slot in its root's row. */
  lemma PassageAfterTheRow(c: Config, rq: Requests, es: seq<Event>, j: nat, id: Id, slot: int)
    requires Legal(c, rq, es) && PassesAt(c, rq, es, j, id, slot)
    ensures var s := At(c, rq, es, j);
      && rq(id).rootText in s.rootSeen && s.pcs[id].firstSeen == s.rootSeen[rq(id).rootText]
      && slot - s.rootSeen[rq(id).rootText] >= c.delaySlots > 0
  {
    ComparesWithTheRow(c, rq, es, j);
  }

  /** A request that waits for its own sighting's comparison does not pass it. */
  lemma SomeoneElse(
      c: Config, rq: Requests, es: seq<Event>, k: nat, j: nat, root: RootText, armer: Id, seen: int, id: Id)
    requires Legal(c, rq, es) && FirstSighting(c, rq, es, k, root, armer, seen) && k < j <= |es|
    requires var s := At(c, rq, es, j); AtComparison(s, id) && s.pcs[id].seenAt >= s.pcs[id].firstSeen + c.delaySlots
    ensures armer != id
  {
    SightingWaits(c, rq, es, k, root, armer, seen);
    FateShows(c, rq, es, k, j, armer, seen);
  }

  lemma SightingIsValid(c: Config, rq: Requests, es: seq<Event>, k: nat, root: RootText, id: Id, slot: int)
    requires Legal(c, rq, es) && FirstSighting(c, rq, es, k, root, id, slot)
    ensures PassesGuard(c, rq(id)) && Parity(c, rq(id))
  {
    InvAt(c, rq, es, k);
    assert PcGated(c, rq, At(c, rq, es, k), id);
  }

  /** The request that armed a root never passes the gate itself, in any continuation. */
  lemma ArmerNeverPasses(c: Config, rq: Requests, es: seq<Event>, root: RootText)
    requires Legal(c, rq, es) && root in Run(c, rq, es).rootSeen
    ensures var s := Run(c, rq, es); root in s.armedBy && s.armedBy[root] !in s.passedAt
  {
    RunInv(c, rq, es);
    var s := Run(c, rq, es);
    assert ArmedThenStopped(c, rq, s, root, s.rootSeen[root], s.armedBy[root]);
  }

  /** In milliseconds of slots, the passage came at least the configured delay after the arming. */
  lemma DelayHonoured(c: Config, rq: Requests, es: seq<Event>, id: Id, privacyDelayMs: int)
    requires Legal(c, rq, es) && id in Run(c, rq, es).passedAt
    requires c.delaySlots == PrivacyDelaySlots(privacyDelayMs)
    ensures var s := Run(c, rq, es);
      rq(id).rootText in s.rootSeen &&
        (s.passedAt[id] - s.rootSeen[rq(id).rootText]) * SLOT_DURATION_MS >= privacyDelayMs
  {
    RunInv(c, rq, es);
    assert PassageGated(c, rq, Run(c, rq, es), id);
  }

  lemma {:induction false} RowsPersist(c: Config, rq: Requests, es: seq<Event>, i: nat, j: nat, root: RootText)
    requires Legal(c, rq, es) && i <= j <= |es|
    requires root in At(c, rq, es, i).rootSeen
    ensures root in At(c, rq, es, j).rootSeen && At(c, rq, es, j).rootSeen[root] == At(c, rq, es, i).rootSeen[root]
  {
    if i == j {
    } else {
      RowsPersist(c, rq, es, i, j - 1, root);
      StepAt(c, rq, es, j - 1);
      RowsStay(c, rq, At(c, rq, es, j - 1), es[j - 1], root);
    }
  }

  /** The request is about to be compared with its root's row. */
  predicate AtComparison(s: State, id: Id) {
    id in s.pcs && s.pcs[id].AwaitGate?
  }

  /** A comparison passes or settles by its verdict. */
  lemma ComparisonDecides(c: Config, rq: Requests, s: State, e: Event)
    requires Enabled(c, rq, s, e) && e.Decide?
    ensures var s', verdict := Next(c, rq, s, e), GateVerdict(c.delaySlots, s.pcs[e.id].seenAt, s.pcs[e.id].firstSeen);
      && e.id in s'.pcs && (s'.pcs[e.id].AwaitVerify? <==> verdict.Pass?)
      && s'.outcomes == if verdict.Pass? then s.outcomes else s.outcomes[e.id := Delayed(verdict.elapsed, verdict.wait)]
  {
  }

  lemma RowOfComparison(c: Config, rq: Requests, es: seq<Event>, k: nat, id: Id)
    requires Legal(c, rq, es) && k <= |es| && AtComparison(At(c, rq, es, k), id)
    ensures var s := At(c, rq, es, k);
      && rq(id).rootText in s.rootSeen && s.pcs[id].firstSeen == s.rootSeen[rq(id).rootText] && id !in s.outcomes
      && c.delaySlots > 0
  {
    InvAt(c, rq, es, k);
    var s := At(c, rq, es, k);
    assert PcGated(c, rq, s, id) && OwnRecords(rq, s, id);
  }

  lemma ComparesWithTheRow(c: Config, rq: Requests, es: seq<Event>, k: nat)
    requires Legal(c, rq, es) && k < |es| && es[k].Decide?
    ensures var s, s', id := At(c, rq, es, k), At(c, rq, es, k + 1), es[k].id;
      && c.delaySlots > 0 && AtComparison(s, id) && rq(id).rootText in s.rootSeen &&
           s.pcs[id].firstSeen == s.rootSeen[rq(id).rootText]
      && var verdict := GateVerdict(c.delaySlots, s.pcs[id].seenAt, s.pcs[id].firstSeen);
      && id in s'.pcs && (s'.pcs[id].AwaitVerify? <==> verdict.Pass?)
      && (if verdict.Wait? then id in s'.outcomes &&
           s'.outcomes[id] == Delayed(verdict.elapsed, verdict.wait) else id !in s'.outcomes)
  {
    StepAt(c, rq, es, k);
    RowOfComparison(c, rq, es, k, es[k].id);
    ComparisonDecides(c, rq, At(c, rq, es, k), es[k]);
  }

  /** A comparison at step k that rejects, and the wait it announces. */
  ghost predicate Rejects(c: Config, rq: Requests, es: seq<Event>, k: nat, w: nat)
    requires Legal(c, rq, es)
  {
    && k < |es| && es[k].Decide? && AtComparison(At(c, rq, es, k), es[k].id)
    && var s' := At(c, rq, es, k + 1);
    es[k].id in s'.outcomes && s'.outcomes[es[k].id].Delayed? && s'.outcomes[es[k].id].wait == w
  }

  /**
   When a rejection keeps its word, over all runs and for any two spellings. The attempt at step j
   meets the row of its own spelling, which is the rejection's row when the spellings agree. Every
   slot from the announced one on would pass there exactly when that row is not newer than the
   rejected slot or the rejection's row; and then the attempt, if it comes that late, does pass.
   */
  lemma RejectionKeepsItsWord(c: Config, rq: Requests, es: seq<Event>, i: nat, j: nat, w: nat)
    requires Legal(c, rq, es) && i < j < |es| && Rejects(c, rq, es, i, w)
    requires es[j].Decide? && AtComparison(At(c, rq, es, j), es[j].id)
    ensures var was, pc := At(c, rq, es, i).pcs[es[i].id], At(c, rq, es, j).pcs[es[j].id];
      && (rq(es[i].id).rootText == rq(es[j].id).rootText ==> pc.firstSeen == was.firstSeen)
      && ((forall later :: later >= was.seenAt + w ==> GateVerdict(c.delaySlots, later, pc.firstSeen).Pass?) <==>
           pc.firstSeen <= was.seenAt && pc.firstSeen <= was.firstSeen)
      && (pc.firstSeen <= was.seenAt && pc.firstSeen <= was.firstSeen && pc.seenAt >= was.seenAt + w ==>
           Passes(c, rq, es, j))
  {
    ComparesWithTheRow(c, rq, es, i);
    ComparesWithTheRow(c, rq, es, j);
    var was, pc := At(c, rq, es, i).pcs[es[i].id], At(c, rq, es, j).pcs[es[j].id];
    WaitPromise(c.delaySlots, was.seenAt, was.firstSeen, pc.firstSeen);
    RowsPersist(c, rq, es, i, j, rq(es[i].id).rootText);
  }

  /** The comparison at step j lets its request on to the verification of its proof. */
  ghost predicate Passes(c: Config, rq: Requests, es: seq<Event>, j: nat)
    requires Legal(c, rq, es) && j < |es| && es[j].Decide?
  {
    var s' := At(c, rq, es, j + 1);
    es[j].id in s'.pcs && s'.pcs[es[j].id].AwaitVerify?
  }

  /** What a spelling's row says at any later step is what it says when it is on record. */
  lemma RowMetLater(c: Config, rq: Requests, es: seq<Event>, i: nat, j: nat)
    requires Legal(c, rq, es) && i <= j < |es| && es[j].Decide? && AtComparison(At(c, rq, es, j), es[j].id)
    requires rq(es[j].id).rootText in At(c, rq, es, i).rootSeen
    ensures At(c, rq, es, j).pcs[es[j].id].firstSeen == At(c, rq, es, i).rootSeen[rq(es[j].id).rootText]
  {
    ComparesWithTheRow(c, rq, es, j);
    RowsPersist(c, rq, es, i, j, rq(es[j].id).rootText);
  }
}
