/** Runs that show what the privacy delay does not promise. */
module RelayerWitnesses {
  import opened Bytes
  import opened MerkleTree
  import opened RelayerProtocol
  import opened RelayerLock
  import opened RelayerRuns
  import opened RelayerDelay

  /** A run and one more step; what the run did before stands as it was. */
  lemma Extend(c: Config, rq: Requests, es: seq<Event>, e: Event) returns (more: seq<Event>)
    requires Legal(c, rq, es) && Enabled(c, rq, Run(c, rq, es), e)
    ensures more == es + [e] && Legal(c, rq, more)
    ensures Run(c, rq, more) == Next(c, rq, Run(c, rq, es), e)
  {
    more := es + [e];
    assert more[..|es|] == es;
  }

  lemma Reach(c: Config, rq: Requests, es: seq<Event>, e: Event, s: State, s': State) returns (more: seq<Event>)
    requires Legal(c, rq, es) && Run(c, rq, es) == s && Enabled(c, rq, s, e) && Next(c, rq, s, e) == s'
    ensures more == es + [e] && Legal(c, rq, more) && Run(c, rq, more) == s'
  {
    more := Extend(c, rq, es, e);
  }

  /** A request that can start, and would clear every check in front of the gate. */
  predicate Ready(c: Config, rq: Requests, s: State, id: Id) {
    && GateArmed(c) && PassesGuard(c, rq(id)) && Parity(c, rq(id))
    && id !in s.pcs && rq(id).nullifier !in s.inFlight && rq(id).nullifier !in s.known
  }

  /** A request that holds the lock of its nullifier and is suspended somewhere. */
  function Held(rq: Requests, s: State, id: Id, pc: Pc): State {
    s.(pcs := s.pcs[id := pc], inFlight := s.inFlight[rq(id).nullifier := id])
  }

  lemma Starts(c: Config, rq: Requests, s: State, id: Id)
    requires Ready(c, rq, s, id)
    ensures Enabled(c, rq, s, Arrive(id)) && Next(c, rq, s, Arrive(id)) == Held(rq, s, id, AwaitSpent(false))
  {
  }

  lemma FoundUnspent(c: Config, rq: Requests, s: State, id: Id)
    requires id !in s.pcs
    ensures var t := Held(rq, s, id, AwaitSpent(false));
      Enabled(c, rq, t, SpentReply(id, false)) && Next(c, rq, t, SpentReply(id, false)) == Held(rq, s, id, AwaitParity)
  {
  }

  lemma FoundBound(c: Config, rq: Requests, s: State, id: Id)
    requires Ready(c, rq, s, id)
    ensures var t := Held(rq, s, id, AwaitParity);
      Enabled(c, rq, t, ParityReply(id)) && Next(c, rq, t, ParityReply(id)) == Held(rq, s, id, AwaitSlot)
  {
  }

  lemma ReadSlot(c: Config, rq: Requests, s: State, id: Id, slot: int)
    requires id !in s.pcs
    ensures var t := Held(rq, s, id, AwaitSlot);
      Enabled(c, rq, t, SlotReply(id, slot)) && Next(c, rq, t, SlotReply(id, slot)) == Held(rq, s, id, AwaitRow(slot))
  {
  }

  lemma ToRow(c: Config, rq: Requests, es: seq<Event>, id: Id, slot: int) returns (more: seq<Event>)
    requires Legal(c, rq, es) && Ready(c, rq, Run(c, rq, es), id)
    ensures Legal(c, rq, more) && es <= more
    ensures Run(c, rq, more) == Held(rq, Run(c, rq, es), id, AwaitRow(slot))
  {
    var s := Run(c, rq, es);
    Starts(c, rq, s, id);
    more := Reach(c, rq, es, Arrive(id), s, Held(rq, s, id, AwaitSpent(false)));
    FoundUnspent(c, rq, s, id);
    more := Reach(c, rq, more, SpentReply(id, false), Held(rq, s, id, AwaitSpent(false)), Held(rq, s, id, AwaitParity));
    FoundBound(c, rq, s, id);
    more := Reach(c, rq, more, ParityReply(id), Held(rq, s, id, AwaitParity), Held(rq, s, id, AwaitSlot));
    ReadSlot(c, rq, s, id, slot);
    more := Reach(c, rq, more, SlotReply(id, slot), Held(rq, s, id, AwaitSlot), Held(rq, s, id, AwaitRow(slot)));
  }

  /** The first sighting of a root writes its row. */
  lemma ToSighting(c: Config, rq: Requests, es: seq<Event>, id: Id, slot: int) returns (more: seq<Event>)
    requires Legal(c, rq, es) && Ready(c, rq, Run(c, rq, es), id) && rq(id).rootText !in Run(c, rq, es).rootSeen
    ensures Legal(c, rq, more) && es <= more && |more| > 0
    ensures FirstSighting(c, rq, more, |more| - 1, rq(id).rootText, id, slot)
    ensures var s, root := Held(rq, Run(c, rq, es), id, AwaitRow(slot)), rq(id).rootText;
      Run(c, rq, more) == s.(pcs := s.pcs[id := AwaitGate(slot, slot)],
                             rootSeen := s.rootSeen[root := slot], armedBy := s.armedBy[root := id])
  {
    var before := ToRow(c, rq, es, id, slot);
    more := Extend(c, rq, before, Observe(id));
    assert more[..|more| - 1] == before;
  }

  /** A later sighting reads the row that is there. */
  lemma ToComparison(c: Config, rq: Requests, es: seq<Event>, id: Id, slot: int) returns (more: seq<Event>)
    requires Legal(c, rq, es) && Ready(c, rq, Run(c, rq, es), id) && rq(id).rootText in Run(c, rq, es).rootSeen
    ensures Legal(c, rq, more) && es <= more
    ensures var s := Held(rq, Run(c, rq, es), id, AwaitRow(slot));
      Run(c, rq, more) == s.(pcs := s.pcs[id := AwaitGate(slot, s.rootSeen[rq(id).rootText])])
  {
    more := ToRow(c, rq, es, id, slot);
    more := Extend(c, rq, more, Observe(id));
  }

  /** A comparison reached, and its outcome. */
  lemma ToVerdict(c: Config, rq: Requests, es: seq<Event>, id: Id, slot: int) returns (more: seq<Event>)
    requires Legal(c, rq, es) && Ready(c, rq, Run(c, rq, es), id) && rq(id).rootText in Run(c, rq, es).rootSeen
    ensures Legal(c, rq, more) && es <= more && |es| < |more| && more[|more| - 1] == Decide(id)
    ensures AtComparison(At(c, rq, more, |more| - 1), id)
    ensures At(c, rq, more, |more| - 1).outcomes == Run(c, rq, es).outcomes
    ensures At(c, rq, more, |more| - 1).pcs[id] == AwaitGate(slot, Run(c, rq, es).rootSeen[rq(id).rootText])
    ensures var s, t := Run(c, rq, es), Run(c, rq, more);
      var verdict := GateVerdict(c.delaySlots, slot, s.rootSeen[rq(id).rootText]);
      && id in t.pcs && t.rootSeen == s.rootSeen && t.known == s.known
      && t.pcs.Keys == s.pcs.Keys + {id} && t.inFlight == s.inFlight[rq(id).nullifier := id]
      && (verdict.Pass? ==> t.pcs[id] == AwaitVerify)
      && (verdict.Wait? ==>
           t.pcs[id] == Settled && id in t.outcomes && t.outcomes[id] == Delayed(verdict.elapsed, verdict.wait))
  {
    var before := ToComparison(c, rq, es, id, slot);
    more := Extend(c, rq, before, Decide(id));
    assert more[..|more| - 1] == before;
    assert Run(c, rq, before).rootSeen == Run(c, rq, es).rootSeen;
  }

  // ---- an example relayer ----

  /** A relayer with an armed gate, and requests that clear everything in front of it. */
  function Example(delaySlots: nat): Config {
    Config((x, y) => 0, Zero, Strokes, OnChain, 0, 0, 1, delaySlots, true)
  }

  function ExampleRequests(spelling: Id -> RootText): Requests {
    (id: Id) => Request(spelling(id), Tally(id), 0, 0, 0, true, [0, id, 0, 0, 0])
  }

  function Zero(text: string): Option<int> {
    Some(0)
  }

  function Strokes(text: string): Option<int> {
    Some(|text|)
  }

  /** Numbers written as strokes. */
  function Tally(n: nat): (text: string)
    ensures |text| == n
  {
    seq(n, _ => '|')
  }

  function Plain(id: Id): RootText {
    "0"
  }

  /** Everybody but the first request writes the same root with one more zero. */
  function Respelled(id: Id): RootText {
    if id == 0 then "0" else "00"
  }

  lemma ExamplesClear(delaySlots: nat, spelling: Id -> RootText, id: Id)
    requires delaySlots > 0
    ensures var c, q := Example(delaySlots), ExampleRequests(spelling)(id);
      GateArmed(c) && PassesGuard(c, q) && Parity(c, q) && q.nullifier == Tally(id) && q.rootText == spelling(id)
  {
    var c, q := Example(delaySlots), ExampleRequests(spelling)(id);
    assert q.nullifier == Tally(id) && q.signals[1] == id && |Tally(id)| == id;
    assert c.nullifierValue(q.nullifier) == Strokes(q.nullifier);
  }

  lemma SightingStays(
      c: Config, rq: Requests, es: seq<Event>, more: seq<Event>, k: nat, root: RootText, id: Id, slot: int)
    requires Legal(c, rq, es) && Legal(c, rq, more) && es <= more && FirstSighting(c, rq, es, k, root, id, slot)
    ensures FirstSighting(c, rq, more, k, root, id, slot)
  {
    assert more[..k] == es[..k];
  }

  // ---- an armer that is never rejected ----

  /** What can come between a sighting and its comparison. */
  datatype Cut = Nothing | RpcFails | Restarts

  lemma AfterTheCut(c: Config, rq: Requests, es: seq<Event>, cut: Cut) returns (more: seq<Event>)
    requires Legal(c, rq, es)
    requires var s := Run(c, rq, es);
      && s.pcs.Keys == {0} && s.pcs[0].AwaitGate?
      && s.inFlight.Keys <= {rq(0).nullifier} && s.known == {} && s.outcomes == map[]
    ensures Legal(c, rq, more) && es <= more
    ensures var s, t := Run(c, rq, es), Run(c, rq, more);
      && t.pcs.Keys == {0} && t.inFlight.Keys <= {rq(0).nullifier} && t.known == {} && t.rootSeen == s.rootSeen
      && t.outcomes == if cut.RpcFails? then map[0 := Threw] else map[]
  {
    more := es;
    if cut.RpcFails? {
      more := Extend(c, rq, es, RpcError(0));
    } else if cut.Restarts? {
      more := Extend(c, rq, es, Restart);
    }
  }

  /**
   The request that arms a root need not be answered with a rejection before somebody passes on
   that root: its RPC call can fail, a restart can lose it, or its comparison can still be to come.
   */
  lemma UnrejectedArmer(delaySlots: nat, slot: int, cut: Cut) returns (es: seq<Event>, k: nat)
    requires delaySlots > 0
    ensures var c, rq := Example(delaySlots), ExampleRequests(Plain);
      && Legal(c, rq, es) && k < |es| - 1 && FirstSighting(c, rq, es, k, "0", 0, slot)
      && PassesAt(c, rq, es, |es| - 1, 1, slot + delaySlots)
      && At(c, rq, es, |es| - 1).outcomes == if cut.RpcFails? then map[0 := Threw] else map[]
  {
    var c, rq := Example(delaySlots), ExampleRequests(Plain);
    ExamplesClear(delaySlots, Plain, 0);
    ExamplesClear(delaySlots, Plain, 1);
    es, k := CutThenPass(c, rq, slot, cut);
  }

  lemma CutThenPass(c: Config, rq: Requests, slot: int, cut: Cut) returns (es: seq<Event>, k: nat)
    requires c.delaySlots > 0 && rq(0).nullifier != rq(1).nullifier && rq(0).rootText == rq(1).rootText
    requires Ready(c, rq, START, 0) && Ready(c, rq, START, 1)
    ensures Legal(c, rq, es) && k < |es| - 1 && FirstSighting(c, rq, es, k, rq(0).rootText, 0, slot)
    ensures PassesAt(c, rq, es, |es| - 1, 1, slot + c.delaySlots)
    ensures At(c, rq, es, |es| - 1).outcomes == if cut.RpcFails? then map[0 := Threw] else map[]
  {
    var sighted := ToSighting(c, rq, [], 0, slot);
    k := |sighted| - 1;
    var after := AfterTheCut(c, rq, sighted, cut);
    es := ToPassage(c, rq, after, 1, slot + c.delaySlots);
    SightingStays(c, rq, sighted, es, k, rq(0).rootText, 0, slot);
  }

  lemma ToPassage(c: Config, rq: Requests, es: seq<Event>, id: Id, slot: int) returns (more: seq<Event>)
    requires Legal(c, rq, es) && Ready(c, rq, Run(c, rq, es), id) && rq(id).rootText in Run(c, rq, es).rootSeen
    requires slot - Run(c, rq, es).rootSeen[rq(id).rootText] >= c.delaySlots
    ensures Legal(c, rq, more) && es <= more && |es| < |more|
    ensures PassesAt(c, rq, more, |more| - 1, id, slot)
    ensures At(c, rq, more, |more| - 1).outcomes == Run(c, rq, es).outcomes
  {
    more := ToVerdict(c, rq, es, id, slot);
    assert more[..|more|] == more;
  }

  // ---- promises that do not hold ----

  /**
   A slot that went backwards: the request is rejected, comes back after the announced wait, and is rejected
   again.
   */
  lemma BrokenWait(delaySlots: nat) returns (es: seq<Event>, i: nat)
    requires delaySlots > 0
    ensures var c, rq := Example(delaySlots), ExampleRequests(Plain);
      && Legal(c, rq, es) && i < |es| - 1
      && RejectedAt(c, rq, es, i, 1, 0, 1, delaySlots)
      && RejectedAt(c, rq, es, |es| - 1, 2, delaySlots, 1, 1)
  {
    var c, rq := Example(delaySlots), ExampleRequests(Plain);
    ExamplesClear(delaySlots, Plain, 0);
    ExamplesClear(delaySlots, Plain, 1);
    ExamplesClear(delaySlots, Plain, 2);
    es, i := RejectTwice(c, rq);
  }

  /** A comparison that rejects: who, at which slot, against which first-seen slot, and the wait announced. */
  ghost predicate RejectedAt(
      c: Config, rq: Requests, es: seq<Event>, k: nat, id: Id, slot: int, firstSeen: int, wait: nat)
    requires Legal(c, rq, es)
  {
    && k < |es| && es[k] == Decide(id)
    && var s, s' := At(c, rq, es, k), At(c, rq, es, k + 1);
    && AtComparison(s, id) && s.pcs[id].seenAt == slot && s.pcs[id].firstSeen == firstSeen
    && id in s'.outcomes && s'.outcomes[id].Delayed? && s'.outcomes[id].wait == wait
  }

  lemma RejectionStays(
      c: Config, rq: Requests, es: seq<Event>, more: seq<Event>, k: nat, id: Id, slot: int, firstSeen: int, wait: nat)
    requires Legal(c, rq, es) && Legal(c, rq, more) && es <= more && RejectedAt(c, rq, es, k, id, slot, firstSeen, wait)
    ensures RejectedAt(c, rq, more, k, id, slot, firstSeen, wait)
  {
    assert more[..k] == es[..k] && more[..k + 1] == es[..k + 1];
  }

  lemma ToRejection(
      c: Config, rq: Requests, es: seq<Event>, id: Id, slot: int, firstSeen: int, wait: nat) returns (more: seq<Event>)
    requires Legal(c, rq, es) && Ready(c, rq, Run(c, rq, es), id)
    requires rq(id).rootText in Run(c, rq, es).rootSeen && Run(c, rq, es).rootSeen[rq(id).rootText] == firstSeen
    requires GateVerdict(c.delaySlots, slot, firstSeen).Wait? && GateVerdict(c.delaySlots, slot, firstSeen).wait == wait
    ensures Legal(c, rq, more) && es <= more && |es| < |more|
    ensures RejectedAt(c, rq, more, |more| - 1, id, slot, firstSeen, wait)
    ensures var s, t := Run(c, rq, es), Run(c, rq, more);
      t.rootSeen == s.rootSeen && OneMore(rq, s, t, id)
  {
    more := ToVerdict(c, rq, es, id, slot);
    assert more[..|more|] == more;
  }

  /** One request more has come as far as the gate: anybody else is as ready as before. */
  predicate OneMore(rq: Requests, s: State, t: State, id: Id) {
    t.known == s.known && t.pcs.Keys == s.pcs.Keys + {id} && t.inFlight.Keys == s.inFlight.Keys + {rq(id).nullifier}
  }

  lemma StillReady(c: Config, rq: Requests, s: State, t: State, id: Id, x: Id)
    requires OneMore(rq, s, t, id) && Ready(c, rq, s, x) && x != id && rq(x).nullifier != rq(id).nullifier
    ensures Ready(c, rq, t, x)
  {
    assert x !in t.pcs.Keys && rq(x).nullifier !in t.inFlight.Keys;
  }

  lemma ToArming(c: Config, rq: Requests, es: seq<Event>, id: Id, slot: int) returns (more: seq<Event>)
    requires Legal(c, rq, es) && Ready(c, rq, Run(c, rq, es), id) && rq(id).rootText !in Run(c, rq, es).rootSeen
    ensures Legal(c, rq, more) && es <= more && |es| < |more|
    ensures var s, t := Run(c, rq, es), Run(c, rq, more);
      && OneMore(rq, s, t, id) && t.rootSeen == s.rootSeen[rq(id).rootText := slot]
      && id in t.pcs && t.pcs[id] == AwaitGate(slot, slot)
  {
    more := ToSighting(c, rq, es, id, slot);
    var s, t := Run(c, rq, es), Run(c, rq, more);
    assert t.known == s.known && t.pcs == Held(rq, s, id, AwaitRow(slot)).pcs[id := AwaitGate(slot, slot)];
  }

  lemma RejectOnce(c: Config, rq: Requests) returns (es: seq<Event>)
    requires c.delaySlots > 0 && rq(0).nullifier != rq(1).nullifier && rq(0).nullifier != rq(2).nullifier &&
      rq(1).nullifier != rq(2).nullifier
    requires rq(0).rootText == rq(1).rootText == rq(2).rootText
    requires Ready(c, rq, START, 0) && Ready(c, rq, START, 1) && Ready(c, rq, START, 2)
    ensures Legal(c, rq, es) && |es| > 0 && RejectedAt(c, rq, es, |es| - 1, 1, 0, 1, c.delaySlots)
    ensures var s := Run(c, rq, es);
      Ready(c, rq, s, 2) && rq(2).rootText in s.rootSeen && s.rootSeen[rq(2).rootText] == 1
  {
    var sighted := ToArming(c, rq, [], 0, 1);
    StillReady(c, rq, START, Run(c, rq, sighted), 0, 1);
    StillReady(c, rq, START, Run(c, rq, sighted), 0, 2);
    es := ToRejection(c, rq, sighted, 1, 0, 1, c.delaySlots);
    StillReady(c, rq, Run(c, rq, sighted), Run(c, rq, es), 1, 2);
  }

  lemma RejectTwice(c: Config, rq: Requests) returns (es: seq<Event>, i: nat)
    requires c.delaySlots > 0 && rq(0).nullifier != rq(1).nullifier && rq(0).nullifier != rq(2).nullifier &&
      rq(1).nullifier != rq(2).nullifier
    requires rq(0).rootText == rq(1).rootText == rq(2).rootText
    requires Ready(c, rq, START, 0) && Ready(c, rq, START, 1) && Ready(c, rq, START, 2)
    ensures Legal(c, rq, es) && i < |es| - 1
    ensures RejectedAt(c, rq, es, i, 1, 0, 1, c.delaySlots) && RejectedAt(c, rq, es, |es| - 1, 2, c.delaySlots, 1, 1)
  {
    var rejected := RejectOnce(c, rq);
    i := |rejected| - 1;
    es := ToRejection(c, rq, rejected, 2, c.delaySlots, 1, 1);
    RejectionStays(c, rq, rejected, es, i, 1, 0, 1, c.delaySlots);
  }

  /** Another spelling of the same root has a row of its own: after the announced wait it is only armed. */
  lemma RespelledRootWaitsAgain(delaySlots: nat, slot: int) returns (es: seq<Event>, i: nat)
    requires delaySlots > 0
    ensures var c, rq := Example(delaySlots), ExampleRequests(Respelled);
      && c.rootValue(rq(0).rootText) == c.rootValue(rq(1).rootText)
      && Legal(c, rq, es) && i < |es| - 1
      && RejectedAt(c, rq, es, i, 0, slot, slot, delaySlots)
      && RejectedAt(c, rq, es, |es| - 1, 1, slot + delaySlots, slot + delaySlots, delaySlots)
  {
    var c, rq := Example(delaySlots), ExampleRequests(Respelled);
    ExamplesClear(delaySlots, Respelled, 0);
    ExamplesClear(delaySlots, Respelled, 1);
    var rejected := ArmThenReject(c, rq, [], 0, slot);
    i := |rejected| - 1;
    StillReady(c, rq, START, Run(c, rq, rejected), 0, 1);
    es := ArmThenReject(c, rq, rejected, 1, slot + delaySlots);
    RejectionStays(c, rq, rejected, es, i, 0, slot, slot, delaySlots);
  }

  lemma ArmThenReject(c: Config, rq: Requests, es: seq<Event>, id: Id, slot: int) returns (more: seq<Event>)
    requires Legal(c, rq, es) && Ready(c, rq, Run(c, rq, es), id) && rq(id).rootText !in Run(c, rq, es).rootSeen
    ensures Legal(c, rq, more) && es <= more && |es| < |more|
    ensures RejectedAt(c, rq, more, |more| - 1, id, slot, slot, c.delaySlots)
    ensures var s, t := Run(c, rq, es), Run(c, rq, more);
      OneMore(rq, s, t, id) && t.rootSeen == s.rootSeen[rq(id).rootText := slot]
  {
    var sighted := ToArming(c, rq, es, id, slot);
    more := Compare(c, rq, sighted, id, slot);
  }

  /** The comparison of a request that has just armed its root. */
  lemma Compare(c: Config, rq: Requests, es: seq<Event>, id: Id, slot: int) returns (more: seq<Event>)
    requires Legal(c, rq, es) && c.delaySlots > 0
    requires var s := Run(c, rq, es); id in s.pcs && s.pcs[id] == AwaitGate(slot, slot)
    ensures Legal(c, rq, more) && es <= more && |es| < |more|
    ensures RejectedAt(c, rq, more, |more| - 1, id, slot, slot, c.delaySlots)
    ensures var s := Run(c, rq, es);
      Run(c, rq, more) == s.(pcs := s.pcs[id := Settled], outcomes := s.outcomes[id := Delayed(0, c.delaySlots)])
  {
    more := Extend(c, rq, es, Decide(id));
    assert more[..|more|] == more && more[..|more| - 1] == es;
  }

  // ---- two spellings of one nullifier ----

  /**
   The lock is keyed by the spelling: two requests that can start can be made to run at once
   exactly when they spell their nullifiers differently, whatever the nullifiers are.
   */
  lemma TwoPipelinesIffSpelledApart(c: Config, rq: Requests, es: seq<Event>, a: Id, b: Id)
    requires Legal(c, rq, es) && a != b && Ready(c, rq, Run(c, rq, es), a) && Ready(c, rq, Run(c, rq, es), b)
    ensures rq(a).nullifier != rq(b).nullifier <==> exists more :: RunsBoth(c, rq, es, more, a, b)
  {
    if rq(a).nullifier != rq(b).nullifier {
      var more := BothStart(c, rq, es, a, b);
      assert RunsBoth(c, rq, es, more, a, b);
    } else {
      forall more | RunsBoth(c, rq, es, more, a, b)
        ensures false
      {
        OnePipelineAtATime(c, rq, more, a, b);
      }
    }
  }

  /** A continuation after which both pipelines are running. */
  ghost predicate RunsBoth(c: Config, rq: Requests, es: seq<Event>, more: seq<Event>, a: Id, b: Id) {
    es <= more && Legal(c, rq, more) && Running(Run(c, rq, more), a) && Running(Run(c, rq, more), b)
  }

  lemma BothStart(c: Config, rq: Requests, es: seq<Event>, a: Id, b: Id) returns (more: seq<Event>)
    requires Legal(c, rq, es) && a != b && Ready(c, rq, Run(c, rq, es), a) && Ready(c, rq, Run(c, rq, es), b)
    requires rq(a).nullifier != rq(b).nullifier
    ensures es <= more && Legal(c, rq, more) && Running(Run(c, rq, more), a) && Running(Run(c, rq, more), b)
  {
    var s := Run(c, rq, es);
    var s1 := Held(rq, s, a, AwaitSpent(false));
    Starts(c, rq, s, a);
    more := Reach(c, rq, es, Arrive(a), s, s1);
    Starts(c, rq, s1, b);
    more := Reach(c, rq, more, Arrive(b), s1, Held(rq, s1, b, AwaitSpent(false)));
  }

  /** Two requests with one nullifier, each with a stroke of its own kind. */
  function Doubled(id: Id): Request {
    Request("0", if id == 0 then "|" else "/", 0, 0, 0, true, [0, 1, 0, 0, 0])
  }

  lemma OneNullifierRunsTwice(delaySlots: nat) returns (es: seq<Event>)
    requires delaySlots > 0
    ensures var c, rq := Example(delaySlots), Doubled;
      && c.nullifierValue(rq(0).nullifier) == c.nullifierValue(rq(1).nullifier)
      && Legal(c, rq, es) && Running(Run(c, rq, es), 0) && Running(Run(c, rq, es), 1)
  {
    var c := Example(delaySlots);
    assert "|"[0] != "/"[0];
    es := BothStart(c, Doubled, [], 0, 1);
  }
}
