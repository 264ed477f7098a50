/**
 The relayer's withdrawal pipeline as a protocol. Code between two awaits is one step; steps of
 different requests interleave in any order, and a restart may come between any two of them. A
 restart loses everything in memory and keeps the table of first-seen roots; the chain keeps
 what landed on it.
 */
module RelayerProtocol {
  import opened Bytes
  import opened MerkleTree
  import MixerPool
  import W = WireFormats

  /** A nullifier as the request spells it. Locks and registries are keyed by the spelling, the chain by the value. */
  type Nullifier = string

  type Id = nat

  /** A root as the request spells it. The table of first-seen roots is keyed by the spelling. */
  type RootText = string

  const SLOT_DURATION_MS: int := 400

  /** The delay in whole slots, rounded up and never negative. */
  function PrivacyDelaySlots(privacyDelayMs: int): (d: nat)
    ensures d * SLOT_DURATION_MS >= privacyDelayMs
    ensures d > 0 ==> (d - 1) * SLOT_DURATION_MS < privacyDelayMs
  {
    if privacyDelayMs <= 0 then 0 else (privacyDelayMs + SLOT_DURATION_MS - 1) / SLOT_DURATION_MS
  }

  /** The default of 13 seconds is 33 slots. */
  lemma DefaultDelay()
    ensures PrivacyDelaySlots(13_000) == 33
  {
  }

  datatype RegistryKind = InMemory | OnChain

  /** What is fixed while the relayer is deployed; two of the fields read a spelling as an integer. */
  datatype Config = Config(
    hash: Hash, rootValue: RootText -> Option<int>, nullifierValue: Nullifier -> Option<int>,
    kind: RegistryKind, ours: nat, minFee: int, denomination: int,
    delaySlots: nat, gateWired: bool)

  /** A request body; the fee is None when it does not parse. */
  datatype Request = Request(
    rootText: RootText, nullifier: Nullifier, recipient: nat, relayer: nat, fee: int, feeParses: bool,
      signals: seq<int>)

  /** Which request stands behind an id. */
  type Requests = Id -> Request

  datatype Result =
    | Guarded | AlreadySpent | Mismatch | Delayed(elapsed: nat, wait: nat) | BadProof | SubmitFailed
    | Success(amount: int, fee: int)
    | Threw

  /** Where a request is suspended. */
  datatype Pc =
    | AwaitSpent(cached: bool)
    | AwaitParity
    | AwaitSlot
    | AwaitRow(slot: int)
    | AwaitGate(seenAt: int, firstSeen: int)
    | AwaitVerify
    | AwaitSubmit
    | AwaitMark
    | Settled
    | Joined(leader: Id)
    | Returned(result: Result)
    | Lost

  datatype State = State(
    pcs: map<Id, Pc>,
    inFlight: map<Nullifier, Id>,
    known: set<Nullifier>,
    pending: int,
    total: int,
    rootSeen: map<RootText, int>,
    chain: set<int>,
    // history: how promises settled, who joined whom, who was submitted and landed, who marked and
    // succeeded since the last restart, who armed a root, who passed the gate and when
    outcomes: map<Id, Result>,
    joinedTo: map<Id, Id>,
    submitted: set<Id>,
    landed: set<Id>,
    marked: map<Nullifier, Id>,
    succeeded: set<Id>,
    armedBy: map<RootText, Id>,
    passedAt: map<Id, int>)

  const START: State := State(map[], map[], {}, 0, 0, map[], {}, map[], map[], {}, {}, map[], {}, map[], map[])

  datatype Event =
    | Arrive(id: Id)
    | SpentReply(id: Id, accountExists: bool)
    | ParityReply(id: Id)
    | SlotReply(id: Id, slot: int)
    | Observe(id: Id)
    | Decide(id: Id)
    | VerifyReply(id: Id, valid: bool)
    | Land(id: Id)
    | SubmitOk(id: Id)
    | SubmitErr(id: Id)
    | MarkDone(id: Id)
    | RpcError(id: Id)
    | Finish(id: Id)
    | JoinReturn(id: Id)
    | Probe(nullifier: Nullifier)
    | SpentElsewhere(value: int)
    | Restart

  /** The synchronous checks in front of the lock. */
  predicate PassesGuard(c: Config, q: Request) {
    q.relayer == c.ours && q.feeParses && q.fee >= c.minFee
  }

  /** The body matches what the proof's public signals bind. */
  predicate Parity(c: Config, q: Request) {
    && |q.signals| == 5
    && c.rootValue(q.rootText) == Some(q.signals[0])
    && c.nullifierValue(q.nullifier) == Some(q.signals[1])
    && q.fee == q.signals[4]
    && MixerPool.KeyField(c.hash, q.recipient) == q.signals[2]
    && MixerPool.KeyField(c.hash, q.relayer) == q.signals[3]
  }

  /**
   The relayer's comparison is the program's: a body matches exactly when the packed signals, read as
   the program reads them, carry its root, nullifier and fee and the bindings of its two keys.
   */
  lemma ParityIsWhatTheProgramChecks(c: Config, q: Request, packed: seq<Byte>)
    requires |q.signals| == 5 && |packed| == 160
    requires forall k :: 0 <= k < 5 ==> W.WordAt(packed, k) == q.signals[k]
    ensures var inputs := MixerPool.ParsePublicInputs(packed);
      Parity(c, q) <==>
        && c.rootValue(q.rootText) == Some(inputs.root) && c.nullifierValue(q.nullifier) == Some(inputs.nullifierHash)
        && MixerPool.KeyField(c.hash, q.recipient) == inputs.recipient
        && MixerPool.KeyField(c.hash, q.relayer) == inputs.relayer
        && q.fee == inputs.fee
  {
    MixerPool.PackedInputsReadBack(q.signals, packed);
  }

  /** What the public signals bind: requests with the same signals agree on everything, or exhibit a hash collision. */
  lemma ParityBinds(c: Config, p: Request, q: Request)
    requires Parity(c, p) && Parity(c, q) && p.signals == q.signals
    ensures c.rootValue(p.rootText) == c.rootValue(q.rootText)
    ensures c.nullifierValue(p.nullifier) == c.nullifierValue(q.nullifier) && p.fee == q.fee
    ensures p.recipient == q.recipient || MixerPool.HalvesCollide(c.hash, p.recipient, q.recipient)
    ensures p.relayer == q.relayer || MixerPool.HalvesCollide(c.hash, p.relayer, q.relayer)
  {
    MixerPool.KeyFieldBinds(c.hash, p.recipient, q.recipient);
    MixerPool.KeyFieldBinds(c.hash, p.relayer, q.relayer);
  }

  /** The chain has the nullifier that a spelling stands for. */
  predicate OnTheChain(c: Config, chain: set<int>, n: Nullifier) {
    c.nullifierValue(n).Some? && c.nullifierValue(n).value in chain
  }

  predicate GateArmed(c: Config) {
    c.delaySlots > 0 && c.gateWired
  }

  datatype Verdict = Pass | Wait(elapsed: nat, wait: nat)

  /** The gate's comparison; a slot before the first-seen one counts as no time elapsed. */
  function GateVerdict(delaySlots: nat, slot: int, firstSeen: int): Verdict {
    var delta := if slot - firstSeen < 0 then 0 else slot - firstSeen;
    if delta < delaySlots then Wait(delta, delaySlots - delta) else Pass
  }

  /**
   The promise in a rejection at a slot against one row, judged against the row an attempt will meet,
   be it the same or that of another spelling: every attempt from the announced slot on passes,
   exactly when the row to meet is not newer than the slot or the row of the rejection.
   */
  lemma WaitPromise(delaySlots: nat, slot: int, firstSeen: int, row: int)
    requires GateVerdict(delaySlots, slot, firstSeen).Wait?
    ensures
      var w := GateVerdict(delaySlots, slot, firstSeen).wait;
      (forall later :: later >= slot + w ==> GateVerdict(delaySlots, later, row).Pass?) <==>
        row <= slot && row <= firstSeen
  {
    var w := GateVerdict(delaySlots, slot, firstSeen).wait;
    if row > slot || row > firstSeen {
      assert GateVerdict(delaySlots, slot + w, row).Wait?;
    }
  }

  /** A step can happen now. */
  predicate Enabled(c: Config, rq: Requests, s: State, e: Event) {
    match e
    case Arrive(id) => id !in s.pcs
    case SpentReply(id, accountExists) =>
      id in s.pcs && s.pcs[id].AwaitSpent? &&
      (accountExists ==> c.kind.OnChain? && !s.pcs[id].cached && OnTheChain(c, s.chain, rq(id).nullifier))
    case ParityReply(id) => id in s.pcs && s.pcs[id].AwaitParity?
    case SlotReply(id, _) => id in s.pcs && s.pcs[id].AwaitSlot?
    case Observe(id) => id in s.pcs && s.pcs[id].AwaitRow?
    case Decide(id) => id in s.pcs && s.pcs[id].AwaitGate?
    case VerifyReply(id, _) => id in s.pcs && s.pcs[id].AwaitVerify?
    case Land(id) => id in s.submitted && id !in s.landed && c.nullifierValue(rq(id).nullifier).Some?
    case SubmitOk(id) => id in s.pcs && s.pcs[id].AwaitSubmit? && id in s.landed
    case SubmitErr(id) => id in s.pcs && s.pcs[id].AwaitSubmit?
    case MarkDone(id) => id in s.pcs && s.pcs[id].AwaitMark?
    case RpcError(id) => id in s.pcs &&
      (s.pcs[id].AwaitSpent? || s.pcs[id].AwaitSlot? || s.pcs[id].AwaitGate? || s.pcs[id].AwaitRow?)
    case Finish(id) => id in s.pcs && s.pcs[id].Settled? && id in s.outcomes
    case JoinReturn(id) => id in s.pcs && s.pcs[id].Joined? && s.pcs[id].leader in s.outcomes
    case Probe(n) => c.kind.OnChain? && OnTheChain(c, s.chain, n)
    case SpentElsewhere(_) => true
    case Restart => true
  }

  /** A step of one request, as opposed to the chain, a probe of the registry or a restart. */
  predicate OwnStep(e: Event) {
    !e.Land? && !e.Probe? && !e.SpentElsewhere? && !e.Restart?
  }

  datatype LockOp = Keep | Take | Release

  /** What one step of a request changes besides where the request is suspended. */
  datatype Move = Move(
    pc: Pc,
    lock: LockOp := Keep,
    learns: bool := false,
    marks: bool := false,
    submits: bool := false,
    succeeds: bool := false,
    pendingDelta: int := 0,
    outcome: Option<Result> := None,
    joins: Option<Id> := None,
    arms: Option<int> := None,
    passes: Option<int> := None)

  /** The pipeline's promise settles; its lock is released by a later step. */
  function Settle(r: Result): Move {
    Move(Settled, outcome := Some(r))
  }

  /** The branches of the code, step by step. */
  function MoveOf(c: Config, rq: Requests, s: State, e: Event): Move
    requires Enabled(c, rq, s, e) && OwnStep(e)
  {
    var q := rq(e.id);
    match e
    case Arrive(id) =>
      if !PassesGuard(c, q) then Move(Returned(Guarded))
      else if q.nullifier in s.inFlight then Move(Joined(s.inFlight[q.nullifier]),
        joins := Some(s.inFlight[q.nullifier]))
      else Move(AwaitSpent(q.nullifier in s.known), lock := Take)
    case SpentReply(id, accountExists) =>
      if s.pcs[id].cached then Settle(AlreadySpent)
      else if accountExists then Settle(AlreadySpent).(learns := true)
      else Move(AwaitParity)
    case ParityReply(id) =>
      if !Parity(c, q) then Settle(Mismatch)
      else Move(if GateArmed(c) then AwaitSlot else AwaitVerify)
    case SlotReply(id, slot) => Move(AwaitRow(slot))
    case Observe(id) =>
      var slot := s.pcs[id].slot;
      if q.rootText in s.rootSeen then Move(AwaitGate(slot, s.rootSeen[q.rootText]))
      else Move(AwaitGate(slot, slot), arms := Some(slot))
    case Decide(id) =>
      var slot := s.pcs[id].seenAt;
      (match GateVerdict(c.delaySlots, slot, s.pcs[id].firstSeen)
       case Wait(elapsed, wait) => Settle(Delayed(elapsed, wait))
       case Pass => Move(AwaitVerify, passes := Some(slot)))
    case VerifyReply(id, valid) =>
      if valid then Move(AwaitSubmit, pendingDelta := 1, submits := true) else Settle(BadProof)
    case SubmitOk(id) =>
      if c.kind.InMemory? && q.nullifier in s.known then Settle(Threw)
      else Move(AwaitMark, learns := true, marks := true)
    case SubmitErr(id) => Settle(SubmitFailed).(pendingDelta := -1)
    case MarkDone(id) => Settle(Success(c.denomination - q.fee, q.fee)).(pendingDelta := -1, succeeds := true)
    case RpcError(id) => Settle(Threw)
    case Finish(id) => Move(Returned(s.outcomes[id]), lock := Release)
    case JoinReturn(id) => Move(Returned(s.outcomes[s.pcs[id].leader]))
  }

  function Apply(q: Request, s: State, id: Id, m: Move): State {
    var n := q.nullifier;
    State(
      s.pcs[id := m.pc],
      match m.lock { case Keep => s.inFlight case Take => s.inFlight[n := id] case Release => s.inFlight - {n} },
      if m.learns then s.known + {n} else s.known,
      s.pending + m.pendingDelta,
      if m.succeeds then s.total + 1 else s.total,
      if m.arms.Some? then s.rootSeen[q.rootText := m.arms.value] else s.rootSeen,
      s.chain,
      if m.outcome.Some? then s.outcomes[id := m.outcome.value] else s.outcomes,
      if m.joins.Some? then s.joinedTo[id := m.joins.value] else s.joinedTo,
      if m.submits then s.submitted + {id} else s.submitted,
      s.landed,
      if m.marks then s.marked[n := id] else s.marked,
      if m.succeeds then s.succeeded + {id} else s.succeeded,
      if m.arms.Some? then s.armedBy[q.rootText := id] else s.armedBy,
      if m.passes.Some? then s.passedAt[id := m.passes.value] else s.passedAt)
  }

  /** Memory goes, and with it every request that has not been answered. */
  function AfterRestart(s: State): State {
    s.(pcs := map id | id in s.pcs :: if s.pcs[id].Returned? then s.pcs[id] else Lost,
       inFlight := map[], known := {}, pending := 0, total := 0, marked := map[], succeeded := {})
  }

  /** The state after a step. */
  function Next(c: Config, rq: Requests, s: State, e: Event): State
    requires Enabled(c, rq, s, e)
  {
    match e
    case Land(id) => s.(landed := s.landed + {id}, chain := s.chain + {c.nullifierValue(rq(id).nullifier).value})
    case Probe(n) => s.(known := s.known + {n})
    case SpentElsewhere(value) => s.(chain := s.chain + {value})
    case Restart => AfterRestart(s)
    case _ => Apply(rq(e.id), s, e.id, MoveOf(c, rq, s, e))
  }

  /** A run is a sequence of steps, each possible where it stands. */
  predicate Legal(c: Config, rq: Requests, es: seq<Event>)
    decreases |es|, 0
  {
    |es| == 0 ||
    (var before := es[..|es| - 1];
     Legal(c, rq, before) && Enabled(c, rq, Run(c, rq, before), es[|es| - 1]))
  }

  function Run(c: Config, rq: Requests, es: seq<Event>): State
    requires Legal(c, rq, es)
    decreases |es|, 1
  {
    if |es| == 0 then START else Next(c, rq, Run(c, rq, es[..|es| - 1]), es[|es| - 1])
  }
}
