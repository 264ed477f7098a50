/** Marks, successes and counters: what the relayer believes it spent, and how many are under way. */
module RelayerBooks {
  import opened Bytes
  import opened RelayerProtocol
  import opened RelayerLock

  /** A pipeline that found its nullifier unspent and has not marked it yet. */
  predicate BeforeMark(pc: Pc) {
    match pc
    case AwaitSpent(cached) => !cached
    case AwaitParity | AwaitSlot | AwaitRow(_) | AwaitGate(_, _) | AwaitVerify | AwaitSubmit => true
    case _ => false
  }

  ghost predicate Books(c: Config, rq: Requests, s: State) {
    && (forall id {:trigger s.pcs[id]} :: id in s.pcs && BeforeMark(s.pcs[id]) ==> rq(id).nullifier !in s.marked)
    && (forall id {:trigger s.pcs[id]} :: id in s.pcs && s.pcs[id].AwaitMark? ==>
          rq(id).nullifier in s.marked && s.marked[rq(id).nullifier] == id && id !in s.succeeded)
    && (forall id {:trigger id in s.succeeded} :: id in s.succeeded ==>
          rq(id).nullifier in s.marked && s.marked[rq(id).nullifier] == id)
    && (forall n {:trigger s.marked[n]} :: n in s.marked ==> rq(s.marked[n]).nullifier == n)
    && s.marked.Keys <= s.known
    && (c.kind.InMemory? ==> s.known <= s.marked.Keys)
    && (c.kind.OnChain? ==> forall n {:trigger n in s.known} :: n in s.known ==> OnTheChain(c, s.chain, n))
    && (forall id {:trigger id in s.landed} :: id in s.landed ==> OnTheChain(c, s.chain, rq(id).nullifier))
  }

  /** What each step may do to the marks. */
  predicate BooksShape(c: Config, s: State, n: Nullifier, id: Id, m: Move) {
    && (m.marks <==> m.pc.AwaitMark?)
    && (m.marks ==> id in s.pcs && s.pcs[id].AwaitSubmit? && m.learns && id in s.landed)
    && (BeforeMark(m.pc) ==> (id in s.pcs && BeforeMark(s.pcs[id])) || n !in s.known)
    && (m.learns ==> m.marks || (c.kind.OnChain? && OnTheChain(c, s.chain, n)))
    && (m.succeeds ==> id in s.pcs && s.pcs[id].AwaitMark?)
  }

  lemma MovesHaveBooksShape(c: Config, rq: Requests, s: State, e: Event)
    requires Enabled(c, rq, s, e) && OwnStep(e)
    ensures BooksShape(c, s, rq(e.id).nullifier, e.id, MoveOf(c, rq, s, e))
  {
  }

  /** Nobody else runs for the nullifier that gets its mark. */
  lemma OthersStay(c: Config, rq: Requests, s: State, id: Id, m: Move, x: Id)
    requires Locked(rq, s) && Books(c, rq, s) && BooksShape(c, s, rq(id).nullifier, id, m)
    requires m.marks && x in s.pcs && x != id && rq(x).nullifier == rq(id).nullifier
    ensures !BeforeMark(s.pcs[x]) && !s.pcs[x].AwaitMark? && x !in s.succeeded
  {
    assert Running(s, id) && !Running(s, x);
    assert BeforeMark(s.pcs[id]);
  }

  lemma MarkingKeepsBooks(c: Config, rq: Requests, s: State, id: Id, m: Move)
    requires Locked(rq, s) && Books(c, rq, s) && BooksShape(c, s, rq(id).nullifier, id, m) && m.marks
    ensures Books(c, rq, Apply(rq(id), s, id, m))
  {
    assert BeforeMark(s.pcs[id]);
    forall x | x in s.pcs && x != id && rq(x).nullifier == rq(id).nullifier
      ensures !BeforeMark(s.pcs[x]) && !s.pcs[x].AwaitMark? && x !in s.succeeded
    {
      OthersStay(c, rq, s, id, m, x);
    }
  }

  lemma OtherMovesKeepBooks(c: Config, rq: Requests, s: State, id: Id, m: Move)
    requires Books(c, rq, s) && BooksShape(c, s, rq(id).nullifier, id, m) && !m.marks
    ensures Books(c, rq, Apply(rq(id), s, id, m))
  {
  }

  lemma RestartKeepsBooks(c: Config, rq: Requests, s: State)
    requires Books(c, rq, s)
    ensures Books(c, rq, AfterRestart(s))
  {
  }

  lemma QuietKeepsBooks(c: Config, rq: Requests, s: State, e: Event)
    requires Books(c, rq, s) && Enabled(c, rq, s, e) && (e.Land? || e.Probe? || e.SpentElsewhere?)
    ensures Books(c, rq, Next(c, rq, s, e))
  {
  }

  lemma BooksKept(c: Config, rq: Requests, s: State, e: Event)
    requires Locked(rq, s) && Books(c, rq, s) && Enabled(c, rq, s, e)
    ensures Books(c, rq, Next(c, rq, s, e))
  {
    if e.Restart? {
      RestartKeepsBooks(c, rq, s);
    } else if !OwnStep(e) {
      QuietKeepsBooks(c, rq, s, e);
    } else {
      var m := MoveOf(c, rq, s, e);
      MovesHaveBooksShape(c, rq, s, e);
      if m.marks {
        MarkingKeepsBooks(c, rq, s, e.id, m);
      } else {
        OtherMovesKeepBooks(c, rq, s, e.id, m);
      }
    }
  }

  // ---- counters ----

  predicate Submitting(pc: Pc) {
    pc.AwaitSubmit? || pc.AwaitMark?
  }

  ghost function UnderSubmission(pcs: map<Id, Pc>): set<Id> {
    set id | id in pcs && Submitting(pcs[id])
  }

  ghost function BeingMarked(pcs: map<Id, Pc>): set<Id> {
    set id | id in pcs && pcs[id].AwaitMark?
  }

  function Bit(b: bool): int {
    if b then 1 else 0
  }

  lemma UnderSubmissionMoves(pcs: map<Id, Pc>, id: Id, pc: Pc)
    ensures |UnderSubmission(pcs[id := pc])|
         == |UnderSubmission(pcs)| + Bit(Submitting(pc)) - Bit(id in pcs && Submitting(pcs[id]))
  {
    var u := UnderSubmission(pcs);
    assert UnderSubmission(pcs[id := pc]) == if Submitting(pc) then u + {id} else u - {id};
  }

  lemma BeingMarkedMoves(pcs: map<Id, Pc>, id: Id, pc: Pc)
    ensures |BeingMarked(pcs[id := pc])|
         == |BeingMarked(pcs)| + Bit(pc.AwaitMark?) - Bit(id in pcs && pcs[id].AwaitMark?)
  {
    var u := BeingMarked(pcs);
    assert BeingMarked(pcs[id := pc]) == if pc.AwaitMark? then u + {id} else u - {id};
  }

  lemma NewMark(marked: map<Nullifier, Id>, n: Nullifier, id: Id)
    requires n !in marked
    ensures |marked[n := id]| == |marked| + 1
  {
    assert marked[n := id].Keys == marked.Keys + {n};
  }

  /** The counters count what they are named after. */
  ghost predicate Counted(s: State) {
    && s.pending == |UnderSubmission(s.pcs)|
    && s.total == |s.succeeded|
    && |s.marked| == s.total + |BeingMarked(s.pcs)|
  }

  /** Each step moves the counters along with the request. */
  predicate CountShape(s: State, id: Id, m: Move) {
    var was := id in s.pcs && Submitting(s.pcs[id]);
    var wasMarking := id in s.pcs && s.pcs[id].AwaitMark?;
    && m.pendingDelta == Bit(Submitting(m.pc)) - Bit(was)
    && (m.succeeds <==> wasMarking)
    && (m.marks <==> m.pc.AwaitMark?)
    && (m.marks ==> !wasMarking)
  }

  /** The throw of a second mark cannot happen, so no step leaves a counter behind. */
  lemma MovesHaveCountShape(c: Config, rq: Requests, s: State, e: Event)
    requires Enabled(c, rq, s, e) && OwnStep(e) && Books(c, rq, s)
    ensures CountShape(s, e.id, MoveOf(c, rq, s, e))
    ensures e.SubmitOk? ==> MoveOf(c, rq, s, e).marks
  {
    if e.SubmitOk? {
      assert BeforeMark(s.pcs[e.id]);
    }
  }

  lemma ApplyKeepsCounted(rq: Requests, s: State, id: Id, m: Move)
    requires Counted(s) && CountShape(s, id, m)
    requires m.marks ==> rq(id).nullifier !in s.marked
    requires m.succeeds ==> id !in s.succeeded
    ensures Counted(Apply(rq(id), s, id, m))
  {
    UnderSubmissionMoves(s.pcs, id, m.pc);
    BeingMarkedMoves(s.pcs, id, m.pc);
    if m.marks {
      NewMark(s.marked, rq(id).nullifier, id);
    }
  }

  /** Chain, probes and restarts: nothing moves, or everything in memory goes. */
  lemma QuietKeepsCounted(c: Config, rq: Requests, s: State, e: Event)
    requires Counted(s) && Enabled(c, rq, s, e) && !OwnStep(e)
    ensures Counted(Next(c, rq, s, e))
  {
    if e.Restart? {
      assert UnderSubmission(AfterRestart(s).pcs) == {} && BeingMarked(AfterRestart(s).pcs) == {};
    }
  }

  /** A first mark and a first success: what the counters rest on. */
  lemma FirstOfEach(c: Config, rq: Requests, s: State, e: Event)
    requires Books(c, rq, s) && Enabled(c, rq, s, e) && OwnStep(e)
    ensures var m := MoveOf(c, rq, s, e);
      (m.marks ==> rq(e.id).nullifier !in s.marked) && (m.succeeds ==> e.id !in s.succeeded)
  {
    MovesHaveBooksShape(c, rq, s, e);
    if MoveOf(c, rq, s, e).marks {
      assert BeforeMark(s.pcs[e.id]);
    }
  }

  lemma CountedKept(c: Config, rq: Requests, s: State, e: Event)
    requires Books(c, rq, s) && Counted(s) && Enabled(c, rq, s, e)
    ensures Counted(Next(c, rq, s, e))
  {
    if !OwnStep(e) {
      QuietKeepsCounted(c, rq, s, e);
    } else {
      MovesHaveCountShape(c, rq, s, e);
      FirstOfEach(c, rq, s, e);
      ApplyKeepsCounted(rq, s, e.id, MoveOf(c, rq, s, e));
    }
  }
}
