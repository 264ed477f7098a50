/**
 One position under concurrency. Execute, claim and withdraw of the position are serialised, and
 the indexer's reconcile is one step; everything else interleaves at every await: status reads and
 recovery-worker visits act on what they read earlier, an operation can be cut off at any await,
 and the two indexer writes that are not awaited land at any later time in either order.
 */
module PositionLifecycle {
  import opened ExecutionStates

  datatype Kind = Execute | Claim | Withdraw

  type Id = nat

  /** The operation in progress and the await it is at. */
  datatype Op =
    | Idle
    | ReadSession(kind: Kind)
    | WriteRow(kind: Kind, to: ExecutionState)
    | WriteSession(kind: Kind, to: ExecutionState)
    | After(kind: Kind, to: ExecutionState)
    | FailRow
    | FailSession

  /** A status read or a worker visit, with what it has seen so far. */
  datatype Visit =
    | RowRead(row0: ExecutionState)
    | BothRead(row0: ExecutionState, session0: ExecutionState)
    | Scanned(seen: ExecutionState)
    | Writing(to: ExecutionState, rowDone: bool)

  /** The reconciliation record of the position. */
  datatype Record = Absent | Blank | Signed

  datatype Life = Life(
    row: ExecutionState,
    session: ExecutionState,
    record: Record,
    floating: multiset<Record>,
    op: Op,
    visits: map<Id, Visit>,
    // history: the session's states, whether the signature was taken, whether it became active
    hist: seq<ExecutionState>,
    consumed: bool,
    activated: bool)

  const CREATED: Life :=
    Life(Draft, AwaitingSignature, Absent, multiset{}, Idle, map[], [AwaitingSignature], false, false)

  datatype Event =
    | Start(kind: Kind)
    | CheckSession
    | RowWritten
    | SessionWritten
    | Proceed(ok: bool)
    | Abort
    | FloatLands(r: Record)
    | ReadRow(id: Id)
    | ReadBoth(id: Id)
    | Scan(id: Id, seen: ExecutionState)
    | Reconcile(id: Id)
    | VenueVerdict(id: Id, confirmed: bool)
    | VisitRow(id: Id)
    | VisitSession(id: Id)
    | Drop(id: Id)

  predicate Enabled(l: Life, e: Event) {
    match e
    case Start(_) => l.op.Idle?
    case CheckSession => l.op.ReadSession?
    case RowWritten => l.op.WriteRow? || l.op.FailRow?
    case SessionWritten => l.op.WriteSession? || l.op.FailSession?
    case Proceed(_) => l.op.After?
    case Abort => true
    case FloatLands(r) => r in l.floating
    case ReadRow(id) => id !in l.visits
    case ReadBoth(id) => id in l.visits && l.visits[id].RowRead?
    case Scan(id, seen) => id !in l.visits && l.row == seen && (seen.ExecutingOnMeteora? || seen.Indexing?)
    case Reconcile(id) => id in l.visits &&
      ((l.visits[id].BothRead? && l.visits[id].session0.Indexing?) ||
        (l.visits[id].Scanned? && l.visits[id].seen.Indexing?))
    case VenueVerdict(id, _) => id in l.visits && l.visits[id].Scanned? && l.visits[id].seen.ExecutingOnMeteora?
    case VisitRow(id) => id in l.visits && l.visits[id].Writing? && !l.visits[id].rowDone
    case VisitSession(id) => id in l.visits && l.visits[id].Writing? && l.visits[id].rowDone
    case Drop(id) => id in l.visits
  }

  /** Where an operation goes after a stage it wrote to the session. */
  datatype Continuation = SessionOnly(to: ExecutionState) | RowFirst(to: ExecutionState) | Finished

  function Continue(kind: Kind, at: ExecutionState): Continuation {
    match kind
    case Execute =>
      if at.FundingInProgress? then SessionOnly(ExecutingOnMeteora)
      else if at.ExecutingOnMeteora? then RowFirst(Indexing)
      else Finished
    case Claim =>
      if at.Claiming? then RowFirst(Indexing) else if at.Indexing? then RowFirst(Completed) else Finished
    case Withdraw =>
      if at.Withdrawing? then RowFirst(Closing) else if at.Closing? then RowFirst(Indexing)
      else if at.Indexing? then RowFirst(Completed) else Finished
  }

  /** The stages during which an adapter is called, which may fail. */
  predicate CallsAdapter(at: ExecutionState) {
    at.FundingInProgress? || at.ExecutingOnMeteora? || at.Claiming? || at.Withdrawing?
  }

  function Entry(kind: Kind): ExecutionState {
    match kind case Execute => FundingInProgress case Claim => Claiming case Withdraw => Withdrawing
  }

  /** The checks after both rows have been read. */
  function Checked(kind: Kind, session: ExecutionState): Op {
    if !CanTransition(session, Entry(kind)) || (!kind.Execute? && !session.Active?) then Idle
    else if kind.Execute? then WriteSession(Execute, FundingInProgress)
    else WriteRow(kind, Entry(kind))
  }

  /** The session row is written; a state it holds already would be a write of the same state. */
  function SetSession(l: Life, to: ExecutionState): Life {
    l.(session := to, hist := l.hist + [to], activated := l.activated || to.Active?)
  }

  /** The branches of the code, await by await. */
  function Next(l: Life, e: Event): Life
    requires Enabled(l, e)
  {
    match e
    case Start(kind) => l.(op := if kind.Execute? || l.row.Active? then ReadSession(kind) else Idle)
    case CheckSession => l.(op := Checked(l.op.kind, l.session))
    case RowWritten =>
      if l.op.FailRow? then l.(row := Failed, op := FailSession)
      else l.(row := l.op.to, op := WriteSession(l.op.kind, l.op.to))
    case SessionWritten =>
      if l.op.FailSession? then SetSession(l, Failed).(op := Idle)
      else SetSession(l, l.op.to).(op := After(l.op.kind, l.op.to))
    case Proceed(ok) => AfterStage(l, l.op.kind, l.op.to, ok)
    case Abort => l.(op := Idle)
    case FloatLands(r) => l.(record := r, floating := l.floating - multiset{r})
    case ReadRow(id) => l.(visits := l.visits[id := RowRead(l.row)])
    case ReadBoth(id) => l.(visits := l.visits[id := BothRead(l.visits[id].row0, l.session)])
    case Scan(id, seen) => l.(visits := l.visits[id := Scanned(seen)])
    case Reconcile(id) =>
      if !l.record.Signed? then l.(visits := l.visits - {id})
      else
        var taken := l.(record := Absent, consumed := true);
        if l.visits[id].Scanned? || !l.visits[id].row0.Active?
        then taken.(visits := l.visits[id := Writing(Active, false)])
        else taken.(visits := l.visits - {id})
    case VenueVerdict(id, confirmed) =>
      l.(visits := l.visits[id := Writing(if confirmed then Indexing else Failed, false)])
    case VisitRow(id) => l.(row := l.visits[id].to, visits := l.visits[id := Writing(l.visits[id].to, true)])
    case VisitSession(id) => SetSession(l, l.visits[id].to).(visits := l.visits - {id})
    case Drop(id) => l.(visits := l.visits - {id})
  }

  function AfterStage(l: Life, kind: Kind, at: ExecutionState, ok: bool): Life {
    if CallsAdapter(at) && !ok then l.(op := FailRow)
    else
      match Continue(kind, at)
      case Finished => l.(op := Idle, floating := if kind.Execute? then l.floating + multiset{Signed} else l.floating)
      case SessionOnly(to) => l.(op := if CanTransition(at, to) then WriteSession(kind, to) else Idle)
      case RowFirst(to) =>
        if !CanTransition(at, to) then l.(op := Idle)
        else
          l.(op := WriteRow(kind, to),
             floating := if kind.Execute? then l.floating + multiset{Blank} else l.floating)
  }

  /** A run is a sequence of steps, each possible where it stands. */
  predicate Legal(l: Life, es: seq<Event>)
    decreases |es|
  {
    |es| == 0 || (Enabled(l, es[0]) && Legal(Next(l, es[0]), es[1..]))
  }

  function Run(l: Life, es: seq<Event>): Life
    requires Legal(l, es)
    decreases |es|
  {
    if |es| == 0 then l else Run(Next(l, es[0]), es[1..])
  }

  // ---- the invariant ----

  predicate SignedSomewhere(l: Life) {
    l.record.Signed? || Signed in l.floating
  }

  /** Where the session must stand for the operation's next session write. */
  predicate Precedes(kind: Kind, from: ExecutionState, to: ExecutionState) {
    match kind
    case Execute =>
      (from, to) in {(AwaitingSignature, FundingInProgress), (FundingInProgress, ExecutingOnMeteora),
        (ExecutingOnMeteora, Indexing)}
    case Claim => (from, to) in {(Active, Claiming), (Claiming, Indexing), (Indexing, Completed)}
    case Withdraw => (from, to) in {(Active, Withdrawing), (Withdrawing, Closing), (Closing, Indexing),
      (Indexing, Completed)}
  }

  predicate InPath(kind: Kind, at: ExecutionState) {
    match kind
    case Execute => at in {FundingInProgress, ExecutingOnMeteora, Indexing}
    case Claim => at in {Claiming, Indexing, Completed}
    case Withdraw => at in {Withdrawing, Closing, Indexing, Completed}
  }

  predicate OpFits(l: Life) {
    match l.op
    case Idle => true
    case ReadSession(kind) => !kind.Execute? ==> l.consumed
    case WriteRow(kind, to) => Precedes(kind, l.session, to) && (kind.Execute? <==> !l.activated) &&
      (kind.Execute? ==> to.Indexing?)
    case WriteSession(kind, to) =>
      && Precedes(kind, l.session, to) && (kind.Execute? <==> !l.activated)
      && (kind.Execute? && to.Indexing? ==> l.row.Indexing?)
    case After(kind, at) =>
      && l.session == at && InPath(kind, at) && (kind.Execute? <==> !l.activated)
      && (kind.Execute? && at.Indexing? ==> l.row.Indexing? && !l.consumed && !SignedSomewhere(l))
    case FailRow | FailSession => CallsAdapter(l.session)
  }

  /** The execution has been handed to the indexer and nothing has been activated yet. */
  predicate Handed(l: Life) {
    l.session.Indexing? && !l.activated && (l.op.Idle? || l.op.ReadSession?)
  }

  predicate VisitFits(l: Life, v: Visit) {
    match v
    case RowRead(row0) => row0.Active? ==> l.consumed
    case BothRead(row0, _) => row0.Active? ==> l.consumed
    case Scanned(seen) => seen.Indexing?
    case Writing(to, rowDone) =>
      to.Active? && l.consumed && Handed(l) && (if rowDone then l.row.Active? else l.row.Indexing?)
  }

  /** How many changes lead to a session state, at most. */
  function Rank(s: ExecutionState, activated: bool): nat {
    match s
    case Draft | AwaitingSignature => 0
    case FundingInProgress => 1
    case ExecutingOnMeteora => 2
    case Indexing => if activated then 7 else 3
    case Active => 4
    case Claiming | Withdrawing => 5
    case Closing | Failed => 6
    case Completed => 8
  }

  predicate Early(s: ExecutionState) {
    s in {AwaitingSignature, FundingInProgress, ExecutingOnMeteora}
  }

  ghost predicate HistoryFits(l: Life) {
    && |l.hist| > 0 && l.hist[|l.hist| - 1] == l.session
    && FollowsTable(l.hist)
    && |l.hist| - 1 <= Rank(l.session, l.activated)
    && (!l.activated && !l.session.Failed? ==> |l.hist| - 1 == Rank(l.session, false))
    && (forall i {:trigger l.hist[i]} :: 0 <= i < |l.hist| && l.hist[i].Active? ==> i == 4)
    && (l.activated <==> |l.hist| > 4)
  }

  /** The one-shot token: once taken it never comes back, and until then both rows wait in indexing. */
  predicate TokenFits(l: Life) {
    && (SignedSomewhere(l) ==> !l.consumed && Handed(l) && l.row.Indexing?)
    && l.floating[Signed] <= 1 && (l.record.Signed? ==> Signed !in l.floating)
    && (l.activated || l.row.Active? ==> l.consumed)
    && (l.consumed ==> l.activated || Handed(l))
  }

  predicate RowsFit(l: Life) {
    && !l.row.ExecutingOnMeteora?
    && !l.session.Draft?
    && (Early(l.session) ==> !l.activated)
    && (l.session in {Active, Claiming, Withdrawing, Closing, Completed} ==> l.activated)
    && (l.consumed && !l.activated ==> l.row.Indexing? || l.row.Active?)
  }

  ghost predicate OneWriter(l: Life) {
    forall i, j {:trigger l.visits[i], l.visits[j]} ::
      i in l.visits && j in l.visits && l.visits[i].Writing? && l.visits[j].Writing? ==> i == j
  }

  ghost predicate VisitsFit(l: Life) {
    forall id {:trigger l.visits[id]} :: id in l.visits ==> VisitFits(l, l.visits[id])
  }

  ghost predicate Inv(l: Life) {
    HistoryFits(l) && RowsFit(l) && TokenFits(l) && OpFits(l) && OneWriter(l) && VisitsFit(l)
  }

  /** A legal write to the session of an operation: the rank rises, and nothing becomes active. */
  predicate RankRises(l: Life, to: ExecutionState) {
    && CanTransition(l.session, to) && !to.Active?
    && !l.session.Failed?
    && (if !l.activated && !to.Failed? then Rank(to, false) == Rank(l.session, false) + 1
        else Rank(l.session, l.activated) < Rank(to, l.activated))
    && (!l.activated ==> Rank(l.session, false) < 3)
  }

  lemma WriteKeepsHistory(l: Life, to: ExecutionState)
    requires HistoryFits(l) && RankRises(l, to)
    ensures HistoryFits(SetSession(l, to))
  {
  }

  lemma OpRankRises(l: Life)
    requires Inv(l) && (l.op.WriteSession? || l.op.FailSession?)
    ensures RankRises(l, if l.op.FailSession? then Failed else l.op.to)
  {
  }

  /** A session write of an operation comes when no visit is about to write. */
  lemma NoWriters(l: Life)
    requires Inv(l) && !l.op.Idle? && !l.op.ReadSession?
    ensures forall id {:trigger l.visits[id]} :: id in l.visits ==> !l.visits[id].Writing?
  {
  }

  /** Visits that have only read so far keep fitting while nothing is taken back. */
  lemma ReadersCarry(l: Life, l': Life)
    requires VisitsFit(l) && l'.visits == l.visits && (l.consumed ==> l'.consumed)
    requires forall id {:trigger l.visits[id]} :: id in l.visits ==> !l.visits[id].Writing?
    ensures VisitsFit(l') && OneWriter(l')
  {
    forall id | id in l'.visits
      ensures VisitFits(l', l'.visits[id])
    {
      assert VisitFits(l, l.visits[id]);
    }
  }

  lemma SessionWrittenFits(l: Life)
    requires Inv(l) && Enabled(l, SessionWritten)
    ensures var l' := Next(l, SessionWritten); RowsFit(l') && TokenFits(l') && OpFits(l')
  {
  }

  lemma SessionWrittenKeeps(l: Life)
    requires Inv(l) && Enabled(l, SessionWritten)
    ensures Inv(Next(l, SessionWritten))
  {
    var l' := Next(l, SessionWritten);
    SessionWrittenFits(l);
    OpRankRises(l);
    WriteKeepsHistory(l, if l.op.FailSession? then Failed else l.op.to);
    assert HistoryFits(l');
    NoWriters(l);
    ReadersCarry(l, l');
  }

  lemma ProceedFits(l: Life, ok: bool)
    requires Inv(l) && Enabled(l, Proceed(ok))
    ensures var l' := Next(l, Proceed(ok)); OpFits(l') && TokenFits(l')
  {
    NoWriters(l);
  }

  /** Between two stages only the operation and the floating writes move. */
  lemma ProceedMovesOnlyTheOp(l: Life, ok: bool)
    requires Enabled(l, Proceed(ok))
    ensures var l' := Next(l, Proceed(ok)); l' == l.(op := l'.op, floating := l'.floating)
  {
  }

  lemma ProceedKeeps(l: Life, ok: bool)
    requires Inv(l) && Enabled(l, Proceed(ok))
    ensures Inv(Next(l, Proceed(ok)))
  {
    var l' := Next(l, Proceed(ok));
    ProceedMovesOnlyTheOp(l, ok);
    ProceedFits(l, ok);
    NoWriters(l);
    ReadersCarry(l, l');
  }

  lemma StartKeeps(l: Life, e: Event)
    requires Inv(l) && Enabled(l, e) && (e.Start? || e.CheckSession? || e.Abort?)
    ensures Inv(Next(l, e))
  {
  }

  lemma RowWrittenTouches(l: Life)
    requires Enabled(l, RowWritten)
    ensures var l' := Next(l, RowWritten); l' == l.(row := l'.row, op := l'.op)
  {
  }

  lemma RowWrittenFits(l: Life)
    requires Inv(l) && Enabled(l, RowWritten)
    ensures var l' := Next(l, RowWritten); HistoryFits(l') && RowsFit(l') && TokenFits(l') && OpFits(l')
  {
    RowWrittenTouches(l);
    assert HistoryFits(Next(l, RowWritten));
  }

  lemma RowWrittenKeeps(l: Life)
    requires Inv(l) && Enabled(l, RowWritten)
    ensures Inv(Next(l, RowWritten))
  {
    var l' := Next(l, RowWritten);
    RowWrittenFits(l);
    RowWrittenTouches(l);
    NoWriters(l);
    ReadersCarry(l, l');
  }

  lemma FloatLandsKeeps(l: Life, r: Record)
    requires Inv(l) && Enabled(l, FloatLands(r))
    ensures Inv(Next(l, FloatLands(r)))
  {
  }

  lemma ReadsKeep(l: Life, e: Event)
    requires Inv(l) && Enabled(l, e) && (e.ReadRow? || e.ReadBoth?)
    ensures Inv(Next(l, e))
  {
  }

  lemma ScansKeep(l: Life, e: Event)
    requires Inv(l) && Enabled(l, e) && (e.Scan? || e.Drop?)
    ensures Inv(Next(l, e))
  {
  }

  /** Taking the signature touches the record and the visits, and nothing else. */
  lemma ReconcileTouches(l: Life, id: Id)
    requires Enabled(l, Reconcile(id))
    ensures var l' := Next(l, Reconcile(id));
      l' == l.(record := l'.record, consumed := l'.consumed, visits := l'.visits)
    ensures var l' := Next(l, Reconcile(id));
      if l.record.Signed? then l'.record.Absent? && l'.consumed
      else l'.record == l.record && l'.consumed == l.consumed
  {
  }

  lemma ReconcileFits(l: Life, id: Id)
    requires Inv(l) && Enabled(l, Reconcile(id))
    ensures var l' := Next(l, Reconcile(id)); HistoryFits(l') && RowsFit(l') && TokenFits(l') && OpFits(l')
  {
    ReconcileTouches(l, id);
    var l' := Next(l, Reconcile(id));
    assert HistoryFits(l');
  }

  /** A signature is taken while nobody is about to write, so the visit that takes it writes alone. */
  lemma TakenOnce(l: Life, id: Id)
    requires Inv(l) && id in l.visits && (l.record.Signed? ==> !l.visits[id].Writing?)
    ensures l.record.Signed? ==> forall x {:trigger l.visits[x]} :: x in l.visits ==> !l.visits[x].Writing?
  {
    forall x | x in l.visits && l.record.Signed?
      ensures !l.visits[x].Writing?
    {
      assert VisitFits(l, l.visits[x]);
    }
  }

  lemma ReconcileKeeps(l: Life, id: Id)
    requires Inv(l) && Enabled(l, Reconcile(id))
    ensures Inv(Next(l, Reconcile(id)))
  {
    var l' := Next(l, Reconcile(id));
    ReconcileFits(l, id);
    TakenOnce(l, id);
    forall x | x in l'.visits
      ensures VisitFits(l', l'.visits[x])
    {
      assert VisitFits(l, l.visits[x]);
    }
  }

  lemma VisitRowKeeps(l: Life, id: Id)
    requires Inv(l) && Enabled(l, VisitRow(id))
    ensures Inv(Next(l, VisitRow(id)))
  {
  }

  lemma VisitSessionKeeps(l: Life, id: Id)
    requires Inv(l) && Enabled(l, VisitSession(id))
    ensures Inv(Next(l, VisitSession(id)))
  {
  }

  lemma InvKept(l: Life, e: Event)
    requires Inv(l) && Enabled(l, e)
    ensures Inv(Next(l, e))
  {
    if e.SessionWritten? {
      SessionWrittenKeeps(l);
    } else if e.Proceed? {
      ProceedKeeps(l, e.ok);
    } else if e.ReadRow? || e.ReadBoth? {
      ReadsKeep(l, e);
    } else if e.Scan? || e.Drop? {
      ScansKeep(l, e);
    } else if e.Reconcile? {
      ReconcileKeeps(l, e.id);
    } else if e.VisitRow? {
      VisitRowKeeps(l, e.id);
    } else if e.VisitSession? {
      VisitSessionKeeps(l, e.id);
    } else if e.RowWritten? {
      RowWrittenKeeps(l);
    } else if e.FloatLands? {
      FloatLandsKeeps(l, e.r);
    } else if !e.VenueVerdict? {
      StartKeeps(l, e);
    }
  }

  lemma {:induction false} RunInv(l: Life, es: seq<Event>)
    requires Inv(l) && Legal(l, es)
    ensures Inv(Run(l, es))
    decreases |es|
  {
    if |es| == 0 {
    } else {
      InvKept(l, es[0]);
      RunInv(Next(l, es[0]), es[1..]);
    }
  }

  // ---- what every run keeps ----

  /**
   Whatever interleaves, every session write follows the table, including those no check guards;
   the position becomes active at most once, and there are at most eight changes in all.
   */
  lemma SessionFollowsTable(es: seq<Event>)
    requires Legal(CREATED, es)
    ensures var l := Run(CREATED, es);
      && FollowsTable(l.hist) && 0 < |l.hist| <= 9 && l.hist[|l.hist| - 1] == l.session
      && forall i, j :: 0 <= i < |l.hist| && 0 <= j < |l.hist| && l.hist[i].Active? && l.hist[j].Active? ==> i == j
  {
    RunInv(CREATED, es);
  }

  /**
   Step by step: after any run, a step leaves the session alone or writes one of the table's edges, and is
   recorded.
   */
  lemma EveryWriteIsAnEdge(es: seq<Event>, e: Event)
    requires Legal(CREATED, es) && Enabled(Run(CREATED, es), e)
    ensures var l, l' := Run(CREATED, es), Next(Run(CREATED, es), e);
      if l'.hist == l.hist then l'.session == l.session
      else l'.hist == l.hist + [l'.session] && CanTransition(l.session, l'.session)
  {
    RunInv(CREATED, es);
    var l := Run(CREATED, es);
    InvKept(l, e);
    HistoryRecords(l, e);
    LastEdge(l.hist, Next(l, e).hist);
  }

  lemma LastEdge(hist: seq<ExecutionState>, more: seq<ExecutionState>)
    requires |hist| > 0 && FollowsTable(more) && |more| > 0
    requires more == hist || more == hist + [more[|more| - 1]]
    ensures more != hist ==> CanTransition(hist[|hist| - 1], more[|more| - 1])
  {
    if more != hist {
      assert more[|hist| - 1] == hist[|hist| - 1];
      assert CanTransition(more[|hist| - 1], more[|hist|]);
    }
  }

  lemma HistoryRecords(l: Life, e: Event)
    requires Enabled(l, e)
    ensures var l' := Next(l, e);
      (l'.hist == l.hist && l'.session == l.session) || l'.hist == l.hist + [l'.session]
  {
  }

  /**
   A signature waits only while both rows are in the indexing phase of adding liquidity. So the
   indexing phase of a claim or a withdrawal is never turned back to active by a read or a visit.
   */
  lemma SignatureMeansFirstIndexing(es: seq<Event>)
    requires Legal(CREATED, es)
    ensures var l := Run(CREATED, es);
      && (l.record.Signed? ==> l.row.Indexing? && l.session.Indexing? && Active !in l.hist)
      && (Active in l.hist ==>
           !l.record.Signed? && forall id {:trigger l.visits[id]} :: id in l.visits ==> !l.visits[id].Writing?)
  {
    RunInv(CREATED, es);
    var l := Run(CREATED, es);
    if l.activated {
      assert forall id {:trigger l.visits[id]} :: id in l.visits ==> VisitFits(l, l.visits[id]);
    }
  }

  /** Position rows skip the executing state, so the worker's first scan never finds anything. */
  lemma FirstScanIsEmpty(es: seq<Event>, id: Id)
    requires Legal(CREATED, es)
    ensures Run(CREATED, es).row != ExecutingOnMeteora
    ensures !Enabled(Run(CREATED, es), Scan(id, ExecutingOnMeteora))
  {
    RunInv(CREATED, es);
  }

  // ---- a lost signature ----

  /** Some visit has taken the signature and still has rows to write. */
  ghost predicate TakenByVisit(l: Life) {
    exists id :: id in l.visits && l.visits[id].Writing?
  }

  /** Handed to the indexer, but no signature is stored, on its way, or held by a visit. */
  ghost predicate Stranded(l: Life) {
    && Handed(l) && !l.row.ExecutingOnMeteora? && !SignedSomewhere(l)
    && forall id {:trigger l.visits[id]} :: id in l.visits ==>
         !l.visits[id].Writing? && !(l.visits[id].Scanned? && l.visits[id].seen.ExecutingOnMeteora?)
  }

  lemma StrandedStays(l: Life, e: Event)
    requires Stranded(l) && Enabled(l, e)
    ensures Stranded(Next(l, e))
  {
  }

  /** Once the signature is lost nothing ever moves the position again. */
  lemma {:induction false} StrandedForever(l: Life, es: seq<Event>)
    requires Stranded(l) && Legal(l, es)
    ensures Stranded(Run(l, es)) && Run(l, es).session == Indexing
    decreases |es|
  {
    if |es| == 0 {
    } else {
      StrandedStays(l, es[0]);
      StrandedForever(Next(l, es[0]), es[1..]);
    }
  }

  lemma Then(l: Life, e: Event, es: seq<Event>) returns (more: seq<Event>)
    requires Enabled(l, e) && Legal(Next(l, e), es)
    ensures Legal(l, more) && Run(l, more) == Run(Next(l, e), es)
  {
    more := [e] + es;
    assert more[1..] == es;
  }

  /** An execution past its last session write; the first write to the indexer has not landed yet. */
  const HANDING_OVER: Life :=
    Life(Indexing, Indexing, Absent, multiset{Blank}, After(Execute, Indexing), map[],
         [AwaitingSignature, FundingInProgress, ExecutingOnMeteora, Indexing], false, false)

  /** The signature has landed first, and the blank record is still to come. */
  const BLANK_TO_COME: Life := HANDING_OVER.(op := Idle, record := Signed)

  lemma BlankOverwrites() returns (es: seq<Event>)
    ensures Legal(BLANK_TO_COME, es) && Stranded(Run(BLANK_TO_COME, es))
  {
    es := Then(BLANK_TO_COME, FloatLands(Blank), []);
  }

  lemma SecondWriteFirst() returns (es: seq<Event>)
    ensures Legal(HANDING_OVER, es) && Stranded(Run(HANDING_OVER, es))
  {
    var l1 := HANDING_OVER.(op := Idle, floating := multiset{Blank, Signed});
    assert multiset{Blank, Signed} - multiset{Signed} == multiset{Blank};
    es := BlankOverwrites();
    assert Next(l1, FloatLands(Signed)) == BLANK_TO_COME;
    es := Then(l1, FloatLands(Signed), es);
    assert Next(HANDING_OVER, Proceed(true)) == l1;
    es := Then(HANDING_OVER, Proceed(true), es);
  }

  lemma ExecuteHandsOver(es: seq<Event>) returns (more: seq<Event>)
    requires Legal(HANDING_OVER, es)
    ensures Legal(CREATED, more) && Run(CREATED, more) == Run(HANDING_OVER, es)
  {
    var funded := Life(Draft, FundingInProgress, Absent, multiset{}, After(Execute, FundingInProgress), map[],
                       [AwaitingSignature, FundingInProgress], false, false);
    var executed := Life(Draft, ExecutingOnMeteora, Absent, multiset{}, After(Execute, ExecutingOnMeteora), map[],
                         [AwaitingSignature, FundingInProgress, ExecutingOnMeteora], false, false);
    more := ThirdStage(executed, es);
    more := SecondStage(funded, executed, more);
    more := FirstStage(funded, more);
  }

  lemma FirstStage(funded: Life, es: seq<Event>) returns (more: seq<Event>)
    requires funded == CREATED.(session := FundingInProgress, op := After(Execute, FundingInProgress),
      hist := CREATED.hist + [FundingInProgress])
    requires Legal(funded, es)
    ensures Legal(CREATED, more) && Run(CREATED, more) == Run(funded, es)
  {
    var l1 := Next(CREATED, Start(Execute));
    var l2 := Next(l1, CheckSession);
    more := Then(l2, SessionWritten, es);
    more := Then(l1, CheckSession, more);
    more := Then(CREATED, Start(Execute), more);
  }

  lemma SecondStage(funded: Life, executed: Life, es: seq<Event>) returns (more: seq<Event>)
    requires funded.op == After(Execute, FundingInProgress) && Legal(executed, es)
    requires executed == funded.(session := ExecutingOnMeteora, op := After(Execute, ExecutingOnMeteora),
      hist := funded.hist + [ExecutingOnMeteora])
    ensures Legal(funded, more) && Run(funded, more) == Run(executed, es)
  {
    var l1 := Next(funded, Proceed(true));
    more := Then(l1, SessionWritten, es);
    more := Then(funded, Proceed(true), more);
  }

  lemma ThirdStage(executed: Life, es: seq<Event>) returns (more: seq<Event>)
    requires executed.op == After(Execute, ExecutingOnMeteora) && Legal(HANDING_OVER, es)
    requires HANDING_OVER == executed.(row := Indexing, session := Indexing, op := After(Execute, Indexing),
                                       floating := executed.floating + multiset{Blank},
                                         hist := executed.hist + [Indexing])
    requires !executed.activated
    ensures Legal(executed, more) && Run(executed, more) == Run(HANDING_OVER, es)
  {
    var l1 := Next(executed, Proceed(true));
    var l2 := Next(l1, RowWritten);
    more := Then(l2, SessionWritten, es);
    more := Then(l1, RowWritten, more);
    more := Then(executed, Proceed(true), more);
  }

  /** It does happen: when the two writes to the indexer land in the wrong order. */
  lemma ReorderedWritesStrand() returns (es: seq<Event>)
    ensures Legal(CREATED, es) && Stranded(Run(CREATED, es))
  {
    es := SecondWriteFirst();
    es := ExecuteHandsOver(es);
  }

  /** An execution handed over, with both its writes landed in the right order. */
  const HANDED: Life :=
    HANDING_OVER.(record := Signed, floating := multiset{}, op := Idle)

  lemma WritesLandInOrder(es: seq<Event>) returns (more: seq<Event>)
    requires Legal(HANDED, es)
    ensures Legal(HANDING_OVER, more) && Run(HANDING_OVER, more) == Run(HANDED, es)
  {
    var l1 := HANDING_OVER.(op := Idle, floating := multiset{Blank, Signed});
    var l2 := HANDING_OVER.(op := Idle, floating := multiset{Signed}, record := Blank);
    assert multiset{Blank, Signed} - multiset{Blank} == multiset{Signed};
    assert Next(l2, FloatLands(Signed)) == HANDED;
    assert Next(l1, FloatLands(Blank)) == l2;
    more := Then(l2, FloatLands(Signed), es);
    more := Then(l1, FloatLands(Blank), more);
    assert Next(HANDING_OVER, Proceed(true)) == l1;
    more := Then(HANDING_OVER, Proceed(true), more);
  }

  /**
   It also happens when a visit takes the signature and is cut off before its session write, be it
   before or after its row write.
   */
  lemma CutOffVisitStrands(afterRow: bool) returns (es: seq<Event>)
    ensures Legal(CREATED, es) && Stranded(Run(CREATED, es))
    ensures Run(CREATED, es).row == if afterRow then Active else Indexing
    ensures Run(CREATED, es).consumed && Run(CREATED, es).record.Absent?
  {
    var l1 := Next(HANDED, Scan(0, Indexing));
    var l2 := Next(l1, Reconcile(0));
    var l3 := if afterRow then Next(l2, VisitRow(0)) else l2;
    es := Then(l3, Drop(0), []);
    if afterRow {
      es := Then(l2, VisitRow(0), es);
    }
    es := Then(l1, Reconcile(0), es);
    es := Then(HANDED, Scan(0, Indexing), es);
    es := WritesLandInOrder(es);
    es := ExecuteHandsOver(es);
  }

  lemma {:induction false} Unused(ids: set<Id>) returns (id: Id)
    ensures forall x :: x in ids ==> x < id
  {
    if ids == {} {
      id := 0;
    } else {
      var x :| x in ids;
      var above := Unused(ids - {x});
      id := if x < above then above else x + 1;
      assert forall y :: y in ids ==> y == x || y in ids - {x};
    }
  }

  /** A visit that holds the signature writes its rows. */
  lemma HeldActivates(l: Life, id: Id) returns (es: seq<Event>)
    requires id in l.visits && l.visits[id].Writing? && l.visits[id].to.Active?
    ensures Legal(l, es) && Run(l, es).session.Active?
  {
    if l.visits[id].rowDone {
      es := Then(l, VisitSession(id), []);
    } else {
      var l1 := Next(l, VisitRow(id));
      es := Then(l1, VisitSession(id), []);
      es := Then(l, VisitRow(id), es);
    }
  }

  /** A stored signature is taken by a new visit, which then writes. */
  lemma StoredActivates(l: Life) returns (es: seq<Event>)
    requires l.record.Signed? && l.row.Indexing?
    ensures Legal(l, es) && Run(l, es).session.Active?
  {
    var id := Unused(l.visits.Keys);
    assert id !in l.visits.Keys;
    var l1 := Next(l, Scan(id, Indexing));
    var l2 := Next(l1, Reconcile(id));
    es := HeldActivates(l2, id);
    es := Then(l1, Reconcile(id), es);
    es := Then(l, Scan(id, Indexing), es);
  }

  /**
   A position that has been handed over and is not active yet can still become active exactly when
   its signature is stored, on its way, or held by a visit that has not finished writing.
   */
  lemma ActivatesUnlessLost(l: Life)
    requires Inv(l) && Handed(l)
    ensures SignedSomewhere(l) || TakenByVisit(l) <==> exists es :: Legal(l, es) && Run(l, es).session.Active?
  {
    if TakenByVisit(l) {
      var id :| id in l.visits && l.visits[id].Writing?;
      assert VisitFits(l, l.visits[id]);
      var es := HeldActivates(l, id);
      assert Run(l, es).session.Active?;
    } else if l.record.Signed? {
      var es := StoredActivates(l);
      assert Run(l, es).session.Active?;
    } else if Signed in l.floating {
      var es := StoredActivates(Next(l, FloatLands(Signed)));
      es := Then(l, FloatLands(Signed), es);
      assert Run(l, es).session.Active?;
    } else {
      NothingHeld(l);
      forall es | Legal(l, es)
        ensures !Run(l, es).session.Active?
      {
        StrandedForever(l, es);
      }
    }
  }

  lemma NothingHeld(l: Life)
    requires Inv(l) && Handed(l) && !SignedSomewhere(l) && !TakenByVisit(l)
    ensures Stranded(l)
  {
    forall id | id in l.visits
      ensures !l.visits[id].Writing? && !(l.visits[id].Scanned? && l.visits[id].seen.ExecutingOnMeteora?)
    {
      assert VisitFits(l, l.visits[id]);
    }
  }

  /** At rest, with both writes landed and nobody visiting: exactly when the signature is stored and not yet taken. */
  lemma AtRestActivatesIffStored(l: Life)
    requires Inv(l) && Handed(l) && l.floating == multiset{} && l.visits == map[]
    ensures l.record.Signed? <==> exists es :: Legal(l, es) && Run(l, es).session.Active?
  {
    ActivatesUnlessLost(l);
  }

  // ---- what an undisturbed operation does ----

  lemma Join(l: Life, xs: seq<Event>, ys: seq<Event>) returns (more: seq<Event>)
    requires Legal(l, xs) && Legal(Run(l, xs), ys)
    ensures Legal(l, more) && Run(l, more) == Run(Run(l, xs), ys)
    decreases |xs|
  {
    if |xs| == 0 {
      more := ys;
    } else {
      more := Join(Next(l, xs[0]), xs[1..], ys);
      more := Then(l, xs[0], more);
    }
  }

  /** The life after both its rows have been written with a state by an operation that goes on. */
  function Entered(l: Life, kind: Kind, to: ExecutionState): Life {
    l.(row := to, session := to, op := After(kind, to), hist := l.hist + [to], activated := l.activated || to.Active?)
  }

  /** A claim or withdrawal of an active position starts. */
  lemma Starts(l: Life, kind: Kind) returns (es: seq<Event>)
    requires !kind.Execute? && l.op.Idle? && l.row.Active? && l.session.Active?
    ensures Legal(l, es) && Run(l, es) == Entered(l, kind, Entry(kind))
  {
    var l1 := Next(l, Start(kind));
    var l2 := Next(l1, CheckSession);
    assert l2 == l.(op := WriteRow(kind, Entry(kind)));
    var l3 := Next(l2, RowWritten);
    es := Then(l3, SessionWritten, []);
    es := Then(l2, RowWritten, es);
    es := Then(l1, CheckSession, es);
    es := Then(l, Start(kind), es);
  }

  /** It goes on to its next stage when its adapters answer. */
  lemma GoesOn(l: Life, kind: Kind, at: ExecutionState, to: ExecutionState) returns (es: seq<Event>)
    requires !kind.Execute? && l.op == After(kind, at) && Continue(kind, at) == RowFirst(to) && CanTransition(at, to)
    ensures Legal(l, es) && Run(l, es) == Entered(l, kind, to)
  {
    var l1 := Next(l, Proceed(true));
    assert l1 == l.(op := WriteRow(kind, to));
    var l2 := Next(l1, RowWritten);
    es := Then(l2, SessionWritten, []);
    es := Then(l1, RowWritten, es);
    es := Then(l, Proceed(true), es);
  }

  lemma Ends(l: Life, kind: Kind) returns (es: seq<Event>)
    requires !kind.Execute? && l.op == After(kind, Completed)
    ensures Legal(l, es) && Run(l, es) == l.(op := Idle)
  {
    es := Then(l, Proceed(true), []);
  }

  /** A claim of an active position, its adapters answering, completes it through indexing. */
  lemma ClaimCompletes(l: Life) returns (es: seq<Event>)
    requires l.op.Idle? && l.row.Active? && l.session.Active?
    ensures Legal(l, es)
    ensures var t := Run(l, es);
      && t.row == t.session == Completed && t.op.Idle? && t.record == l.record && t.floating == l.floating
      && t.hist == l.hist + [Claiming] + [Indexing] + [Completed]
  {
    es := Starts(l, Claim);
    var l1 := Entered(l, Claim, Claiming);
    var on := GoesOn(l1, Claim, Claiming, Indexing);
    es := Join(l, es, on);
    var l2 := Entered(l1, Claim, Indexing);
    on := GoesOn(l2, Claim, Indexing, Completed);
    es := Join(l, es, on);
    on := Ends(Entered(l2, Claim, Completed), Claim);
    es := Join(l, es, on);
  }

  /** A withdrawal of an active position, its adapters answering, closes it through closing and indexing. */
  lemma WithdrawalCloses(l: Life) returns (es: seq<Event>)
    requires l.op.Idle? && l.row.Active? && l.session.Active?
    ensures Legal(l, es)
    ensures var t := Run(l, es);
      && t.row == t.session == Completed && t.op.Idle? && t.record == l.record && t.floating == l.floating
      && t.hist == l.hist + [Withdrawing] + [Closing] + [Indexing] + [Completed]
  {
    es := Starts(l, Withdraw);
    var l1 := Entered(l, Withdraw, Withdrawing);
    var on := GoesOn(l1, Withdraw, Withdrawing, Closing);
    es := Join(l, es, on);
    var l2 := Entered(l1, Withdraw, Closing);
    on := GoesOn(l2, Withdraw, Closing, Indexing);
    es := Join(l, es, on);
    var l3 := Entered(l2, Withdraw, Indexing);
    on := GoesOn(l3, Withdraw, Indexing, Completed);
    es := Join(l, es, on);
    on := Ends(Entered(l3, Withdraw, Completed), Withdraw);
    es := Join(l, es, on);
  }

  /** An adapter that fails takes both rows to failed, in whatever operation and stage. */
  lemma FailedAdapterFails(l: Life) returns (es: seq<Event>)
    requires l.op.After? && CallsAdapter(l.op.to)
    ensures Legal(l, es)
    ensures var t := Run(l, es);
      t.row == t.session == Failed && t.op.Idle? && t.hist == l.hist + [Failed] && t.record == l.record
  {
    var l1 := Next(l, Proceed(false));
    var l2 := Next(l1, RowWritten);
    es := Then(l2, SessionWritten, []);
    es := Then(l1, RowWritten, es);
    es := Then(l, Proceed(false), es);
  }

  /**
   An operation whose checks fail writes nothing: only a draft executes, only an active position is claimed or
   closed.
   */
  lemma ChecksRefuse(l: Life, kind: Kind)
    requires l.op.Idle? && Inv(l)
    requires if kind.Execute? then !l.session.AwaitingSignature? else !l.row.Active? || !l.session.Active?
    ensures var l1 := Next(l, Start(kind));
      && l1 == l.(op := l1.op)
      && (l1.op.Idle? || (Enabled(l1, CheckSession) && Next(l1, CheckSession) == l))
  {
  }

  /** The edges the operations, reads and visits take; the table has others that no run takes. */
  const USED: set<(ExecutionState, ExecutionState)> := {
    (AwaitingSignature, FundingInProgress), (FundingInProgress, ExecutingOnMeteora), (FundingInProgress, Failed),
    (ExecutingOnMeteora, Indexing), (ExecutingOnMeteora, Failed), (Indexing, Active), (Indexing, Completed),
    (Active, Claiming), (Active, Withdrawing), (Claiming, Indexing), (Claiming, Failed),
    (Withdrawing, Closing), (Withdrawing, Failed), (Closing, Indexing)}

  /** In no run is a session written along any other edge, such as from awaiting signature or closing to failed. */
  lemma OnlyUsedEdges(es: seq<Event>, e: Event)
    requires Legal(CREATED, es) && Enabled(Run(CREATED, es), e)
    ensures var l, l' := Run(CREATED, es), Next(Run(CREATED, es), e);
      l'.hist != l.hist ==> (l.session, l'.session) in USED
  {
    RunInv(CREATED, es);
    StepUsesEdge(Run(CREATED, es), e);
  }

  lemma StepUsesEdge(l: Life, e: Event)
    requires Inv(l) && Enabled(l, e)
    ensures Next(l, e).hist != l.hist ==> (l.session, Next(l, e).session) in USED
  {
    if e.VisitSession? {
      assert VisitFits(l, l.visits[e.id]);
    }
  }
}
