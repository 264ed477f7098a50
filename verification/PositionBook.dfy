/** What the stores hold about positions, and how a completed operation moves one position on. */
module PositionBook {
  import opened Bytes
  import opened ExecutionStates

  datatype Action = AddLiquidity | ClaimFees | WithdrawClose

  datatype FailureStage = PreFunding | FundingPartial | VenueSubmission | VenueConfirmation

  /** A line of the activity log; a delay notice repeats the state it is about. */
  datatype Note = Note(state: ExecutionState, delayed: bool)

  /** A position: its row, its session, its log, and whether the indexer holds a signature for it. */
  datatype Entry = Entry(
    wallet: nat, action: Action, amount: real,
    row: ExecutionState, session: ExecutionState, failureStage: Option<FailureStage>,
    log: seq<Note>, signed: bool)

  function StatesOf(log: seq<Note>): (s: seq<ExecutionState>)
    ensures |s| == |log|
  {
    seq(|log|, i requires 0 <= i < |log| => log[i].state)
  }

  function NotesOf(path: seq<ExecutionState>): (s: seq<Note>)
    ensures |s| == |path|
  {
    seq(|path|, i requires 0 <= i < |path| => Note(path[i], false))
  }

  /** A log's states with repeats removed. */
  function WithoutRepeats(s: seq<ExecutionState>): seq<ExecutionState> {
    if |s| == 0 then []
    else if |s| >= 2 && s[|s| - 1] == s[|s| - 2] then WithoutRepeats(s[..|s| - 1])
    else WithoutRepeats(s[..|s| - 1]) + [s[|s| - 1]]
  }

  lemma {:induction false} WithoutRepeatsLast(s: seq<ExecutionState>)
    requires |s| > 0
    ensures |WithoutRepeats(s)| > 0 && WithoutRepeats(s)[|WithoutRepeats(s)| - 1] == s[|s| - 1]
  {
    if |s| >= 2 && s[|s| - 1] == s[|s| - 2] {
      WithoutRepeatsLast(s[..|s| - 1]);
    }
  }

  /** States an operation passes through, each by the table from the one before. */
  predicate PathFrom(from: ExecutionState, path: seq<ExecutionState>)
    decreases |path|
  {
    |path| == 0 || (CanTransition(from, path[0]) && PathFrom(path[0], path[1..]))
  }

  lemma NoSelfTransition(s: ExecutionState)
    ensures !CanTransition(s, s)
  {
  }

  /** One more state in both. */
  lemma StateKeepsHistory(hist: seq<ExecutionState>, log: seq<Note>, next: ExecutionState)
    requires |hist| > 0 && FollowsTable(hist) && |log| > 0
    requires WithoutRepeats(StatesOf(log)) == hist && CanTransition(hist[|hist| - 1], next)
    ensures FollowsTable(hist + [next]) && WithoutRepeats(StatesOf(log + [Note(next, false)])) == hist + [next]
  {
    WithoutRepeatsLast(StatesOf(log));
    NoSelfTransition(next);
    assert StatesOf(log + [Note(next, false)])[..|log|] == StatesOf(log);
  }

  /** Appending a path to a history and to a log keeps the two in step. */
  lemma {:induction false} PathKeepsHistory(hist: seq<ExecutionState>, log: seq<Note>, path: seq<ExecutionState>)
    requires |hist| > 0 && FollowsTable(hist) && |log| > 0
    requires WithoutRepeats(StatesOf(log)) == hist && PathFrom(hist[|hist| - 1], path)
    ensures FollowsTable(hist + path) && WithoutRepeats(StatesOf(log + NotesOf(path))) == hist + path
    decreases |path|
  {
    if |path| == 0 {
      assert hist + path == hist && log + NotesOf(path) == log;
    } else {
      var hist', log' := hist + [path[0]], log + [Note(path[0], false)];
      StateKeepsHistory(hist, log, path[0]);
      PathKeepsHistory(hist', log', path[1..]);
      assert hist' + path[1..] == hist + path;
      assert log' + NotesOf(path[1..]) == log + NotesOf(path);
    }
  }

  lemma PathOf1(from: ExecutionState, a: ExecutionState)
    ensures PathFrom(from, [a]) <==> CanTransition(from, a)
  {
    assert [a][1..] == [];
  }

  lemma PathOf2(from: ExecutionState, a: ExecutionState, b: ExecutionState)
    ensures PathFrom(from, [a, b]) <==> CanTransition(from, a) && CanTransition(a, b)
  {
    assert [a, b][1..] == [b];
    PathOf1(a, b);
  }

  lemma PathOf3(from: ExecutionState, a: ExecutionState, b: ExecutionState, c: ExecutionState)
    ensures PathFrom(from, [a, b, c]) <==> CanTransition(from, a) && CanTransition(a, b) && CanTransition(b, c)
  {
    assert [a, b, c][1..] == [b, c];
    PathOf2(a, b, c);
  }

  lemma PathOf4(from: ExecutionState, a: ExecutionState, b: ExecutionState, c: ExecutionState, d: ExecutionState)
    ensures PathFrom(from, [a, b, c, d]) <==>
      CanTransition(from, a) && CanTransition(a, b) && CanTransition(b, c) && CanTransition(c, d)
  {
    assert [a, b, c, d][1..] == [b, c, d];
    PathOf3(a, b, c, d);
  }

  /** The position after an operation took its session along a path and left its row in a state. */
  function Advanced(e: Entry, path: seq<ExecutionState>, row: ExecutionState, stage: Option<FailureStage>): Entry {
    e.(row := row,
       session := if |path| == 0 then e.session else path[|path| - 1],
       failureStage := stage,
       log := e.log + NotesOf(path))
  }

  /** States in which a session rests between operations. */
  predicate Resting(s: ExecutionState) {
    s in {AwaitingSignature, Indexing, Active, Completed, Failed}
  }

  /** Between operations: row and session agree, and the log without repeats is the session's history. */
  ghost predicate Fits(maxPositionSol: real, e: Entry, hist: seq<ExecutionState>) {
    && |hist| > 0 && hist[|hist| - 1] == e.session && FollowsTable(hist)
    && |e.log| > 0 && WithoutRepeats(StatesOf(e.log)) == hist
    && Resting(e.session)
    && e.row == (if e.session.AwaitingSignature? then Draft else e.session)
    && 0.0 < e.amount <= maxPositionSol
    && StageFits(e.failureStage, hist)
  }

  /** The states at which each failure stage is recorded. */
  predicate FailsAt(stage: FailureStage, at: ExecutionState) {
    match stage
    case PreFunding => at.FundingInProgress?
    case FundingPartial => at.ExecutingOnMeteora?
    case VenueSubmission | VenueConfirmation => at.Claiming? || at.Withdrawing?
  }

  /** A failure stage is on record exactly for a failed session, and names the state it failed in. */
  predicate StageFits(stage: Option<FailureStage>, hist: seq<ExecutionState>) {
    |hist| > 0 &&
    match stage
    case None => !hist[|hist| - 1].Failed?
    case Some(s) => hist[|hist| - 1].Failed? && |hist| >= 2 && FailsAt(s, hist[|hist| - 2])
  }

  lemma AdvancedFits(
      maxPositionSol: real, e: Entry, hist: seq<ExecutionState>, path: seq<ExecutionState>,
      stage: Option<FailureStage>)
    requires Fits(maxPositionSol, e, hist) && |path| > 0 && PathFrom(e.session, path)
    requires Resting(path[|path| - 1]) && !path[|path| - 1].AwaitingSignature? && StageFits(stage, path)
    ensures Fits(maxPositionSol, Advanced(e, path, path[|path| - 1], stage), hist + path)
  {
    PathKeepsHistory(hist, e.log, path);
  }

  /** A delay notice repeats the indexing state, so it leaves the history alone. */
  lemma DelayedFits(maxPositionSol: real, e: Entry, hist: seq<ExecutionState>)
    requires Fits(maxPositionSol, e, hist)
    ensures Fits(maxPositionSol, e.(log := e.log + [Note(e.session, true)]), hist)
  {
    WithoutRepeatsLast(StatesOf(e.log));
    var log' := e.log + [Note(e.session, true)];
    assert StatesOf(log')[..|e.log|] == StatesOf(e.log);
  }

  // ---- caps ----

  function CountActive(es: seq<Entry>, wallet: nat): nat {
    if |es| == 0 then 0
    else
      var last := es[|es| - 1];
      CountActive(es[..|es| - 1], wallet) + if last.wallet == wallet && !Terminal(last.row) then 1 else 0
  }

  function SumActive(es: seq<Entry>): real {
    if |es| == 0 then 0.0
    else
      var last := es[|es| - 1];
      SumActive(es[..|es| - 1]) + if Terminal(last.row) then 0.0 else last.amount
  }

  ghost predicate WithinCaps(maxPositionsPerWallet: nat, maxGlobalTvlSol: real, es: seq<Entry>) {
    && SumActive(es) <= maxGlobalTvlSol
    && forall wallet :: CountActive(es, wallet) <= maxPositionsPerWallet
  }

  /** What no operation changes, and that a terminal position never comes back. */
  predicate SamePosition(e: Entry, e': Entry) {
    && e'.wallet == e.wallet && e'.amount == e.amount && e'.action == e.action
    && (Terminal(e.row) ==> Terminal(e'.row))
  }

  /** Because terminal states absorb, moving a position on never adds to any cap. */
  lemma {:induction false} MovingOnKeepsCaps(es: seq<Entry>, id: nat, e: Entry, wallet: nat)
    requires id < |es| && SamePosition(es[id], e) && e.amount > 0.0
    ensures CountActive(es[id := e], wallet) <= CountActive(es, wallet)
    ensures SumActive(es[id := e]) <= SumActive(es)
  {
    var n := |es| - 1;
    if id == n {
      assert es[id := e][..n] == es[..n];
    } else {
      assert es[id := e][..n] == es[..n][id := e];
      MovingOnKeepsCaps(es[..n], id, e, wallet);
    }
  }

  /** Adding one position adds it where it counts. */
  lemma CapsOfOneMore(es: seq<Entry>, e: Entry, wallet: nat)
    ensures CountActive(es + [e], wallet)
         == CountActive(es, wallet) + if e.wallet == wallet && !Terminal(e.row) then 1 else 0
    ensures SumActive(es + [e]) == SumActive(es) + if Terminal(e.row) then 0.0 else e.amount
  {
    assert (es + [e])[..|es|] == es;
  }

  /** The count is the number of the wallet's positions that are not over. */
  lemma {:induction false} CountIsCardinality(es: seq<Entry>, wallet: nat)
    ensures CountActive(es, wallet) == |ActiveOf(es, wallet)|
  {
    if |es| == 0 {
    } else {
      var n := |es| - 1;
      CountIsCardinality(es[..n], wallet);
      var counts := es[n].wallet == wallet && !Terminal(es[n].row);
      assert ActiveOf(es, wallet) == ActiveOf(es[..n], wallet) + if counts then {n} else {};
    }
  }

  ghost function ActiveOf(es: seq<Entry>, wallet: nat): set<int> {
    set i | 0 <= i < |es| && es[i].wallet == wallet && es[i].row != Completed && es[i].row != Failed
  }

  // ---- the whole book ----

  datatype Caps = Caps(maxPositionSol: real, maxGlobalTvlSol: real, maxPositionsPerWallet: nat)

  /** The stores and, beside them, the history of every session. */
  datatype Book = Book(entries: seq<Entry>, hist: seq<seq<ExecutionState>>)

  ghost predicate Consistent(caps: Caps, b: Book) {
    && |b.hist| == |b.entries|
    && (forall id {:trigger b.entries[id]} :: 0 <= id < |b.entries| ==>
         Fits(caps.maxPositionSol, b.entries[id], b.hist[id]))
    && WithinCaps(caps.maxPositionsPerWallet, caps.maxGlobalTvlSol, b.entries)
  }

  /** The book once position `id` has been taken along a path of states, and nothing else touched. */
  function Taken(
      b: Book, id: nat, path: seq<ExecutionState>, row: ExecutionState, stage: Option<FailureStage>, signed: bool): Book
    requires id < |b.entries| == |b.hist|
  {
    Book(b.entries[id := Advanced(b.entries[id], path, row, stage).(signed := signed)], b.hist[id := b.hist[id] + path])
  }

  lemma MovedWithinCaps(caps: Caps, es: seq<Entry>, id: nat, e: Entry)
    requires WithinCaps(caps.maxPositionsPerWallet, caps.maxGlobalTvlSol, es)
    requires id < |es| && SamePosition(es[id], e) && e.amount > 0.0
    ensures WithinCaps(caps.maxPositionsPerWallet, caps.maxGlobalTvlSol, es[id := e])
  {
    var es' := es[id := e];
    forall wallet
      ensures CountActive(es', wallet) <= caps.maxPositionsPerWallet
    {
      MovingOnKeepsCaps(es, id, e, wallet);
    }
    MovingOnKeepsCaps(es, id, e, 0);
  }

  /** A path of the table leads out of no terminal state. */
  lemma TerminalAbsorbs(from: ExecutionState, path: seq<ExecutionState>)
    requires |path| > 0 && PathFrom(from, path)
    ensures !Terminal(from)
  {
  }

  /** Taken to its end along a path of the table, every position still fits and the caps still hold. */
  lemma TakenConsistent(
      caps: Caps, b: Book, id: nat, path: seq<ExecutionState>, stage: Option<FailureStage>, signed: bool)
    requires Consistent(caps, b) && id < |b.entries| && |path| > 0 && PathFrom(b.entries[id].session, path)
    requires Resting(path[|path| - 1]) && !path[|path| - 1].AwaitingSignature? && StageFits(stage, path)
    ensures Consistent(caps, Taken(b, id, path, path[|path| - 1], stage, signed))
  {
    var e := Advanced(b.entries[id], path, path[|path| - 1], stage).(signed := signed);
    assert Fits(caps.maxPositionSol, e, b.hist[id] + path) by {
      AdvancedFits(caps.maxPositionSol, b.entries[id], b.hist[id], path, stage);
    }
    TerminalAbsorbs(b.entries[id].session, path);
    MovedWithinCaps(caps, b.entries, id, e);
  }

  /**
   What an operation leaves behind, field by field: one position has both its rows in a state, a
   failure stage and a signature or none; its session went along a path, which the log repeats; its
   owner, action and amount and every other position are as before.
   */
  ghost predicate Leaves(
      b: Book, b': Book, id: nat, path: seq<ExecutionState>, state: ExecutionState,
      stage: Option<FailureStage>, signed: bool)
  {
    && id < |b.entries| == |b.hist| == |b'.entries| == |b'.hist|
    && (forall x :: 0 <= x < |b.entries| && x != id ==> b'.entries[x] == b.entries[x] && b'.hist[x] == b.hist[x])
    && var e, e' := b.entries[id], b'.entries[id];
    && e'.row == state && e'.session == state && e'.failureStage == stage && e'.signed == signed
    && e'.wallet == e.wallet && e'.action == e.action && e'.amount == e.amount
    && b'.hist[id] == b.hist[id] + path && StatesOf(e'.log) == StatesOf(e.log) + path
  }

  lemma LogRepeats(log: seq<Note>, path: seq<ExecutionState>)
    ensures StatesOf(log + NotesOf(path)) == StatesOf(log) + path
  {
  }

  /** An operation taken to its end leaves exactly this behind. */
  lemma TakenLeaves(
      b: Book, id: nat, path: seq<ExecutionState>, stage: Option<FailureStage>, signed: bool)
    requires id < |b.entries| == |b.hist| && |path| > 0
    ensures Leaves(b, Taken(b, id, path, path[|path| - 1], stage, signed), id, path, path[|path| - 1], stage, signed)
  {
    LogRepeats(b.entries[id].log, path);
  }

  /** One stage further. */
  lemma TakenFurther(
      b: Book, id: nat, path: seq<ExecutionState>, next: ExecutionState,
      row: ExecutionState, stage: Option<FailureStage>, signed: bool, row': ExecutionState,
        stage': Option<FailureStage>)
    requires id < |b.entries| == |b.hist|
    ensures var t := Taken(b, id, path, row, stage, signed);
      var e := t.entries[id];
      Taken(b, id, path + [next], row', stage', signed) ==
        Book(t.entries[id := e.(row := row', session := next, failureStage := stage',
          log := e.log + [Note(next, false)])],
             t.hist[id := t.hist[id] + [next]])
  {
    assert NotesOf(path + [next]) == NotesOf(path) + [Note(next, false)];
    assert b.entries[id].log + NotesOf(path + [next]) == (b.entries[id].log + NotesOf(path)) + [Note(next, false)];
    assert b.hist[id] + (path + [next]) == b.hist[id] + path + [next];
  }

  /** Before the first stage nothing has moved. */
  lemma TakenNowhere(b: Book, id: nat)
    requires id < |b.entries| == |b.hist|
    ensures Taken(b, id, [], b.entries[id].row, b.entries[id].failureStage, b.entries[id].signed) == b
  {
    assert NotesOf([]) == [];
    assert b.entries[id].log + [] == b.entries[id].log && b.hist[id] + [] == b.hist[id];
    assert Advanced(b.entries[id], [], b.entries[id].row, b.entries[id].failureStage) == b.entries[id];
  }

  /** A position as it is created. */
  function NewDraft(wallet: nat, action: Action, amount: real): Entry {
    Entry(wallet, action, amount, Draft, AwaitingSignature, None, [Note(AwaitingSignature, false)], false)
  }

  /** A new draft fits its one-line history. */
  lemma DraftFits(maxPositionSol: real, wallet: nat, action: Action, amount: real)
    requires 0.0 < amount <= maxPositionSol
    ensures Fits(maxPositionSol, NewDraft(wallet, action, amount), [AwaitingSignature])
  {
    var log := NewDraft(wallet, action, amount).log;
    assert StatesOf(log)[..0] == [];
    assert WithoutRepeats(StatesOf(log)) == [AwaitingSignature];
  }

  /** A draft the caps allow leaves them holding. */
  lemma DraftConsistent(caps: Caps, b: Book, wallet: nat, action: Action, amount: real)
    requires Consistent(caps, b) && 0.0 < amount <= caps.maxPositionSol
    requires CountActive(b.entries, wallet) < caps.maxPositionsPerWallet &&
      SumActive(b.entries) + amount <= caps.maxGlobalTvlSol
    ensures Consistent(caps, Book(b.entries + [NewDraft(wallet, action, amount)], b.hist + [[AwaitingSignature]]))
  {
    var e := NewDraft(wallet, action, amount);
    DraftFits(caps.maxPositionSol, wallet, action, amount);
    forall w
      ensures CountActive(b.entries + [e], w) <= caps.maxPositionsPerWallet
    {
      CapsOfOneMore(b.entries, e, w);
    }
    CapsOfOneMore(b.entries, e, wallet);
  }
}
