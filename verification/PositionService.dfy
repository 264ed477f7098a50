/** The position service over its in-memory stores, one operation at a time. */
module PositionService {
  import opened Bytes
  import opened ExecutionStates
  import opened PositionBook

  datatype ServiceError =
    | WalletRequired | BetaCapExceeded | SignedMessageRequired | PositionNotFound
    | UnsupportedAction | InvalidTransition | PositionNotActive | SessionNotActive

  datatype Result<T> = Ok(value: T) | Err(error: ServiceError)

  class Service {
    const caps: Caps
    /** Positions by id, in the order they were created. */
    var entries: seq<Entry>
    /** The states each session has been in. */
    ghost var hist: seq<seq<ExecutionState>>

    ghost function Contents(): Book
      reads this
    {
      Book(entries, hist)
    }

    ghost predicate Valid()
      reads this
    {
      Consistent(caps, Contents())
    }

    constructor (caps: Caps)
      requires caps.maxGlobalTvlSol >= 0.0
      ensures Valid() && entries == [] && this.caps == caps
    {
      this.caps := caps;
      entries, hist := [], [];
    }

    // ---- the stores ----

    method UpdatePositionState(id: nat, state: ExecutionState)
      requires id < |entries|
      modifies this`entries
      ensures entries == old(entries)[id := old(entries[id]).(row := state)]
    {
      entries := entries[id := entries[id].(row := state)];
    }

    method UpdateExecutionSession(id: nat, state: ExecutionState, stage: Option<FailureStage>)
      requires id < |entries| == |hist|
      modifies this
      ensures entries == old(entries)[id := old(entries[id]).(session := state, failureStage := stage)]
      ensures hist == old(hist)[id := old(hist[id]) + [state]]
    {
      entries := entries[id := entries[id].(session := state, failureStage := stage)];
      hist := hist[id := hist[id] + [state]];
    }

    method RecordActivity(id: nat, note: Note)
      requires id < |entries|
      modifies this`entries
      ensures entries == old(entries)[id := old(entries[id]).(log := old(entries[id]).log + [note])]
    {
      entries := entries[id := entries[id].(log := entries[id].log + [note])];
    }

    method SaveSignature(id: nat, signed: bool)
      requires id < |entries|
      modifies this`entries
      ensures entries == old(entries)[id := old(entries[id]).(signed := signed)]
    {
      entries := entries[id := entries[id].(signed := signed)];
    }

    method CountActiveByWallet(wallet: nat) returns (n: nat)
      ensures n == CountActive(entries, wallet)
    {
      n := 0;
      for i := 0 to |entries|
        invariant n == CountActive(entries[..i], wallet)
      {
        assert entries[..i + 1][..i] == entries[..i];
        if entries[i].wallet == wallet && !Terminal(entries[i].row) {
          n := n + 1;
        }
      }
      assert entries[..|entries|] == entries;
    }

    method SumActiveAmountSol() returns (total: real)
      ensures total == SumActive(entries)
    {
      total := 0.0;
      for i := 0 to |entries|
        invariant total == SumActive(entries[..i])
      {
        assert entries[..i + 1][..i] == entries[..i];
        if Terminal(entries[i].row) {
          continue;
        }
        total := total + entries[i].amount;
      }
      assert entries[..|entries|] == entries;
    }

    // ---- creation ----

    method AssertBetaCaps(wallet: nat, amount: Option<real>) returns (ok: bool)
      ensures ok <==>
        && amount.Some? && 0.0 < amount.value <= caps.maxPositionSol
        && CountActive(entries, wallet) < caps.maxPositionsPerWallet
        && SumActive(entries) + amount.value <= caps.maxGlobalTvlSol
    {
      if amount.None? || amount.value <= 0.0 {
        return false;
      }
      if amount.value > caps.maxPositionSol {
        return false;
      }
      var walletCount := CountActiveByWallet(wallet);
      var globalTvl := SumActiveAmountSol();
      if walletCount >= caps.maxPositionsPerWallet {
        return false;
      }
      if globalTvl + amount.value > caps.maxGlobalTvlSol {
        return false;
      }
      return true;
    }

    /**
     A draft is created exactly when the caps allow it, and the caps still hold with it counted. An
     amount that does not parse is None.
     */
    method CreateDraftPositionIntent(wallet: Option<nat>, action: Action, amount: Option<real>) returns (r: Result<nat>)
      requires Valid()
      modifies this
      ensures Valid()
      ensures r.Ok? <==>
        && wallet.Some? && amount.Some? && 0.0 < amount.value <= caps.maxPositionSol
        && old(CountActive(entries, wallet.value)) < caps.maxPositionsPerWallet
        && old(SumActive(entries)) + amount.value <= caps.maxGlobalTvlSol
      ensures r.Ok? ==>
        && r.value == |old(entries)| && |entries| == |old(entries)| + 1
        && entries[..r.value] == old(entries) && hist == old(hist) + [[AwaitingSignature]]
        && var e := entries[r.value];
        && e.wallet == wallet.value && e.action == action && e.amount == amount.value
        && e.row == Draft && e.session == AwaitingSignature && e.failureStage == None && !e.signed
        && StatesOf(e.log) == [AwaitingSignature]
      ensures r.Err? ==> Contents() == old(Contents())
      ensures r.Err? ==> r.error == if wallet.None? then WalletRequired else BetaCapExceeded
    {
      if wallet.None? {
        return Err(WalletRequired);
      }
      var allowed := AssertBetaCaps(wallet.value, amount);
      if !allowed {
        return Err(BetaCapExceeded);
      }
      DraftConsistent(caps, Contents(), wallet.value, action, amount.value);
      var id := |entries|;
      ghost var draft := NewDraft(wallet.value, action, amount.value);
      entries := entries + [Entry(wallet.value, action, amount.value, Draft, AwaitingSignature, None, [], false)];
      hist := hist + [[AwaitingSignature]];
      RecordActivity(id, Note(AwaitingSignature, false));
      assert [] + [Note(AwaitingSignature, false)] == draft.log;
      assert entries[id] == draft;
      assert entries == old(entries) + [draft];
      return Ok(id);
    }

    // ---- stages ----

    /** A stage of an operation: the row if asked, the session and the log. */
    method EnterStage(
        id: nat, state: ExecutionState, writeRow: bool, stage: Option<FailureStage>,
        ghost b: Book, ghost path: seq<ExecutionState>, ghost row: ExecutionState, ghost was: Option<FailureStage>,
          ghost signed: bool)
      requires id < |b.entries| == |b.hist| && Contents() == Taken(b, id, path, row, was, signed)
      modifies this
      ensures Contents() == Taken(b, id, path + [state], if writeRow then state else row, stage, signed)
    {
      TakenFurther(b, id, path, state, row, was, signed, if writeRow then state else row, stage);
      if writeRow {
        UpdatePositionState(id, state);
      }
      UpdateExecutionSession(id, state, stage);
      RecordActivity(id, Note(state, false));
    }

    /** Both rows end as failed, with the stage at which the adapter failed. */
    method RecordFailure(
        id: nat, stage: FailureStage,
        ghost b: Book, ghost path: seq<ExecutionState>, ghost row: ExecutionState, ghost was: Option<FailureStage>,
          ghost signed: bool)
      requires id < |b.entries| == |b.hist| && Contents() == Taken(b, id, path, row, was, signed)
      modifies this
      ensures Contents() == Taken(b, id, path + [Failed], Failed, Some(stage), signed)
    {
      EnterStage(id, Failed, true, Some(stage), b, path, row, was, signed);
    }

    // ---- execution ----

    /**
     An execution. The adapters' outcomes, and whether the indexer kept the signature, come from
     outside. It is refused by the first check that fails, and then changes nothing.
     */
    method ExecuteSignedIntent(id: nat, signedMessage: string, fundingOk: bool, venueOk: bool, snapshotKept: bool)
      returns (r: Result<ExecutionState>)
      requires Valid()
      modifies this
      ensures Valid()
      ensures r.Ok? <==>
        && |signedMessage| > 0 && id < |old(entries)| && old(entries[id].action).AddLiquidity?
        && old(entries[id].session).AwaitingSignature?
      ensures r.Err? ==>
        && Contents() == old(Contents())
        && r.error ==
          if |signedMessage| == 0 then SignedMessageRequired
          else if id >= |old(entries)| then PositionNotFound
          else if !old(entries[id].action).AddLiquidity? then UnsupportedAction
          else InvalidTransition
      ensures r.Ok? && !fundingOk ==>
        && r.value == Failed
        && Leaves(old(Contents()), Contents(), id, [FundingInProgress, Failed], Failed, Some(PreFunding),
             old(entries[id].signed))
      ensures r.Ok? && fundingOk && !venueOk ==>
        && r.value == Failed
        && Leaves(old(Contents()), Contents(), id, [FundingInProgress, ExecutingOnMeteora, Failed], Failed,
             Some(FundingPartial), old(entries[id].signed))
      ensures r.Ok? && fundingOk && venueOk ==>
        && r.value == Indexing
        && Leaves(old(Contents()), Contents(), id, [FundingInProgress, ExecutingOnMeteora, Indexing], Indexing, None,
             snapshotKept)
    {
      if |signedMessage| == 0 {
        return Err(SignedMessageRequired);
      }
      if id >= |entries| {
        return Err(PositionNotFound);
      }
      if !entries[id].action.AddLiquidity? {
        return Err(UnsupportedAction);
      }
      if !CanTransition(entries[id].session, FundingInProgress) {
        return Err(InvalidTransition);
      }
      ghost var b := Contents();
      ghost var was, signed := entries[id].failureStage, entries[id].signed;
      TakenNowhere(b, id);
      EnterStage(id, FundingInProgress, false, None, b, [], Draft, was, signed);
      assert [] + [FundingInProgress] == [FundingInProgress];
      if !fundingOk {
        FundingFailed(id, b, signed);
        return Ok(Failed);
      }
      EnterStage(id, ExecutingOnMeteora, false, None, b, [FundingInProgress], Draft, None, signed);
      assert [FundingInProgress] + [ExecutingOnMeteora] == [FundingInProgress, ExecutingOnMeteora];
      if !venueOk {
        VenueFailed(id, b, signed);
        return Ok(Failed);
      }
      Handover(id, snapshotKept, b, signed);
      return Ok(Indexing);
    }

    /** The funding adapter failed: both rows end as failed before funding. */
    method FundingFailed(id: nat, ghost b: Book, ghost signed: bool)
      requires Consistent(caps, b) && id < |b.entries| && b.entries[id].session.AwaitingSignature?
      requires Contents() == Taken(b, id, [FundingInProgress], Draft, None, signed)
      modifies this
      ensures Valid()
      ensures Leaves(b, Contents(), id, [FundingInProgress, Failed], Failed, Some(PreFunding), signed)
    {
      RecordFailure(id, PreFunding, b, [FundingInProgress], Draft, None, signed);
      assert [FundingInProgress] + [Failed] == [FundingInProgress, Failed];
      PathOf2(AwaitingSignature, FundingInProgress, Failed);
      AtRest(b, id, [FundingInProgress, Failed], Some(PreFunding), signed);
    }

    /** The venue adapter failed: both rows end as failed with part of the funding done. */
    method VenueFailed(id: nat, ghost b: Book, ghost signed: bool)
      requires Consistent(caps, b) && id < |b.entries| && b.entries[id].session.AwaitingSignature?
      requires Contents() == Taken(b, id, [FundingInProgress, ExecutingOnMeteora], Draft, None, signed)
      modifies this
      ensures Valid()
      ensures Leaves(b, Contents(), id, [FundingInProgress, ExecutingOnMeteora, Failed], Failed, Some(FundingPartial),
        signed)
    {
      RecordFailure(id, FundingPartial, b, [FundingInProgress, ExecutingOnMeteora], Draft, None, signed);
      assert [FundingInProgress, ExecutingOnMeteora] + [Failed] == [FundingInProgress, ExecutingOnMeteora, Failed];
      PathOf3(AwaitingSignature, FundingInProgress, ExecutingOnMeteora, Failed);
      AtRest(b, id, [FundingInProgress, ExecutingOnMeteora, Failed], Some(FundingPartial), signed);
    }

    /** An operation that has come to rest leaves the service valid. */
    lemma AtRest(b: Book, id: nat, path: seq<ExecutionState>, stage: Option<FailureStage>, signed: bool)
      requires Consistent(caps, b) && id < |b.entries| && |path| > 0 && PathFrom(b.entries[id].session, path)
      requires Resting(path[|path| - 1]) && !path[|path| - 1].AwaitingSignature? && StageFits(stage, path)
      ensures var b' := Taken(b, id, path, path[|path| - 1], stage, signed);
        Consistent(caps, b') && Leaves(b, b', id, path, path[|path| - 1], stage, signed)
    {
      TakenConsistent(caps, b, id, path, stage, signed);
      TakenLeaves(b, id, path, stage, signed);
    }

    /** The venue took the order: the indexer's record is opened, both rows go to indexing, the signature is stored. */
    method StoreSignature(id: nat, snapshotKept: bool, ghost b: Book, ghost signed: bool)
      requires id < |b.entries| == |b.hist|
      requires Contents() == Taken(b, id, [FundingInProgress, ExecutingOnMeteora], Draft, None, signed)
      modifies this
      ensures Contents() == Taken(b, id, [FundingInProgress, ExecutingOnMeteora, Indexing], Indexing, None,
        snapshotKept)
    {
      SaveSignature(id, false);
      EnterStage(id, Indexing, true, None, b, [FundingInProgress, ExecutingOnMeteora], Draft, None, false);
      assert [FundingInProgress, ExecutingOnMeteora] + [Indexing] == [FundingInProgress, ExecutingOnMeteora, Indexing];
      SaveSignature(id, snapshotKept);
    }

    method Handover(id: nat, snapshotKept: bool, ghost b: Book, ghost signed: bool)
      requires Consistent(caps, b) && id < |b.entries| && b.entries[id].session.AwaitingSignature?
      requires Contents() == Taken(b, id, [FundingInProgress, ExecutingOnMeteora], Draft, None, signed)
      modifies this
      ensures Valid()
      ensures Leaves(b, Contents(), id, [FundingInProgress, ExecutingOnMeteora, Indexing], Indexing, None, snapshotKept)
    {
      StoreSignature(id, snapshotKept, b, signed);
      PathOf3(AwaitingSignature, FundingInProgress, ExecutingOnMeteora, Indexing);
      AtRest(b, id, [FundingInProgress, ExecutingOnMeteora, Indexing], None, snapshotKept);
    }

    // ---- claim and withdraw ----

    /** Both rows have to be active; the row is looked at first. */
    method ClaimPosition(id: nat, exitOk: bool, venueOk: bool) returns (r: Result<ExecutionState>)
      requires Valid()
      modifies this
      ensures Valid()
      ensures r.Ok? <==> id < |old(entries)| && old(entries[id].row).Active? && old(entries[id].session).Active?
      ensures r.Err? ==>
        && Contents() == old(Contents())
        && r.error == if id >= |old(entries)| then PositionNotFound else PositionNotActive
      ensures r.Ok? && (!exitOk || !venueOk) ==>
        && r.value == Failed
        && Leaves(old(Contents()), Contents(), id, [Claiming, Failed], Failed,
             Some(if !exitOk then VenueSubmission else VenueConfirmation), old(entries[id].signed))
      ensures r.Ok? && exitOk && venueOk ==>
        && r.value == Completed
        && Leaves(old(Contents()), Contents(), id, [Claiming, Indexing, Completed], Completed, None,
             old(entries[id].signed))
    {
      if id >= |entries| {
        return Err(PositionNotFound);
      }
      if !entries[id].row.Active? {
        return Err(PositionNotActive);
      }
      if !entries[id].session.Active? {
        return Err(SessionNotActive);
      }
      ghost var b := Contents();
      ghost var was, signed := entries[id].failureStage, entries[id].signed;
      TakenNowhere(b, id);
      EnterStage(id, Claiming, true, None, b, [], Active, was, signed);
      assert [] + [Claiming] == [Claiming];
      if !exitOk {
        ExitFailed(id, Claiming, VenueSubmission, b, signed);
        return Ok(Failed);
      }
      if !venueOk {
        ExitFailed(id, Claiming, VenueConfirmation, b, signed);
        return Ok(Failed);
      }
      EnterStage(id, Indexing, true, None, b, [Claiming], Claiming, None, signed);
      assert [Claiming] + [Indexing] == [Claiming, Indexing];
      EnterStage(id, Completed, true, None, b, [Claiming, Indexing], Indexing, None, signed);
      assert [Claiming, Indexing] + [Completed] == [Claiming, Indexing, Completed];
      PathOf3(Active, Claiming, Indexing, Completed);
      AtRest(b, id, [Claiming, Indexing, Completed], None, signed);
      return Ok(Completed);
    }

    /** An exit that an adapter failed, in its first state. */
    method ExitFailed(id: nat, at: ExecutionState, stage: FailureStage, ghost b: Book, ghost signed: bool)
      requires Consistent(caps, b) && id < |b.entries| && b.entries[id].session.Active?
      requires (at.Claiming? || at.Withdrawing?) && (stage.VenueSubmission? || stage.VenueConfirmation?)
      requires Contents() == Taken(b, id, [at], at, None, signed)
      modifies this
      ensures Valid() && Leaves(b, Contents(), id, [at, Failed], Failed, Some(stage), signed)
    {
      RecordFailure(id, stage, b, [at], at, None, signed);
      assert [at] + [Failed] == [at, Failed];
      PathOf2(Active, at, Failed);
      AtRest(b, id, [at, Failed], Some(stage), signed);
    }

    method WithdrawClosePosition(id: nat, exitOk: bool, venueOk: bool) returns (r: Result<ExecutionState>)
      requires Valid()
      modifies this
      ensures Valid()
      ensures r.Ok? <==> id < |old(entries)| && old(entries[id].row).Active? && old(entries[id].session).Active?
      ensures r.Err? ==>
        && Contents() == old(Contents())
        && r.error == if id >= |old(entries)| then PositionNotFound else PositionNotActive
      ensures r.Ok? && (!exitOk || !venueOk) ==>
        && r.value == Failed
        && Leaves(old(Contents()), Contents(), id, [Withdrawing, Failed], Failed,
             Some(if !exitOk then VenueSubmission else VenueConfirmation), old(entries[id].signed))
      ensures r.Ok? && exitOk && venueOk ==>
        && r.value == Completed
        && Leaves(old(Contents()), Contents(), id, [Withdrawing, Closing, Indexing, Completed], Completed, None,
             old(entries[id].signed))
    {
      if id >= |entries| {
        return Err(PositionNotFound);
      }
      if !entries[id].row.Active? {
        return Err(PositionNotActive);
      }
      if !entries[id].session.Active? {
        return Err(SessionNotActive);
      }
      ghost var b := Contents();
      ghost var was, signed := entries[id].failureStage, entries[id].signed;
      TakenNowhere(b, id);
      EnterStage(id, Withdrawing, true, None, b, [], Active, was, signed);
      assert [] + [Withdrawing] == [Withdrawing];
      if !exitOk {
        ExitFailed(id, Withdrawing, VenueSubmission, b, signed);
        return Ok(Failed);
      }
      if !venueOk {
        ExitFailed(id, Withdrawing, VenueConfirmation, b, signed);
        return Ok(Failed);
      }
      CloseOut(id, b, signed);
      return Ok(Completed);
    }

    /** The exit went through: closing, reconciling, completed. */
    method CloseOut(id: nat, ghost b: Book, ghost signed: bool)
      requires Consistent(caps, b) && id < |b.entries| && b.entries[id].session.Active?
      requires Contents() == Taken(b, id, [Withdrawing], Withdrawing, None, signed)
      modifies this
      ensures Valid()
      ensures Leaves(b, Contents(), id, [Withdrawing, Closing, Indexing, Completed], Completed, None, signed)
    {
      EnterStage(id, Closing, true, None, b, [Withdrawing], Withdrawing, None, signed);
      assert [Withdrawing] + [Closing] == [Withdrawing, Closing];
      EnterStage(id, Indexing, true, None, b, [Withdrawing, Closing], Closing, None, signed);
      assert [Withdrawing, Closing] + [Indexing] == [Withdrawing, Closing, Indexing];
      EnterStage(id, Completed, true, None, b, [Withdrawing, Closing, Indexing], Indexing, None, signed);
      assert [Withdrawing, Closing, Indexing] + [Completed] == [Withdrawing, Closing, Indexing, Completed];
      PathOf4(Active, Withdrawing, Closing, Indexing, Completed);
      AtRest(b, id, [Withdrawing, Closing, Indexing, Completed], None, signed);
    }

    // ---- activation ----

    /** The indexer's one-shot answer: a stored signature is taken and never given again. */
    method Reconcile(id: nat) returns (active: bool)
      requires id < |entries|
      modifies this`entries
      ensures active == old(entries[id]).signed
      ensures entries == old(entries)[id := old(entries[id]).(signed := false)]
      ensures !active ==> entries == old(entries)
    {
      if !entries[id].signed {
        assert entries[id] == entries[id].(signed := false);
        return false;
      }
      SaveSignature(id, false);
      return true;
    }

    /**
     A status read. In indexing it activates the position if a signature is stored, and otherwise
     notes a delay unless the last line of the log is one; in any other state it only reads.
     */
    method GetPosition(id: nat) returns (r: Result<ExecutionState>)
      requires Valid()
      modifies this
      ensures Valid()
      ensures r.Ok? <==> id < |old(entries)|
      ensures r.Err? ==> r.error == PositionNotFound && Contents() == old(Contents())
      ensures r.Ok? && old(entries[id].session).Indexing? && old(entries[id].signed) ==>
        r.value == Active && Leaves(old(Contents()), Contents(), id, [Active], Active, None, false)
      ensures r.Ok? && old(entries[id].session).Indexing? && !old(entries[id].signed) ==>
        && r.value == Indexing && hist == old(hist)
        && var e := old(entries[id]);
        entries == old(entries)[id :=
          if e.log[|e.log| - 1].delayed then e else e.(log := e.log + [Note(Indexing, true)])]
      ensures r.Ok? && !old(entries[id].session).Indexing? ==>
        r.value == old(entries[id].session) && Contents() == old(Contents())
    {
      if id >= |entries| {
        return Err(PositionNotFound);
      }
      ghost var b := Contents();
      var row, session, log := entries[id].row, entries[id].session, entries[id].log;
      if session.Indexing? {
        var active := Reconcile(id);
        if active && !row.Active? {
          Activate(id, b);
          return Ok(Active);
        }
        if !(|log| > 0 && log[|log| - 1].delayed) {
          DelayedFits(caps.maxPositionSol, b.entries[id], b.hist[id]);
          MovedWithinCaps(caps, b.entries, id, b.entries[id].(log := b.entries[id].log + [Note(Indexing, true)]));
          RecordActivity(id, Note(Indexing, true));
        }
      }
      return Ok(session);
    }

    /** A taken signature makes both rows active. */
    method Activate(id: nat, ghost b: Book)
      requires Consistent(caps, b) && id < |b.entries| && b.entries[id].signed && b.entries[id].session.Indexing?
      requires Contents() == Book(b.entries[id := b.entries[id].(signed := false)], b.hist)
      modifies this
      ensures Valid() && Leaves(b, Contents(), id, [Active], Active, None, false)
    {
      ghost var b' := Contents();
      TakenNowhere(b', id);
      EnterStage(id, Active, true, None, b', [], entries[id].row, entries[id].failureStage, false);
      assert [] + [Active] == [Active];
      assert Contents() == Taken(b, id, [Active], Active, None, false);
      PathOf1(Indexing, Active);
      AtRest(b, id, [Active], None, false);
    }

    /** One position of the worker's second scan: activated exactly when a signature is stored. */
    method RecoverIndexing(id: nat) returns (advanced: bool)
      requires Valid() && id < |entries| && entries[id].row.Indexing?
      modifies this
      ensures Valid()
      ensures advanced == old(entries[id].signed)
      ensures advanced ==> Leaves(old(Contents()), Contents(), id, [Active], Active, None, false)
      ensures !advanced ==> Contents() == old(Contents())
    {
      ghost var b := Contents();
      advanced := Reconcile(id);
      if advanced {
        Activate(id, b);
      }
    }

    /** Row, session, stage and log agree between operations. */
    lemma RowsAndLogAgree(id: nat)
      requires Valid() && id < |entries|
      ensures entries[id].row == entries[id].session ||
        (entries[id].row.Draft? && entries[id].session.AwaitingSignature?)
      ensures WithoutRepeats(StatesOf(entries[id].log)) == hist[id]
      ensures FollowsTable(hist[id]) && |hist[id]| > 0 && hist[id][|hist[id]| - 1] == entries[id].session
      ensures entries[id].failureStage.Some? <==> entries[id].session.Failed?
      ensures entries[id].failureStage.Some? ==>
        |hist[id]| >= 2 && FailsAt(entries[id].failureStage.value, hist[id][|hist[id]| - 2])
    {
    }
  }

  // ---- across operations ----

  /** After a successful execution, the next look at the position activates it exactly if the signature was kept. */
  method ExecuteThenLook(s: Service, id: nat, signedMessage: string, snapshotKept: bool)
      returns (first: Result<ExecutionState>, second: Result<ExecutionState>)
    requires s.Valid()
    modifies s
    ensures s.Valid()
    ensures first.Ok? ==> first.value == Indexing && second == Ok(if snapshotKept then Active else Indexing)
    ensures first.Ok? ==> id < |s.entries| && s.entries[id].row == s.entries[id].session == second.value
  {
    first := s.ExecuteSignedIntent(id, signedMessage, true, true, snapshotKept);
    second := s.GetPosition(id);
  }

  /** The worker's visit does the same. */
  method ExecuteThenRecover(s: Service, id: nat, signedMessage: string, snapshotKept: bool)
      returns (first: Result<ExecutionState>, advanced: bool)
    requires s.Valid()
    modifies s
    ensures s.Valid()
    ensures first.Ok? ==> advanced == snapshotKept
    ensures first.Ok? ==>
      id < |s.entries| && s.entries[id].row == s.entries[id].session == if snapshotKept then Active else Indexing
  {
    advanced := false;
    first := s.ExecuteSignedIntent(id, signedMessage, true, true, snapshotKept);
    if first.Ok? {
      advanced := s.RecoverIndexing(id);
    }
  }

  /** A position that has come along a history, and all its log says so. */
  ghost predicate Along(s: Service, id: nat, hist: seq<ExecutionState>, state: ExecutionState)
    reads s
  {
    && id < |s.entries| == |s.hist| && s.hist[id] == hist && StatesOf(s.entries[id].log) == hist
    && s.entries[id].session == state && (state.AwaitingSignature? || s.entries[id].row == state)
  }

  method Create(s: Service, wallet: nat, amount: real) returns (created: Result<nat>)
    requires s.Valid()
    modifies s
    ensures s.Valid()
    ensures created.Ok? ==>
      Along(s, created.value, [AwaitingSignature], AwaitingSignature) && s.entries[created.value].action.AddLiquidity?
  {
    created := s.CreateDraftPositionIntent(Some(wallet), AddLiquidity, Some(amount));
  }

  method ExecuteAndActivate(s: Service, id: nat, signedMessage: string)
    requires s.Valid() && |signedMessage| > 0 && Along(s, id, [AwaitingSignature], AwaitingSignature)
    requires s.entries[id].action.AddLiquidity?
    modifies s
    ensures s.Valid()
    ensures Along(s, id, [AwaitingSignature, FundingInProgress, ExecutingOnMeteora, Indexing, Active], Active)
  {
    var executed := s.ExecuteSignedIntent(id, signedMessage, true, true, true);
    assert Along(s, id, [AwaitingSignature, FundingInProgress, ExecutingOnMeteora, Indexing], Indexing) by {
      assert [AwaitingSignature] + [FundingInProgress, ExecutingOnMeteora, Indexing] ==
        [AwaitingSignature, FundingInProgress, ExecutingOnMeteora, Indexing];
    }
    var looked := s.GetPosition(id);
    assert [AwaitingSignature, FundingInProgress, ExecutingOnMeteora, Indexing] + [Active] ==
      [AwaitingSignature, FundingInProgress, ExecutingOnMeteora, Indexing, Active];
  }

  /** A position from creation to close: every state on the way, each logged once. */
  method FromDraftToClose(s: Service, wallet: nat, amount: real, signedMessage: string)
      returns (created: Result<nat>, closed: Result<ExecutionState>)
    requires s.Valid() && |signedMessage| > 0
    modifies s
    ensures s.Valid()
    ensures created.Ok? ==>
      && closed == Ok(Completed)
      && Along(s, created.value,
           [AwaitingSignature, FundingInProgress, ExecutingOnMeteora, Indexing, Active]
           + [Withdrawing, Closing, Indexing, Completed], Completed)
  {
    closed := Err(PositionNotFound);
    created := Create(s, wallet, amount);
    if created.Ok? {
      ExecuteAndActivate(s, created.value, signedMessage);
      closed := s.WithdrawClosePosition(created.value, true, true);
    }
  }
}
