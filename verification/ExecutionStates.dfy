/** The execution states of a position and the transitions between them. */
module ExecutionStates {

  datatype ExecutionState =
    | Draft | AwaitingSignature | FundingInProgress | ExecutingOnMeteora | Indexing | Active
    | Claiming | Withdrawing | Closing | Completed | Failed

  function Transitions(from: ExecutionState): set<ExecutionState> {
    match from
    case Draft => {AwaitingSignature}
    case AwaitingSignature => {FundingInProgress, Failed}
    case FundingInProgress => {ExecutingOnMeteora, Failed}
    case ExecutingOnMeteora => {Indexing, Failed}
    case Indexing => {Active, Completed, Failed}
    case Active => {Claiming, Withdrawing, Closing}
    case Claiming => {Indexing, Completed, Failed}
    case Withdrawing => {Closing, Failed}
    case Closing => {Indexing, Completed, Failed}
    case Completed => {}
    case Failed => {}
  }

  predicate CanTransition(from: ExecutionState, to: ExecutionState) {
    to in Transitions(from)
  }

  /** States that hold no capital any more. */
  predicate Terminal(s: ExecutionState) {
    s in {Completed, Failed}
  }

  /** They are the states with no way out. */
  lemma TerminalIsFinal(s: ExecutionState)
    ensures Terminal(s) <==> forall to :: !CanTransition(s, to)
  {
    match s
    case Draft => assert CanTransition(s, AwaitingSignature);
    case AwaitingSignature => assert CanTransition(s, FundingInProgress);
    case FundingInProgress => assert CanTransition(s, ExecutingOnMeteora);
    case ExecutingOnMeteora => assert CanTransition(s, Indexing);
    case Indexing => assert CanTransition(s, Active);
    case Active => assert CanTransition(s, Claiming);
    case Claiming => assert CanTransition(s, Indexing);
    case Withdrawing => assert CanTransition(s, Closing);
    case Closing => assert CanTransition(s, Indexing);
    case Completed =>
    case Failed =>
  }

  /** A history in which each state follows from the one before by the table. */
  predicate FollowsTable(hist: seq<ExecutionState>) {
    forall i {:trigger hist[i]} :: 0 < i < |hist| ==> CanTransition(hist[i - 1], hist[i])
  }

  /** The table alone bounds nothing: it has a cycle, so some history that follows it goes active n times. */
  lemma {:induction false} TableHasCycle(n: nat) returns (hist: seq<ExecutionState>)
    ensures FollowsTable(hist) && |hist| == 3 * n + 1 && hist[3 * n] == Indexing
    ensures forall k :: 0 <= k < n ==> hist[3 * k + 1] == Active
  {
    if n == 0 {
      hist := [Indexing];
    } else {
      var shorter := TableHasCycle(n - 1);
      hist := shorter + [Active, Claiming, Indexing];
      OnceMore(shorter, hist);
      forall k | 0 <= k < n
        ensures hist[3 * k + 1] == Active
      {
        if k < n - 1 {
          assert hist[3 * k + 1] == shorter[3 * k + 1];
        }
      }
    }
  }

  /** Once round the cycle of claims. */
  lemma OnceMore(hist: seq<ExecutionState>, longer: seq<ExecutionState>)
    requires FollowsTable(hist) && |hist| > 0 && hist[|hist| - 1] == Indexing
    requires longer == hist + [Active, Claiming, Indexing]
    ensures FollowsTable(longer)
  {
    var m := |hist|;
    assert longer[m - 1] == Indexing && longer[m] == Active && longer[m + 1] == Claiming && longer[m + 2] == Indexing;
    forall i | 0 < i < |longer|
      ensures CanTransition(longer[i - 1], longer[i])
    {
      if i < m {
        assert longer[i - 1] == hist[i - 1] && longer[i] == hist[i];
      }
    }
  }
}
