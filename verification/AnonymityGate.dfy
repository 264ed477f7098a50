/**
 The anonymity-set gate in front of the relayer. Requests interleave between reading the pool,
 deciding, landing and being recorded; deposits, spends made elsewhere, re-scans and restarts
 come at any point. How thin can the pool get once requests pass the gate?
 */
module AnonymityGate {
  import opened Sets

  type Nullifier = nat
  type Id = nat

  /** Unspent deposits as the tracker sees them, never negative. */
  function AnonymitySet(nextLeafIndex: nat, withdrawals: nat): (n: nat)
  {
    if nextLeafIndex < withdrawals then 0 else nextLeafIndex - withdrawals
  }

  /** A minimum of zero or less turns the gate off. */
  predicate Opens(min: int, nextLeafIndex: nat, withdrawals: nat) {
    min <= 0 || AnonymitySet(nextLeafIndex, withdrawals) >= min
  }

  /** The pool, the tracker, and the requests at the gate or past it. */
  datatype State = State(
    deposits: nat,
    spent: set<Nullifier>,
    known: set<Nullifier>,
    reading: map<Id, nat>,
    window: set<Id>,
    // history: has a request passed, how full the window has been, how many spends went untracked
    passed: bool,
    peak: nat,
    drift: nat)

  const START: State := State(0, {}, {}, map[], {}, false, 0, 0)

  datatype Event =
    | Deposit
    | Read(id: Id, poolFound: bool)
    | Decide(id: Id)
    | Land(id: Id)
    | PostCommit(id: Id)
    | Fail(id: Id)
    | SpendElsewhere(nullifier: Nullifier)
    | Rescan(found: set<Nullifier>)
    | Restart(found: set<Nullifier>)

  /** The nullifier a request wants to spend. */
  type Requests = Id -> Nullifier

  predicate Enabled(rq: Requests, s: State, e: Event) {
    match e
    case Deposit => true
    case Read(id, _) => id !in s.reading && id !in s.window
    case Decide(id) => id in s.reading
    case Land(id) => id in s.window && rq(id) !in s.spent
    case PostCommit(id) => id in s.window && rq(id) in s.spent
    case Fail(id) => id in s.window
    case SpendElsewhere(n) => n !in s.spent
    case Rescan(found) => found <= s.spent
    case Restart(found) => found <= s.spent
  }

  /** The step itself, without the history. A pool that cannot be read counts no deposits. */
  function Step(min: int, rq: Requests, s: State, e: Event): State
    requires Enabled(rq, s, e)
  {
    match e
    case Deposit => s.(deposits := s.deposits + 1)
    case Read(id, poolFound) => s.(reading := s.reading[id := if poolFound then s.deposits else 0])
    case Decide(id) =>
      if Opens(min, s.reading[id], |s.known|)
      then s.(reading := s.reading - {id}, window := s.window + {id}, passed := true)
      else s.(reading := s.reading - {id})
    case Land(id) => s.(spent := s.spent + {rq(id)})
    case PostCommit(id) => s.(known := s.known + {rq(id)}, window := s.window - {id})
    case Fail(id) => s.(window := s.window - {id})
    case SpendElsewhere(n) => s.(spent := s.spent + {n})
    case Rescan(found) => s.(known := s.known + found)
    case Restart(found) => s.(known := found, reading := map[], window := {})
  }

  ghost function Nulls(rq: Requests, window: set<Id>): set<Nullifier> {
    set id | id in window :: rq(id)
  }

  /** Spends that neither the tracker nor any request past the gate accounts for. */
  ghost function Untracked(rq: Requests, s: State): nat {
    |s.spent - s.known - Nulls(rq, s.window)|
  }

  /** What is spent, or will be if every request past the gate lands. */
  ghost function Committed(rq: Requests, s: State): set<Nullifier> {
    s.spent + Nulls(rq, s.window)
  }

  /** The drift adds up every increase of the untracked spends. */
  ghost function Next(min: int, rq: Requests, s: State, e: Event): State
    requires Enabled(rq, s, e)
  {
    var s' := Step(min, rq, s, e);
    var grown := Untracked(rq, s') - Untracked(rq, s);
    s'.(peak := if |s'.window| > s.peak then |s'.window| else s.peak,
        drift := if grown > 0 then s.drift + grown else s.drift)
  }

  /** A run is a sequence of steps, each possible where it stands. */
  ghost predicate Legal(min: int, rq: Requests, es: seq<Event>)
    decreases |es|, 0
  {
    |es| == 0 ||
    (var before := es[..|es| - 1];
     Legal(min, rq, before) && Enabled(rq, Run(min, rq, before), es[|es| - 1]))
  }

  ghost function Run(min: int, rq: Requests, es: seq<Event>): State
    requires Legal(min, rq, es)
    decreases |es|, 1
  {
    if |es| == 0 then START else Next(min, rq, Run(min, rq, es[..|es| - 1]), es[|es| - 1])
  }

  /** The floor, counted as if everything past the gate had landed. */
  ghost predicate Floor(min: int, rq: Requests, s: State) {
    s.passed ==> s.deposits - |Committed(rq, s)| >= min - s.peak - s.drift
  }

  ghost predicate Inv(min: int, rq: Requests, s: State) {
    && s.known <= s.spent
    && Untracked(rq, s) <= s.drift
    && |s.window| <= s.peak
    && (forall id {:trigger s.reading[id]} :: id in s.reading ==> s.reading[id] <= s.deposits)
    && Floor(min, rq, s)
  }

  // ---- sizes ----

  /** A window holds at most as many nullifiers as requests. */
  lemma {:induction false} NullsSize(rq: Requests, window: set<Id>)
    ensures |Nulls(rq, window)| <= |window|
  {
    if window != {} {
      var id :| id in window;
      var rest := window - {id};
      NullsSize(rq, rest);
      assert Nulls(rq, window) == Nulls(rq, rest) + {rq(id)};
    }
  }

  /** All that is committed is known, in the window, or untracked. */
  lemma CommittedSize(rq: Requests, s: State)
    requires s.known <= s.spent
    ensures |Committed(rq, s)| <= |s.known| + |s.window| + Untracked(rq, s)
  {
    var nulls := Nulls(rq, s.window);
    var loose := s.spent - s.known - nulls;
    assert Committed(rq, s) == s.known + nulls + loose;
    UnionSize(s.known, nulls);
    UnionSize(s.known + nulls, loose);
    NullsSize(rq, s.window);
  }

  // ---- every step ----

  /** The history only grows, and covers where the step arrives. */
  lemma HistoryCovers(min: int, rq: Requests, s: State, e: Event)
    requires Enabled(rq, s, e) && Untracked(rq, s) <= s.drift && |s.window| <= s.peak
    ensures var s' := Next(min, rq, s, e);
      s'.drift >= s.drift && s'.peak >= s.peak && Untracked(rq, s') <= s'.drift && |s'.window| <= s'.peak
  {
    var t, s' := Step(min, rq, s, e), Next(min, rq, s, e);
    assert t.drift == s.drift && t.peak == s.peak;
    assert Untracked(rq, s') == Untracked(rq, t);
  }

  /** A step that commits nothing new keeps the floor. */
  lemma FloorCarries(min: int, rq: Requests, s: State, s': State)
    requires Floor(min, rq, s) && Committed(rq, s') <= Committed(rq, s)
    requires s'.passed == s.passed && s'.deposits >= s.deposits && s'.drift >= s.drift && s'.peak >= s.peak
    ensures Floor(min, rq, s')
  {
    SubsetSize(Committed(rq, s'), Committed(rq, s));
  }

  /** A passing decision starts from what the tracker counts, so it establishes the floor again. */
  lemma DecisionFloor(min: int, rq: Requests, s: State, id: Id)
    requires min >= 1 && Inv(min, rq, s) && Enabled(rq, s, Decide(id))
    ensures Floor(min, rq, Next(min, rq, s, Decide(id)))
  {
    var s' := Next(min, rq, s, Decide(id));
    HistoryCovers(min, rq, s, Decide(id));
    if Opens(min, s.reading[id], |s.known|) {
      CommittedSize(rq, s');
    } else {
      FloorCarries(min, rq, s, s');
    }
  }

  lemma OneMoreOutside<T>(a: set<T>, b: set<T>, c: set<T>, x: T)
    requires x !in a && x !in b && x !in c
    ensures |(a + {x}) - b - c| == |a - b - c| + 1
    ensures |(a + {x}) + c| == |a + c| + 1
  {
    assert (a + {x}) - b - c == (a - b - c) + {x};
    assert (a + {x}) + c == (a + c) + {x};
  }

  /** A spend nobody at the gate accounts for is one more untracked, and one more committed. */
  lemma UntrackedSpend(min: int, rq: Requests, s: State, n: Nullifier)
    requires s.known <= s.spent && n !in s.spent && n !in Nulls(rq, s.window)
    ensures var t := Step(min, rq, s, SpendElsewhere(n));
      Untracked(rq, t) == Untracked(rq, s) + 1 && |Committed(rq, t)| == |Committed(rq, s)| + 1
  {
    OneMoreOutside(s.spent, s.known, Nulls(rq, s.window), n);
  }

  lemma SpendElsewhereFloor(min: int, rq: Requests, s: State, n: Nullifier)
    requires Inv(min, rq, s) && n !in s.spent
    ensures Floor(min, rq, Next(min, rq, s, SpendElsewhere(n)))
  {
    var t, s' := Step(min, rq, s, SpendElsewhere(n)), Next(min, rq, s, SpendElsewhere(n));
    HistoryCovers(min, rq, s, SpendElsewhere(n));
    if n in Nulls(rq, s.window) {
      FloorCarries(min, rq, s, s');
    } else {
      UntrackedSpend(min, rq, s, n);
      assert s'.drift == s.drift + 1;
      assert Committed(rq, s') == Committed(rq, t);
    }
  }

  /** No other step commits more. */
  lemma OtherFloor(min: int, rq: Requests, s: State, e: Event)
    requires Inv(min, rq, s) && Enabled(rq, s, e) && !e.Decide? && !e.SpendElsewhere?
    ensures Floor(min, rq, Next(min, rq, s, e))
  {
    HistoryCovers(min, rq, s, e);
    FloorCarries(min, rq, s, Next(min, rq, s, e));
  }

  lemma ReadingsKept(min: int, rq: Requests, s: State, e: Event)
    requires Inv(min, rq, s) && Enabled(rq, s, e)
    ensures var s' := Next(min, rq, s, e);
      s'.known <= s'.spent && forall id {:trigger s'.reading[id]} :: id in s'.reading ==> s'.reading[id] <= s'.deposits
  {
    var t, s' := Step(min, rq, s, e), Next(min, rq, s, e);
    assert t.known <= t.spent && s'.reading == t.reading && s'.deposits == t.deposits;
  }

  lemma InvKept(min: int, rq: Requests, s: State, e: Event)
    requires min >= 1 && Inv(min, rq, s) && Enabled(rq, s, e)
    ensures Inv(min, rq, Next(min, rq, s, e))
  {
    HistoryCovers(min, rq, s, e);
    ReadingsKept(min, rq, s, e);
    if e.Decide? {
      DecisionFloor(min, rq, s, e.id);
    } else if e.SpendElsewhere? {
      SpendElsewhereFloor(min, rq, s, e.nullifier);
    } else {
      OtherFloor(min, rq, s, e);
    }
  }

  lemma {:induction false} RunInv(min: int, rq: Requests, es: seq<Event>)
    requires min >= 1 && Legal(min, rq, es)
    ensures Inv(min, rq, Run(min, rq, es))
  {
    if |es| == 0 {
    } else {
      var before := es[..|es| - 1];
      RunInv(min, rq, before);
      InvKept(min, rq, Run(min, rq, before), es[|es| - 1]);
    }
  }

  /**
   Once a request has passed, the true count of unspent deposits stays within the widest window
   of the minimum, and within the number of spends the tracker missed.
   */
  lemma UnspentFloor(min: int, rq: Requests, es: seq<Event>)
    requires min >= 1 && Legal(min, rq, es)
    ensures var s := Run(min, rq, es);
      s.passed ==> s.deposits - |s.spent| >= min - s.peak - s.drift
  {
    RunInv(min, rq, es);
    var s := Run(min, rq, es);
    SubsetSize(s.spent, Committed(rq, s));
  }

  /** One request at a time and every spend tracked: at most one below the minimum. */
  lemma FloorOneAtATime(min: int, rq: Requests, es: seq<Event>)
    requires min >= 1 && Legal(min, rq, es)
    requires var s := Run(min, rq, es); s.passed && s.peak <= 1 && s.drift == 0
    ensures var s := Run(min, rq, es); s.deposits - |s.spent| >= min - 1
  {
    UnspentFloor(min, rq, es);
  }

  // ---- what drifts ----

  /** The steps that leave a spend untracked: the exact list. */
  ghost predicate LosesTrack(rq: Requests, s: State, e: Event)
    requires Enabled(rq, s, e)
  {
    match e
    case SpendElsewhere(n) => n !in Nulls(rq, s.window)
    case Fail(id) => rq(id) in s.spent - s.known && forall x :: x in s.window && x != id ==> rq(x) != rq(id)
    case Restart(found) => |s.spent - found| > Untracked(rq, s)
    case _ => false
  }

  /** Steps that only cover more, or move a spend from the window to the tracker. */
  lemma OthersKeepTrack(min: int, rq: Requests, s: State, e: Event)
    requires Enabled(rq, s, e) && !e.SpendElsewhere? && !e.Fail? && !e.Restart?
    ensures Untracked(rq, Step(min, rq, s, e)) <= Untracked(rq, s)
  {
    var t := Step(min, rq, s, e);
    var was, now := s.spent - s.known - Nulls(rq, s.window), t.spent - t.known - Nulls(rq, t.window);
    assert now <= was;
    SubsetSize(now, was);
  }

  lemma SpendElsewhereLoses(min: int, rq: Requests, s: State, n: Nullifier)
    requires n !in s.spent && s.known <= s.spent
    ensures Untracked(rq, Step(min, rq, s, SpendElsewhere(n))) ==
      Untracked(rq, s) + if n in Nulls(rq, s.window) then 0 else 1
  {
    var t := Step(min, rq, s, SpendElsewhere(n));
    if n in Nulls(rq, s.window) {
      assert t.spent - t.known - Nulls(rq, t.window) == s.spent - s.known - Nulls(rq, s.window);
    } else {
      UntrackedSpend(min, rq, s, n);
    }
  }

  lemma NullsWithout(rq: Requests, window: set<Id>, id: Id)
    requires id in window
    ensures Nulls(rq, window) == Nulls(rq, window - {id}) + {rq(id)}
    ensures rq(id) in Nulls(rq, window - {id}) <==> exists x :: x in window && x != id && rq(x) == rq(id)
  {
    if x :| x in window && x != id && rq(x) == rq(id) {
      assert x in window - {id};
    }
  }

  lemma OneLess<T>(open_: set<T>, rest: set<T>, x: T)
    ensures |open_ - rest| == |open_ - (rest + {x})| + if x in open_ && x !in rest then 1 else 0
  {
    if x in open_ && x !in rest {
      assert open_ - rest == (open_ - (rest + {x})) + {x};
    } else {
      assert open_ - rest == open_ - (rest + {x});
    }
  }

  lemma FailLoses(min: int, rq: Requests, s: State, id: Id)
    requires Enabled(rq, s, Fail(id)) && s.known <= s.spent
    ensures Untracked(rq, Step(min, rq, s, Fail(id))) ==
      Untracked(rq, s) + if LosesTrack(rq, s, Fail(id)) then 1 else 0
  {
    NullsWithout(rq, s.window, id);
    OneLess(s.spent - s.known, Nulls(rq, s.window - {id}), rq(id));
  }

  /** A request's own landing and recording never lose track of its spend; neither do deposits, reads or scans. */
  lemma DriftsExactlyWhen(min: int, rq: Requests, s: State, e: Event)
    requires Enabled(rq, s, e) && s.known <= s.spent
    ensures Next(min, rq, s, e).drift > s.drift <==> LosesTrack(rq, s, e)
    ensures Next(min, rq, s, e).drift == s.drift || LosesTrack(rq, s, e)
  {
    if e.SpendElsewhere? {
      SpendElsewhereLoses(min, rq, s, e.nullifier);
    } else if e.Fail? {
      FailLoses(min, rq, s, e.id);
    } else if e.Restart? {
      var t := Step(min, rq, s, e);
      assert t.spent - t.known - Nulls(rq, t.window) == s.spent - e.found;
    } else {
      OthersKeepTrack(min, rq, s, e);
    }
  }

  /** No step of a run loses track of a spend. */
  ghost predicate Tracked(min: int, rq: Requests, es: seq<Event>)
    requires Legal(min, rq, es)
  {
    |es| == 0 ||
    (var before := es[..|es| - 1];
     Tracked(min, rq, before) && !LosesTrack(rq, Run(min, rq, before), es[|es| - 1]))
  }

  /**
   When every spend is found by a scan or made and recorded through the relayer, nothing drifts, so
   only the width of the window is lost below the minimum.
   */
  lemma {:induction false} TrackedRunsDoNotDrift(min: int, rq: Requests, es: seq<Event>)
    requires min >= 1 && Legal(min, rq, es) && Tracked(min, rq, es)
    ensures var s := Run(min, rq, es);
      s.drift == 0 && (s.passed ==> s.deposits - |s.spent| >= min - s.peak)
  {
    UnspentFloor(min, rq, es);
    if |es| == 0 {
    } else {
      var before := es[..|es| - 1];
      TrackedRunsDoNotDrift(min, rq, before);
      RunInv(min, rq, before);
      DriftsExactlyWhen(min, rq, Run(min, rq, before), es[|es| - 1]);
    }
  }

  // ---- who is past the gate ----

  /**
   Read off the steps: whether a request has been let past the gate and has neither been recorded nor failed
   since.
   */
  ghost predicate PastGate(min: int, rq: Requests, es: seq<Event>, id: Id)
    requires Legal(min, rq, es)
  {
    if |es| == 0 then false
    else
      var before, e := es[..|es| - 1], es[|es| - 1];
      var s := Run(min, rq, before);
      if e == Decide(id) then Opens(min, s.reading[id], |s.known|)
      else PastGate(min, rq, before, id) && e != PostCommit(id) && e != Fail(id) && !e.Restart?
  }

  /** A request that is reading the pool is not past the gate yet. */
  predicate ReadsOutside(s: State, id: Id) {
    id in s.reading ==> id !in s.window
  }

  lemma WindowStep(min: int, rq: Requests, s: State, e: Event, id: Id)
    requires Enabled(rq, s, e) && ReadsOutside(s, id)
    ensures var s' := Next(min, rq, s, e);
      && ReadsOutside(s', id)
      && |s'.window| <= s'.peak
      && (id in s'.window <==>
           if e == Decide(id) then Opens(min, s.reading[id], |s.known|)
           else id in s.window && e != PostCommit(id) && e != Fail(id) && !e.Restart?)
  {
    var t, s' := Step(min, rq, s, e), Next(min, rq, s, e);
    assert s'.window == t.window && s'.reading == t.reading;
  }

  /** The window is exactly the requests past the gate, and its peak the widest there ever was. */
  lemma {:induction false} WindowIsPastGate(min: int, rq: Requests, es: seq<Event>, id: Id)
    requires Legal(min, rq, es)
    ensures ReadsOutside(Run(min, rq, es), id)
    ensures id in Run(min, rq, es).window <==> PastGate(min, rq, es, id)
    ensures |Run(min, rq, es).window| <= Run(min, rq, es).peak
  {
    if |es| == 0 {
    } else {
      WindowIsPastGate(min, rq, es[..|es| - 1], id);
      WindowStep(min, rq, Run(min, rq, es[..|es| - 1]), es[|es| - 1], id);
    }
  }

  /** A pool that cannot be read lets nobody pass; one that can lets a request pass exactly by the count. */
  lemma GateGoesByTheCount(min: int, rq: Requests, s: State, id: Id, poolFound: bool)
    requires min >= 1 && Enabled(rq, s, Read(id, poolFound))
    ensures var t := Next(min, rq, s, Read(id, poolFound));
      && Enabled(rq, t, Decide(id))
      && (id in Next(min, rq, t, Decide(id)).window <==> poolFound && s.deposits - |s.known| >= min)
  {
  }

  /** A scan that finds everything leaves nothing untracked. */
  lemma FullScanTracksAll(min: int, rq: Requests, s: State)
    requires s.known <= s.spent
    ensures Enabled(rq, s, Rescan(s.spent)) && Next(min, rq, s, Rescan(s.spent)).known == s.spent
    ensures Untracked(rq, Next(min, rq, s, Rescan(s.spent))) == 0
  {
    var t := Next(min, rq, s, Rescan(s.spent));
    assert t.spent - t.known - Nulls(rq, t.window) == {};
  }

  // ---- the floor is reached ----

  /** A run and one more step. */
  lemma Extend(min: int, rq: Requests, es: seq<Event>, e: Event, s: State, s': State) returns (more: seq<Event>)
    requires Legal(min, rq, es) && Run(min, rq, es) == s && Enabled(rq, s, e) && Next(min, rq, s, e) == s'
    ensures Legal(min, rq, more) && Run(min, rq, more) == s'
  {
    more := es + [e];
    assert more[..|es|] == es;
  }

  ghost function Upto(k: nat): set<nat> {
    if k == 0 then {} else Upto(k - 1) + {k - 1}
  }

  lemma {:induction false} UptoHas(k: nat)
    ensures |Upto(k)| == k
    ensures forall i: nat {:trigger i in Upto(k)} :: i in Upto(k) <==> i < k
  {
    if k == 0 {
    } else {
      UptoHas(k - 1);
    }
  }

  /** Every request spends its own nullifier. */
  function OwnNullifier(id: Id): Nullifier {
    id
  }

  /** Deposits up to the minimum. */
  lemma {:induction false} Fill(min: nat, n: nat) returns (es: seq<Event>)
    ensures Legal(min, OwnNullifier, es)
    ensures Run(min, OwnNullifier, es) == START.(deposits := n)
  {
    es := [];
    if n == 0 {
    } else {
      es := Fill(min, n - 1);
      es := Extend(min, OwnNullifier, es, Deposit, START.(deposits := n - 1), START.(deposits := n));
    }
  }

  /** The pool when j of k requests past the gate have landed. */
  ghost function Draining(min: nat, k: nat, j: nat): State {
    State(min, Upto(j), {}, map[], Upto(k), k > 0, k, 0)
  }

  /** One more request has read the pool. */
  ghost function Waiting(min: nat, k: nat): State {
    Draining(min, k, 0).(reading := map[k := min])
  }

  lemma ReadsOne(min: nat, k: nat)
    ensures Enabled(OwnNullifier, Draining(min, k, 0), Read(k, true))
    ensures Next(min, OwnNullifier, Draining(min, k, 0), Read(k, true)) == Waiting(min, k)
  {
    UptoHas(k);
  }

  lemma PassesOne(min: nat, k: nat)
    requires min >= 1
    ensures Enabled(OwnNullifier, Waiting(min, k), Decide(k))
    ensures Next(min, OwnNullifier, Waiting(min, k), Decide(k)) == Draining(min, k + 1, 0)
  {
    UptoHas(k);
    UptoHas(k + 1);
    var s := Step(min, OwnNullifier, Waiting(min, k), Decide(k));
    assert map[k := min] - {k} == map[];
    assert s.window == Upto(k + 1) && s.spent == {};
  }

  lemma PassOneMore(min: nat, k: nat, es: seq<Event>) returns (more: seq<Event>)
    requires min >= 1 && k >= 1
    requires Legal(min, OwnNullifier, es) && Run(min, OwnNullifier, es) == Draining(min, k - 1, 0)
    ensures Legal(min, OwnNullifier, more) && Run(min, OwnNullifier, more) == Draining(min, k, 0)
  {
    ReadsOne(min, k - 1);
    more := Extend(min, OwnNullifier, es, Read(k - 1, true), Draining(min, k - 1, 0), Waiting(min, k - 1));
    PassesOne(min, k - 1);
    more := Extend(min, OwnNullifier, more, Decide(k - 1), Waiting(min, k - 1), Draining(min, k, 0));
  }

  /** Then k requests pass before any of them lands. */
  lemma {:induction false} PassAll(min: nat, k: nat) returns (es: seq<Event>)
    requires min >= 1
    ensures Legal(min, OwnNullifier, es)
    ensures Run(min, OwnNullifier, es) == Draining(min, k, 0)
  {
    if k == 0 {
      es := Fill(min, min);
    } else {
      es := PassAll(min, k - 1);
      es := PassOneMore(min, k, es);
    }
  }

  lemma NothingLoose(k: nat, j: nat)
    requires j <= k
    ensures Upto(j) - {} - Nulls(OwnNullifier, Upto(k)) == {}
  {
    UptoHas(k);
    UptoHas(j);
    assert forall id: Id {:trigger id in Upto(k)} :: id in Upto(k) ==> OwnNullifier(id) in Nulls(OwnNullifier, Upto(k));
  }

  lemma LandsOne(min: nat, k: nat, j: nat)
    requires 1 <= j <= k
    ensures Enabled(OwnNullifier, Draining(min, k, j - 1), Land(j - 1))
    ensures Next(min, OwnNullifier, Draining(min, k, j - 1), Land(j - 1)) == Draining(min, k, j)
  {
    UptoHas(k);
    UptoHas(j - 1);
    NothingLoose(k, j - 1);
    NothingLoose(k, j);
  }

  lemma LandOneMore(min: nat, k: nat, j: nat, es: seq<Event>) returns (more: seq<Event>)
    requires 1 <= j <= k && Legal(min, OwnNullifier, es) && Run(min, OwnNullifier, es) == Draining(min, k, j - 1)
    ensures Legal(min, OwnNullifier, more) && Run(min, OwnNullifier, more) == Draining(min, k, j)
  {
    LandsOne(min, k, j);
    more := Extend(min, OwnNullifier, es, Land(j - 1), Draining(min, k, j - 1), Draining(min, k, j));
  }

  /** Then j of them land. */
  lemma {:induction false} LandSome(min: nat, k: nat, j: nat) returns (es: seq<Event>)
    requires 1 <= min && j <= k
    ensures Legal(min, OwnNullifier, es)
    ensures Run(min, OwnNullifier, es) == Draining(min, k, j)
  {
    if j == 0 {
      es := PassAll(min, k);
    } else {
      es := LandSome(min, k, j - 1);
      es := LandOneMore(min, k, j, es);
    }
  }

  /** The bound is exact: with every spend tracked, the window's size is really lost. */
  lemma FloorIsReached(min: nat, k: nat) returns (es: seq<Event>)
    requires 1 <= min && 1 <= k <= min
    ensures Legal(min, OwnNullifier, es)
    ensures var s := Run(min, OwnNullifier, es);
      s.passed && s.peak == k && s.drift == 0 && s.deposits - |s.spent| == min - k
  {
    es := LandSome(min, k, k);
    UptoHas(k);
  }
}
