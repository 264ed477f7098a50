/**
 The recovery worker's failure alerts. Ticks run one after another; failures land at any moment,
 also while a tick is under way. Each tick alerts on what failed since the boundary the last
 completed tick left, and leaves its own start as the next boundary. A tick can be aborted before
 its query is answered, or by an alert that throws after some have gone out; either way the
 boundary stays.
 */
module RecoveryWorker {
  import opened Bytes
  import opened Sets

  const SCAN_BATCH_LIMIT: nat := 50

  /**
   A failed position: when its row was written, whether that was inside a tick before its query, and the
   alerts so far.
   */
  datatype Failure = Failure(time: int, straddles: bool, alerts: nat)

  datatype Tick = Idle | Started(now: int) | Queried(now: int, taken: set<nat>)

  /** Failures in the order they happened; `boot` is the boundary the worker started with. */
  datatype State = State(failures: seq<Failure>, clock: int, boundary: int, tick: Tick, boot: int)

  datatype Event =
    | Fail(time: int)
    | Start(now: int)
    | Query(taken: set<nat>)
    | Finish
    | Abort(sent: set<nat>)

  /** The rows the alert query matches. */
  function Matches(s: State): set<nat> {
    set i: nat | 0 <= i < |s.failures| && s.failures[i].time >= s.boundary
  }

  /** The query answers with the newest of the matches, up to its limit. */
  ghost predicate NewestOf(s: State, taken: set<nat>) {
    && taken <= Matches(s)
    && |taken| == (if |Matches(s)| <= SCAN_BATCH_LIMIT then |Matches(s)| else SCAN_BATCH_LIMIT)
    && forall i, j {:trigger i in taken, j in Matches(s)} :: i in taken && j in Matches(s) && j !in taken ==>
         s.failures[j].time <= s.failures[i].time
  }

  /** Time never runs backwards; a strict clock never reads the same twice. */
  predicate Ticks(s: State, time: int, strict: bool) {
    if strict then s.clock < time else s.clock <= time
  }

  ghost predicate Enabled(s: State, e: Event, strict: bool) {
    match e
    case Fail(time) => Ticks(s, time, strict)
    case Start(now) => s.tick.Idle? && Ticks(s, now, strict)
    case Query(taken) => s.tick.Started? && NewestOf(s, taken)
    case Finish => s.tick.Queried?
    case Abort(sent) => !s.tick.Idle? && sent <= if s.tick.Queried? then s.tick.taken else {}
  }

  function Alerted(fs: seq<Failure>, taken: set<nat>): (r: seq<Failure>)
    ensures |r| == |fs|
    ensures forall i {:trigger r[i]} :: 0 <= i < |fs| ==>
      r[i] == if i in taken then fs[i].(alerts := fs[i].alerts + 1) else fs[i]
  {
    seq(|fs|, i requires 0 <= i < |fs| => if i in taken then fs[i].(alerts := fs[i].alerts + 1) else fs[i])
  }

  ghost function Next(s: State, e: Event, strict: bool): State
    requires Enabled(s, e, strict)
  {
    match e
    case Fail(time) => s.(failures := s.failures + [Failure(time, s.tick.Started?, 0)], clock := time)
    case Start(now) => s.(tick := Started(now), clock := now)
    case Query(taken) => s.(tick := Queried(s.tick.now, taken))
    case Finish => s.(failures := Alerted(s.failures, s.tick.taken), boundary := s.tick.now, tick := Idle)
    case Abort(sent) => s.(failures := Alerted(s.failures, sent), tick := Idle)
  }

  /** Some failures are there when the worker boots, with a boundary in the past. */
  ghost predicate Boots(s: State) {
    && s.tick.Idle? && s.boundary == s.boot <= s.clock
    && forall i {:trigger s.failures[i]} :: 0 <= i < |s.failures| ==>
         s.failures[i].time <= s.clock && !s.failures[i].straddles && s.failures[i].alerts == 0
  }

  /** A run is a sequence of steps, each possible where it stands. */
  ghost predicate Legal(s: State, es: seq<Event>, strict: bool)
    decreases |es|, 0
  {
    |es| == 0 ||
    (var before := es[..|es| - 1];
     Legal(s, before, strict) && Enabled(Run(s, before, strict), es[|es| - 1], strict))
  }

  ghost function Run(s: State, es: seq<Event>, strict: bool): State
    requires Legal(s, es, strict)
    decreases |es|, 1
  {
    if |es| == 0 then s else Next(Run(s, es[..|es| - 1], strict), es[|es| - 1], strict)
  }

  lemma {:induction false} Prefix(s: State, es: seq<Event>, strict: bool, k: nat)
    requires Legal(s, es, strict) && k <= |es|
    ensures Legal(s, es[..k], strict)
  {
    if k == |es| {
      assert es[..k] == es;
    } else {
      Prefix(s, es[..|es| - 1], strict, k);
      assert es[..|es| - 1][..k] == es[..k];
    }
  }

  /** The state in which the k-th step is taken. */
  ghost function At(s: State, es: seq<Event>, strict: bool, k: nat): State
    requires Legal(s, es, strict) && k <= |es|
  {
    Prefix(s, es, strict, k);
    Run(s, es[..k], strict)
  }

  lemma StepAt(s: State, es: seq<Event>, strict: bool, k: nat)
    requires Legal(s, es, strict) && k < |es|
    ensures Enabled(At(s, es, strict, k), es[k], strict)
    ensures At(s, es, strict, k + 1) == Next(At(s, es, strict, k), es[k], strict)
  {
    Prefix(s, es, strict, k);
    Prefix(s, es, strict, k + 1);
    assert es[..k + 1][..k] == es[..k];
  }

  /** No query along the run matches more than it can return. */
  ghost predicate SmallWindows(s: State, es: seq<Event>, strict: bool)
    requires Legal(s, es, strict)
  {
    forall k {:trigger es[k]} :: 0 <= k < |es| && es[k].Query? ==> |Matches(At(s, es, strict, k))| <= SCAN_BATCH_LIMIT
  }

  predicate NoAborts(es: seq<Event>) {
    forall k :: 0 <= k < |es| ==> !es[k].Abort?
  }

  // ---- no gap ----

  /** What lies before the boundary has been alerted; what a query took is all it matched. */
  ghost predicate NoGap(s: State) {
    && s.boot <= s.boundary <= s.clock
    && (s.tick.Started? || s.tick.Queried? ==> s.boundary <= s.tick.now <= s.clock)
    && (forall i {:trigger s.failures[i]} :: 0 <= i < |s.failures| ==>
          && s.failures[i].time <= s.clock
          && (s.boot <= s.failures[i].time < s.boundary ==> s.failures[i].alerts >= 1)
          && (s.tick.Queried? && s.boundary <= s.failures[i].time < s.tick.now ==> i in s.tick.taken))
  }

  lemma NoGapKept(s: State, e: Event, strict: bool)
    requires NoGap(s) && Enabled(s, e, strict) && (e.Query? ==> |Matches(s)| <= SCAN_BATCH_LIMIT)
    ensures NoGap(Next(s, e, strict))
  {
    if e.Query? {
      SameSizeSubset(e.taken, Matches(s));
    }
  }

  lemma {:induction false} RunHasNoGap(s: State, es: seq<Event>, strict: bool, k: nat)
    requires Boots(s) && Legal(s, es, strict) && SmallWindows(s, es, strict) && k <= |es|
    ensures NoGap(At(s, es, strict, k))
  {
    if k == 0 {
    } else {
      RunHasNoGap(s, es, strict, k - 1);
      StepAt(s, es, strict, k - 1);
      NoGapKept(At(s, es, strict, k - 1), es[k - 1], strict);
    }
  }

  /** Failures are never forgotten, and alerts only add up. */
  lemma AlertsAddUp(s: State, e: Event, strict: bool, i: nat)
    requires Enabled(s, e, strict) && i < |s.failures|
    ensures var s' := Next(s, e, strict);
      i < |s'.failures| && s'.failures[i].time == s.failures[i].time && s'.failures[i].alerts >= s.failures[i].alerts
  {
  }

  lemma {:induction false} AlertsStay(s: State, es: seq<Event>, strict: bool, i: nat, first: nat, last: nat)
    requires Legal(s, es, strict) && first <= last <= |es| && i < |At(s, es, strict, first).failures|
    ensures var was, after := At(s, es, strict, first), At(s, es, strict, last);
      && i < |after.failures| && after.failures[i].time == was.failures[i].time &&
           after.failures[i].alerts >= was.failures[i].alerts
    decreases last - first
  {
    if first == last {
    } else {
      AlertsStay(s, es, strict, i, first, last - 1);
      StepAt(s, es, strict, last - 1);
      AlertsAddUp(At(s, es, strict, last - 1), es[last - 1], strict, i);
    }
  }

  /** Once a tick that started after the failure has queried, the failure is alerted or about to be. */
  predicate InHand(s: State, i: nat) {
    i < |s.failures| && (s.tick.Queried? ==> i in s.tick.taken || s.failures[i].alerts >= 1)
  }

  lemma InHandKept(s: State, e: Event, strict: bool, i: nat)
    requires NoGap(s) && Enabled(s, e, strict) && (e.Query? ==> |Matches(s)| <= SCAN_BATCH_LIMIT)
    requires InHand(s, i) && s.boot <= s.failures[i].time
    ensures InHand(Next(s, e, strict), i)
    ensures e.Finish? ==> Next(s, e, strict).failures[i].alerts >= 1
  {
    if e.Query? {
      SameSizeSubset(e.taken, Matches(s));
      assert s.failures[i].time >= s.boundary ==> i in Matches(s);
    }
  }

  lemma {:induction false} StaysInHand(s: State, es: seq<Event>, strict: bool, i: nat, first: nat, last: nat)
    requires Boots(s) && Legal(s, es, strict) && SmallWindows(s, es, strict) && first <= last <= |es|
    requires var t := At(s, es, strict, first); InHand(t, i) && t.boot <= t.failures[i].time
    ensures var t := At(s, es, strict, last); InHand(t, i) && t.boot <= t.failures[i].time
    decreases last - first
  {
    if first == last {
    } else {
      StaysInHand(s, es, strict, i, first, last - 1);
      RunHasNoGap(s, es, strict, last - 1);
      StepAt(s, es, strict, last - 1);
      InHandKept(At(s, es, strict, last - 1), es[last - 1], strict, i);
      AlertsAddUp(At(s, es, strict, last - 1), es[last - 1], strict, i);
    }
  }

  /**
   The windows leave no gap, aborted ticks or not: in every run from boot whose queries stay within
   the limit, a failure since boot has been alerted as soon as some tick that started after it completes.
   */
  lemma EveryFailureAlerted(s: State, es: seq<Event>, strict: bool, start: nat, finish: nat, i: nat)
    requires Boots(s) && Legal(s, es, strict) && SmallWindows(s, es, strict)
    requires start < finish < |es| && es[start].Start? && es[finish].Finish?
    requires i < |At(s, es, strict, start).failures| && s.boot <= At(s, es, strict, start).failures[i].time
    ensures i < |Run(s, es, strict).failures| && Run(s, es, strict).failures[i].alerts >= 1
  {
    InHandOnceStarted(s, es, strict, start, i);
    StaysInHand(s, es, strict, i, start + 1, finish);
    FinishAlerts(s, es, strict, finish, i);
    AlertsStay(s, es, strict, i, finish + 1, |es|);
    assert es[..|es|] == es;
  }

  lemma InHandOnceStarted(s: State, es: seq<Event>, strict: bool, start: nat, i: nat)
    requires Legal(s, es, strict) && start < |es| && es[start].Start?
    requires i < |At(s, es, strict, start).failures| && s.boot <= At(s, es, strict, start).failures[i].time
    ensures var t := At(s, es, strict, start + 1);
      InHand(t, i) && t.boot <= t.failures[i].time
  {
    StepAt(s, es, strict, start);
    BootStays(s, es, strict, start);
  }

  lemma FinishAlerts(s: State, es: seq<Event>, strict: bool, finish: nat, i: nat)
    requires Boots(s) && Legal(s, es, strict) && SmallWindows(s, es, strict) && finish < |es| && es[finish].Finish?
    requires var t := At(s, es, strict, finish); InHand(t, i) && t.boot <= t.failures[i].time
    ensures var t := At(s, es, strict, finish + 1);
      i < |t.failures| && t.failures[i].alerts >= 1
  {
    RunHasNoGap(s, es, strict, finish);
    StepAt(s, es, strict, finish);
    InHandKept(At(s, es, strict, finish), es[finish], strict, i);
  }

  lemma {:induction false} BootStays(s: State, es: seq<Event>, strict: bool, k: nat)
    requires Legal(s, es, strict) && k <= |es|
    ensures At(s, es, strict, k).boot == s.boot
  {
    if k == 0 {
    } else {
      BootStays(s, es, strict, k - 1);
      StepAt(s, es, strict, k - 1);
    }
  }

  // ---- at most twice ----

  /** How often a failure has been alerted, with a strict clock and no aborted tick. */
  function AlertsDue(s: State, f: Failure): nat {
    if f.time < s.boot then 0
    else if f.time < s.boundary then if f.straddles then 2 else 1
    else if f.straddles && !(s.tick.Started? && f.time > s.tick.now) && !(s.tick.Queried? && f.time > s.tick.now) then 1
    else 0
  }

  ghost predicate Exact(s: State) {
    && s.boot <= s.boundary <= s.clock
    && (s.tick.Started? || s.tick.Queried? ==> s.boundary < s.tick.now <= s.clock)
    && (s.tick.Queried? ==> forall i {:trigger i in s.tick.taken} :: i in s.tick.taken ==> i < |s.failures|)
    && (forall i {:trigger s.failures[i]} :: 0 <= i < |s.failures| ==>
          && s.failures[i].time <= s.clock
          && (s.failures[i].straddles ==> s.boot <= s.failures[i].time)
          && s.failures[i].alerts == AlertsDue(s, s.failures[i])
          && (s.tick.Started? || s.tick.Queried? ==> s.failures[i].time != s.tick.now)
          && (s.tick.Started? && s.failures[i].time > s.tick.now ==> s.failures[i].straddles)
          && (s.tick.Queried? ==>
               (i in s.tick.taken <==>
                  s.boundary <= s.failures[i].time && (s.failures[i].time < s.tick.now || s.failures[i].straddles))))
  }

  lemma ExactKept(s: State, e: Event)
    requires Exact(s) && Enabled(s, e, true) && !e.Abort? && (e.Query? ==> |Matches(s)| <= SCAN_BATCH_LIMIT)
    ensures Exact(Next(s, e, true))
  {
    if e.Query? {
      SameSizeSubset(e.taken, Matches(s));
    }
  }

  lemma {:induction false} RunExact(s: State, es: seq<Event>, k: nat)
    requires Exact(s) && Legal(s, es, true) && SmallWindows(s, es, true) && NoAborts(es) && k <= |es|
    ensures Exact(At(s, es, true, k))
  {
    if k == 0 {
    } else {
      RunExact(s, es, k - 1);
      StepAt(s, es, true, k - 1);
      ExactKept(At(s, es, true, k - 1), es[k - 1]);
    }
  }

  /**
   With no aborted tick and a strict clock no failure is alerted more than twice, and a failure
   behind the boundary was alerted exactly once unless it fell between a tick's start and its query.
   */
  lemma OnceOrTwice(s: State, es: seq<Event>, i: nat)
    requires Boots(s) && Legal(s, es, true) && SmallWindows(s, es, true) && NoAborts(es)
    requires i < |Run(s, es, true).failures|
    ensures var t := Run(s, es, true);
      var f := t.failures[i];
      && f.alerts <= 2
      && (t.boot <= f.time < t.boundary ==> (f.alerts == 2 <==> f.straddles) && (f.alerts == 1 <==> !f.straddles))
  {
    RunExact(s, es, |es|);
    assert es[..|es|] == es;
  }

  // ---- what the limit loses ----

  /** The matches with a later write than one failure's. */
  function Newer(s: State, i: nat): set<nat>
    requires i < |s.failures|
  {
    set j | j in Matches(s) && s.failures[j].time > s.failures[i].time
  }

  /** No two rows were written at the same time, as a strict clock guarantees. */
  ghost predicate DistinctTimes(s: State) {
    forall i, j {:trigger s.failures[i], s.failures[j]} :: 0 <= i < j < |s.failures| ==>
      s.failures[i].time != s.failures[j].time
  }

  /** The query takes a matching row exactly when fewer rows than its limit are newer. */
  lemma TakenUnlessCutOff(s: State, taken: set<nat>, i: nat)
    requires DistinctTimes(s) && NewestOf(s, taken) && i in Matches(s)
    ensures i in taken <==> |Newer(s, i)| < SCAN_BATCH_LIMIT
  {
    if i in taken {
      assert Newer(s, i) <= taken;
      SubsetSize(Newer(s, i), taken);
    } else {
      SubsetSize(taken, Matches(s));
      assert |taken| == SCAN_BATCH_LIMIT;
      assert taken <= Newer(s, i);
      SubsetSize(taken, Newer(s, i));
    }
  }

  /** Behind the boundary nothing is alerted any more. */
  ghost predicate Behind(s: State, i: nat) {
    && i < |s.failures| && s.failures[i].time < s.boundary <= s.clock
    && (s.tick.Started? || s.tick.Queried? ==> s.boundary <= s.tick.now <= s.clock)
    && (s.tick.Queried? ==> i !in s.tick.taken)
  }

  lemma BehindStays(s: State, e: Event, strict: bool, i: nat)
    requires Behind(s, i) && Enabled(s, e, strict)
    ensures Behind(Next(s, e, strict), i) && Next(s, e, strict).failures[i] == s.failures[i]
  {
  }

  lemma {:induction false} BehindForever(s: State, es: seq<Event>, strict: bool, i: nat, first: nat, last: nat)
    requires Legal(s, es, strict) && first <= last <= |es| && Behind(At(s, es, strict, first), i)
    ensures Behind(At(s, es, strict, last), i)
    ensures At(s, es, strict, last).failures[i] == At(s, es, strict, first).failures[i]
    decreases last - first
  {
    if first == last {
    } else {
      BehindForever(s, es, strict, i, first, last - 1);
      StepAt(s, es, strict, last - 1);
      BehindStays(At(s, es, strict, last - 1), es[last - 1], strict, i);
    }
  }

  /** Between a query and the end of its tick only failures come, and they leave what is there alone. */
  lemma {:induction false} UntilFinish(s: State, es: seq<Event>, i: nat, query: nat, last: nat)
    requires Legal(s, es, true) && query < last <= |es| && es[query].Query? && i < |At(s, es, true, query).failures|
    requires forall k :: query < k < last ==> es[k].Fail?
    ensures var was, t := At(s, es, true, query), At(s, es, true, last);
      && i < |t.failures| && t.failures[i] == was.failures[i] && was.tick.Started?
      && t.tick == Queried(was.tick.now, es[query].taken) && t.boundary == was.boundary && t.clock >= was.clock
    decreases last - query
  {
    StepAt(s, es, true, last - 1);
    if last == query + 1 {
    } else {
      UntilFinish(s, es, i, query, last - 1);
    }
  }

  /**
   With a strict clock, a failure from before the start of a tick that completes, not alerted
   before, is lost for good exactly when at least fifty newer rows match as that tick's query runs.
   */
  lemma LostIffFiftyNewer(s: State, es: seq<Event>, query: nat, finish: nat, i: nat)
    requires Boots(s) && DistinctTimes(s) && Legal(s, es, true)
    requires query < finish < |es| && es[query].Query? && es[finish].Finish?
    requires forall k :: query < k < finish ==> es[k].Fail?
    requires var t := At(s, es, true, query);
      t.tick.Started? && i in Matches(t) && t.failures[i].time < t.tick.now && t.failures[i].alerts == 0
    ensures i < |Run(s, es, true).failures|
    ensures Run(s, es, true).failures[i].alerts == 0 <==> |Newer(At(s, es, true, query), i)| >= SCAN_BATCH_LIMIT
  {
    var t := At(s, es, true, query);
    ApartAt(s, es, query);
    StepAt(s, es, true, query);
    TakenUnlessCutOff(t, es[query].taken, i);
    UntilFinish(s, es, i, query, finish);
    FinishSettles(s, es, finish, i);
    BehindForever(s, es, true, i, finish + 1, |es|);
    assert es[..|es|] == es;
  }

  /** When the tick completes, the failure is behind the boundary, with one alert more if it was taken. */
  lemma FinishSettles(s: State, es: seq<Event>, finish: nat, i: nat)
    requires Legal(s, es, true) && finish < |es| && es[finish].Finish?
    requires var t := At(s, es, true, finish);
      && i < |t.failures| && t.tick.Queried? && t.failures[i].time < t.tick.now <= t.clock
    ensures var t, after := At(s, es, true, finish), At(s, es, true, finish + 1);
      && Behind(after, i)
      && after.failures[i].alerts == t.failures[i].alerts + if i in t.tick.taken then 1 else 0
  {
    StepAt(s, es, true, finish);
  }

  /** A strict clock keeps the times apart, and a tick's start between the boundary and now. */
  ghost predicate Apart(s: State) {
    && DistinctTimes(s)
    && (forall i {:trigger s.failures[i]} :: 0 <= i < |s.failures| ==> s.failures[i].time <= s.clock)
    && s.boundary <= s.clock && (!s.tick.Idle? ==> s.boundary <= s.tick.now <= s.clock)
  }

  lemma {:induction false} ApartAt(s: State, es: seq<Event>, k: nat)
    requires Boots(s) && DistinctTimes(s) && Legal(s, es, true) && k <= |es|
    ensures Apart(At(s, es, true, k))
  {
    if k == 0 {
    } else {
      ApartAt(s, es, k - 1);
      StepAt(s, es, true, k - 1);
      ApartKept(At(s, es, true, k - 1), es[k - 1]);
    }
  }

  lemma ApartKept(s: State, e: Event)
    requires Apart(s) && Enabled(s, e, true)
    ensures Apart(Next(s, e, true))
  {
  }

  // ---- both happen ----

  const QUIET: State := State([], 0, 0, Idle, 0)

  lemma Extend(s: State, es: seq<Event>, e: Event, t: State, t': State) returns (more: seq<Event>)
    requires Legal(s, es, true) && Run(s, es, true) == t && Enabled(t, e, true) && Next(t, e, true) == t'
    ensures more == es + [e] && Legal(s, more, true) && Run(s, more, true) == t'
  {
    more := es + [e];
    assert more[..|es|] == es;
  }

  /** Failures at the times 1 to n. */
  function Pile(n: nat): (fs: seq<Failure>)
    ensures |fs| == n && forall i :: 0 <= i < n ==> fs[i] == Failure(i + 1, false, 0)
  {
    seq(n, i requires 0 <= i < n => Failure(i + 1, false, 0))
  }

  lemma {:induction false} PileUp(n: nat) returns (es: seq<Event>)
    ensures Legal(QUIET, es, true) && Run(QUIET, es, true) == State(Pile(n), n, 0, Idle, 0)
  {
    if n == 0 {
      es := [];
      assert Pile(0) == [];
    } else {
      es := PileUp(n - 1);
      assert Pile(n) == Pile(n - 1) + [Failure(n, false, 0)];
      es := Extend(QUIET, es, Fail(n), State(Pile(n - 1), n - 1, 0, Idle, 0), State(Pile(n), n, 0, Idle, 0));
    }
  }

  function Between(a: nat, b: nat): (s: set<nat>)
    requires a <= b
    ensures forall i :: i in s <==> a <= i < b
    ensures |s| == b - a
    decreases b - a
  {
    if a == b then {} else Between(a, b - 1) + {b - 1}
  }

  /** With one failure more than the limit, the oldest is behind the boundary without an alert. */
  lemma FiftyOneFailuresLoseOne() returns (es: seq<Event>)
    ensures Boots(QUIET) && Legal(QUIET, es, true)
    ensures var t := Run(QUIET, es, true);
      t.tick.Idle? && |t.failures| == 51 && t.failures[0].alerts == 0 && t.failures[0].time < t.boundary
  {
    es := PileUp(51);
    var piled := State(Pile(51), 51, 0, Idle, 0);
    var started := piled.(tick := Started(52), clock := 52);
    es := Extend(QUIET, es, Start(52), piled, started);
    var taken := Between(1, 51);
    assert Matches(started) == Between(0, 51);
    assert NewestOf(started, taken);
    var queried := started.(tick := Queried(52, taken));
    es := Extend(QUIET, es, Query(taken), started, queried);
    es := Extend(QUIET, es, Finish, queried, Next(queried, Finish, true));
  }

  /** A failure between a tick's start and its query is alerted by that tick and by the next one. */
  lemma OneFailureAlertedTwice() returns (es: seq<Event>)
    ensures Boots(QUIET) && Legal(QUIET, es, true)
    ensures Run(QUIET, es, true) == State([Failure(2, true, 2)], 3, 3, Idle, 0)
  {
    var failed := State([Failure(2, true, 0)], 2, 0, Started(1), 0);
    es := Extend(QUIET, [], Start(1), QUIET, State([], 1, 0, Started(1), 0));
    es := Extend(QUIET, es, Fail(2), State([], 1, 0, Started(1), 0), failed);
    es := AlertOnce(es, failed, State([Failure(2, true, 1)], 2, 1, Idle, 0));
    var again := State([Failure(2, true, 1)], 3, 1, Started(3), 0);
    es := Extend(QUIET, es, Start(3), State([Failure(2, true, 1)], 2, 1, Idle, 0), again);
    es := AlertOnce(es, again, State([Failure(2, true, 2)], 3, 3, Idle, 0));
  }

  /** An alert that throws after some have gone out: the next tick sends those again. */
  lemma AbortedTickAlertsAgain() returns (es: seq<Event>)
    ensures Boots(QUIET) && Legal(QUIET, es, true) && SmallWindows(QUIET, es, true)
    ensures Run(QUIET, es, true) == State([Failure(1, false, 2)], 3, 3, Idle, 0)
  {
    var failed := State([Failure(1, false, 0)], 1, 0, Idle, 0);
    var started := failed.(clock := 2, tick := Started(2));
    var queried := started.(tick := Queried(2, {0}));
    var aborted := State([Failure(1, false, 1)], 2, 0, Idle, 0);
    es := Extend(QUIET, [], Fail(1), QUIET, failed);
    es := Extend(QUIET, es, Start(2), failed, started);
    assert Matches(started) == {0};
    es := Extend(QUIET, es, Query({0}), started, queried);
    assert Alerted(started.failures, {0}) == aborted.failures;
    es := Extend(QUIET, es, Abort({0}), queried, aborted);
    var again := aborted.(clock := 3, tick := Started(3));
    es := Extend(QUIET, es, Start(3), aborted, again);
    es := AlertOnce(es, again, State([Failure(1, false, 2)], 3, 3, Idle, 0));
    FewFailures(es);
  }

  /** With at most one failure in all, every window is small. */
  lemma FewFailures(es: seq<Event>)
    requires Legal(QUIET, es, true) && |Run(QUIET, es, true).failures| <= 1
    ensures SmallWindows(QUIET, es, true)
  {
    assert es[..|es|] == es;
    forall k | 0 <= k < |es| && es[k].Query?
      ensures |Matches(At(QUIET, es, true, k))| <= SCAN_BATCH_LIMIT
    {
      FailuresOnlyGrow(QUIET, es, k, |es|);
      SubsetSize(Matches(At(QUIET, es, true, k)), {0});
    }
  }

  lemma {:induction false} FailuresOnlyGrow(s: State, es: seq<Event>, first: nat, last: nat)
    requires Legal(s, es, true) && first <= last <= |es|
    ensures |At(s, es, true, first).failures| <= |At(s, es, true, last).failures|
    decreases last - first
  {
    if first == last {
    } else {
      FailuresOnlyGrow(s, es, first, last - 1);
      StepAt(s, es, true, last - 1);
    }
  }

  /** A started tick queries its one failure and completes. */
  lemma AlertOnce(es: seq<Event>, s: State, s': State) returns (more: seq<Event>)
    requires Legal(QUIET, es, true) && Run(QUIET, es, true) == s
    requires s.tick.Started? && |s.failures| == 1 && s.failures[0].time >= s.boundary
    requires s' == s.(failures := [s.failures[0].(alerts := s.failures[0].alerts + 1)], boundary := s.tick.now,
      tick := Idle)
    ensures Legal(QUIET, more, true) && Run(QUIET, more, true) == s'
  {
    assert Matches(s) == {0};
    var queried := s.(tick := Queried(s.tick.now, {0}));
    more := Extend(QUIET, es, Query({0}), s, queried);
    assert Alerted(s.failures, {0}) == s'.failures;
    more := Extend(QUIET, more, Finish, queried, s');
  }

  // ---- the worker's own state ----

  /** The worker's boundary, and the alerts it has sent, one line for each. */
  class FailureScan {
    var lastFailureScan: int
    var captured: seq<nat>

    constructor (bootTime: int, intervalMs: int)
      ensures lastFailureScan == bootTime - 4 * intervalMs && captured == []
    {
      lastFailureScan := bootTime - intervalMs * 4;
      captured := [];
    }

    /** The boundary is the model's, and each failure has as many lines as the model counts alerts. */
    ghost predicate Mirrors(s: State)
      reads this
    {
      && lastFailureScan == s.boundary
      && forall i {:trigger s.failures[i]} :: 0 <= i < |s.failures| ==> multiset(captured)[i] == s.failures[i].alerts
    }

    /**
     The alert part of a tick: the rows of its query, each alerted once. Without an answer, or when
     the alert of the row at `throwsAt` throws, the tick is aborted after the alerts sent by then.
     */
    method Alert(now: int, newFailures: Option<seq<nat>>, throwsAt: Option<nat>, ghost s: State, ghost strict: bool)
      returns (alerted: nat)
      requires Mirrors(s) && !s.tick.Idle?
      requires newFailures.Some? ==> s.tick.Queried? && s.tick.now == now && Lists(newFailures.value, s.tick.taken)
      modifies this
      ensures alerted == |captured| - |old(captured)|
      ensures Mirrors(Next(s, TickEnd(newFailures, throwsAt), strict))
    {
      alerted := 0;
      if newFailures.None? {
        return;
      }
      var rows := newFailures.value;
      while alerted < |rows| && throwsAt != Some(alerted)
        invariant alerted <= |rows| && captured == old(captured) + rows[..alerted]
        invariant throwsAt.Some? ==> alerted <= throwsAt.value
        invariant lastFailureScan == old(lastFailureScan)
      {
        captured := captured + [rows[alerted]];
        alerted := alerted + 1;
      }
      SentOnce(rows, alerted, s.failures, s.tick.taken);
      if alerted == |rows| {
        assert rows[..alerted] == rows;
        lastFailureScan := now;
      }
    }
  }

  /** The rows of a query, each once. */
  ghost predicate Lists(rows: seq<nat>, taken: set<nat>) {
    && (forall i :: i in rows <==> i in taken)
    && forall i, j :: 0 <= i < j < |rows| ==> rows[i] != rows[j]
  }

  function FirstRows(rows: seq<nat>, n: nat): set<nat>
    requires n <= |rows|
  {
    set i | i in rows[..n]
  }

  /** How a tick ends: completed, or aborted after so many alerts. */
  function TickEnd(newFailures: Option<seq<nat>>, throwsAt: Option<nat>): Event {
    if newFailures.None? then Abort({})
    else if throwsAt.Some? &&
      throwsAt.value < |newFailures.value| then Abort(FirstRows(newFailures.value, throwsAt.value))
    else Finish
  }

  /** Each of the first n rows was sent exactly once. */
  lemma SentOnce(rows: seq<nat>, n: nat, fs: seq<Failure>, taken: set<nat>)
    requires n <= |rows| && Lists(rows, taken)
    ensures forall i {:trigger fs[i]} :: 0 <= i < |fs| ==>
      multiset(rows[..n])[i] == if i in FirstRows(rows, n) then 1 else 0
    ensures n == |rows| ==> FirstRows(rows, n) == taken
    ensures FirstRows(rows, n) <= taken
  {
    forall i | 0 <= i < |fs|
      ensures multiset(rows[..n])[i] == if i in FirstRows(rows, n) then 1 else 0
    {
      OnceEach(rows[..n], i);
    }
    assert forall i :: i in rows[..n] ==> i in rows;
    assert n == |rows| ==> rows[..n] == rows;
  }

  lemma {:induction false} OnceEach(rows: seq<nat>, x: nat)
    requires forall i, j :: 0 <= i < j < |rows| ==> rows[i] != rows[j]
    ensures multiset(rows)[x] == if x in rows then 1 else 0
  {
    if |rows| == 0 {
    } else {
      var init := rows[..|rows| - 1];
      OnceEach(init, x);
      assert rows == init + [rows[|rows| - 1]];
    }
  }
}
