/** The per-address fixed-window limiter: collection is invisible, and bursts are bounded. */
module RateLimiter {

  type Address = nat

  datatype Bucket = Bucket(count: nat, resetAt: int)

  type Buckets = map<Address, Bucket>

  /** The window of the address is still open at this time. */
  predicate Open(b: Buckets, ip: Address, now: int) {
    ip in b && b[ip].resetAt > now
  }

  /** Whether a request is let through, and the buckets afterwards. */
  function Admits(b: Buckets, ip: Address, now: int, max: nat): bool {
    !Open(b, ip, now) || b[ip].count < max
  }

  function AfterRequest(b: Buckets, ip: Address, now: int, windowMs: int, max: nat): Buckets {
    if !Open(b, ip, now) then b[ip := Bucket(1, now + windowMs)]
    else if b[ip].count >= max then b
    else b[ip := b[ip].(count := b[ip].count + 1)]
  }

  function AfterCollection(b: Buckets, now: int): Buckets {
    map ip | ip in b && b[ip].resetAt > now :: b[ip]
  }

  class Limiter {
    const windowMs: int
    const max: nat
    var buckets: Buckets

    constructor (windowMs: int, max: nat)
      ensures this.windowMs == windowMs && this.max == max && buckets == map[]
    {
      this.windowMs, this.max := windowMs, max;
      buckets := map[];
    }

    /** One request; a refusal answers 429 and leaves the table alone. */
    method Handle(ip: Address, now: int) returns (admitted: bool)
      modifies this
      ensures admitted == Admits(old(buckets), ip, now, max)
      ensures buckets == AfterRequest(old(buckets), ip, now, windowMs, max)
    {
      if ip !in buckets || buckets[ip].resetAt <= now {
        buckets := buckets[ip := Bucket(1, now + windowMs)];
        return true;
      }
      var bucket := buckets[ip];
      if bucket.count >= max {
        return false;
      }
      buckets := buckets[ip := bucket.(count := bucket.count + 1)];
      return true;
    }

    /** One pass of the collector. */
    method Collect(now: int)
      modifies this
      ensures buckets == AfterCollection(old(buckets), now)
    {
      var todo := buckets.Keys;
      while todo != {}
        invariant todo <= old(buckets).Keys
        invariant buckets == map ip | ip in old(buckets) &&
          (ip in todo || old(buckets)[ip].resetAt > now) :: old(buckets)[ip]
      {
        var ip :| ip in todo;
        todo := todo - {ip};
        if buckets[ip].resetAt <= now {
          buckets := buckets - {ip};
        }
      }
    }
  }

  // ---- runs ----

  datatype Event = Request(ip: Address, now: int) | Collection(now: int)

  /** Times do not go backwards. */
  predicate Monotone(es: seq<Event>) {
    forall i, j :: 0 <= i < j < |es| ==> es[i].now <= es[j].now
  }

  function Run(es: seq<Event>, windowMs: int, max: nat): Buckets {
    if |es| == 0 then map[]
    else
      var before := Run(es[..|es| - 1], windowMs, max);
      match es[|es| - 1]
      case Request(ip, now) => AfterRequest(before, ip, now, windowMs, max)
      case Collection(now) => AfterCollection(before, now)
  }

  /** The verdicts on the requests of a run, in order. */
  function Verdicts(es: seq<Event>, windowMs: int, max: nat): seq<bool> {
    if |es| == 0 then []
    else
      var before := es[..|es| - 1];
      match es[|es| - 1]
      case Request(ip, now) => Verdicts(before, windowMs, max) + [Admits(Run(before, windowMs, max), ip, now, max)]
      case Collection(_) => Verdicts(before, windowMs, max)
  }

  function WithoutCollections(es: seq<Event>): seq<Event> {
    if |es| == 0 then []
    else if es[|es| - 1].Collection? then WithoutCollections(es[..|es| - 1])
    else WithoutCollections(es[..|es| - 1]) + [es[|es| - 1]]
  }

  /** Two tables that agree on every window still open. */
  ghost predicate SameOpen(a: Buckets, b: Buckets, now: int) {
    forall ip {:trigger Open(a, ip, now)} {:trigger Open(b, ip, now)} ::
      (Open(a, ip, now) <==> Open(b, ip, now)) && (Open(a, ip, now) ==> a[ip] == b[ip])
  }

  lemma RequestKeepsSameOpen(a: Buckets, b: Buckets, ip: Address, now: int, windowMs: int, max: nat)
    requires SameOpen(a, b, now)
    ensures Admits(a, ip, now, max) == Admits(b, ip, now, max)
    ensures SameOpen(AfterRequest(a, ip, now, windowMs, max), AfterRequest(b, ip, now, windowMs, max), now)
  {
    var a', b' := AfterRequest(a, ip, now, windowMs, max), AfterRequest(b, ip, now, windowMs, max);
    assert Open(a, ip, now) == Open(b, ip, now);
    forall x
      ensures (Open(a', x, now) <==> Open(b', x, now)) && (Open(a', x, now) ==> a'[x] == b'[x])
    {
      assert Open(a, x, now) == Open(b, x, now);
    }
  }

  lemma SameOpenLater(a: Buckets, b: Buckets, now: int, later: int)
    requires SameOpen(a, b, now) && now <= later
    ensures SameOpen(a, b, later)
  {
    forall x
      ensures (Open(a, x, later) <==> Open(b, x, later)) && (Open(a, x, later) ==> a[x] == b[x])
    {
      assert Open(a, x, now) == Open(b, x, now);
    }
  }

  /**
   With a clock that does not go back, collecting expired buckets at any times whatever changes
   no verdict: the run and the same run without its collections admit the same requests.
   */
  lemma {:induction false} CollectionIsInvisible(es: seq<Event>, windowMs: int, max: nat)
    requires Monotone(es)
    ensures Verdicts(es, windowMs, max) == Verdicts(WithoutCollections(es), windowMs, max)
    ensures |es| > 0 ==> SameOpen(Run(es, windowMs, max), Run(WithoutCollections(es), windowMs, max), es[|es| - 1].now)
  {
    if |es| == 0 {
    } else {
      var before, e := es[..|es| - 1], es[|es| - 1];
      CollectionIsInvisible(before, windowMs, max);
      var a, b := Run(before, windowMs, max), Run(WithoutCollections(before), windowMs, max);
      if |before| > 0 {
        SameOpenLater(a, b, before[|before| - 1].now, e.now);
      }
      assert SameOpen(a, b, e.now);
      match e
      case Request(ip, now) =>
        RequestKeepsSameOpen(a, b, ip, now, windowMs, max);
        var kept := WithoutCollections(before);
        assert (kept + [e])[..|kept|] == kept;
      case Collection(now) =>
        forall x
          ensures (Open(AfterCollection(a, now), x, now) <==> Open(b, x, now))
               && (Open(AfterCollection(a, now), x, now) ==> AfterCollection(a, now)[x] == b[x])
        {
          assert Open(a, x, now) == Open(b, x, now);
        }
    }
  }

  // ---- burst bound ----

  /** Admitted requests of one address with times in [from, to). */
  function AdmittedIn(es: seq<Event>, windowMs: int, max: nat, ip: Address, from: int, to: int): nat {
    if |es| == 0 then 0
    else
      var before, e := es[..|es| - 1], es[|es| - 1];
      var counts :=
        e.Request? && e.ip == ip && from <= e.now < to && Admits(Run(before, windowMs, max), ip, e.now, max);
      AdmittedIn(before, windowMs, max, ip, from, to) + if counts then 1 else 0
  }

  function Cap(max: nat): nat {
    if max == 0 then 1 else max
  }

  /** Collections do not change the number admitted either. */
  lemma {:induction false} SameAdmitted(es: seq<Event>, windowMs: int, max: nat, ip: Address, from: int, to: int)
    requires Monotone(es)
    ensures AdmittedIn(es, windowMs, max, ip, from, to) ==
      AdmittedIn(WithoutCollections(es), windowMs, max, ip, from, to)
  {
    if |es| == 0 {
    } else {
      var before, e := es[..|es| - 1], es[|es| - 1];
      SameAdmitted(before, windowMs, max, ip, from, to);
      CollectionIsInvisible(before, windowMs, max);
      if e.Request? {
        var kept := WithoutCollections(before);
        assert (kept + [e])[..|kept|] == kept;
        var a, b := Run(before, windowMs, max), Run(kept, windowMs, max);
        if |before| > 0 {
          SameOpenLater(a, b, before[|before| - 1].now, e.now);
        }
        RequestKeepsSameOpen(a, b, e.ip, e.now, windowMs, max);
      }
    }
  }

  predicate OnlyRequests(es: seq<Event>) {
    forall i :: 0 <= i < |es| ==> es[i].Request?
  }

  lemma {:induction false} CollectionsRemoved(es: seq<Event>)
    requires Monotone(es)
    ensures OnlyRequests(WithoutCollections(es)) && Monotone(WithoutCollections(es))
    ensures |WithoutCollections(es)| > 0 ==>
      |es| > 0 && WithoutCollections(es)[|WithoutCollections(es)| - 1].now <= es[|es| - 1].now
  {
    if |es| == 0 {
    } else {
      CollectionsRemoved(es[..|es| - 1]);
    }
  }

  /** Before the interval begins nothing has been admitted in it. */
  lemma {:induction false} NoneBefore(es: seq<Event>, windowMs: int, max: nat, ip: Address, from: int, to: int)
    requires Monotone(es) && (|es| > 0 ==> es[|es| - 1].now < from)
    ensures AdmittedIn(es, windowMs, max, ip, from, to) == 0
  {
    if |es| == 0 {
    } else {
      NoneBefore(es[..|es| - 1], windowMs, max, ip, from, to);
    }
  }

  /**
   What the latest window of an address says about an interval no longer than the window. The
   request that opened a window starting before the interval is itself outside it.
   */
  ghost predicate Accounted(b: Buckets, n: nat, now: int, windowMs: int, max: nat, ip: Address, from: int, to: int) {
    if ip !in b then n == 0
    else
      var start := b[ip].resetAt - windowMs;
      && start <= now
      && 1 <= b[ip].count <= Cap(max)
      && (start < from ==> n <= b[ip].count - 1)
      && (from <= start < to ==> n <= Cap(max) - 1 + b[ip].count)
      && n <= 2 * Cap(max) - 1
  }

  lemma {:induction false} RequestsAccounted(es: seq<Event>, windowMs: int, max: nat, ip: Address, from: int, to: int)
    requires Monotone(es) && OnlyRequests(es) && to <= from + windowMs
    ensures AdmittedIn(es, windowMs, max, ip, from, to) <= 2 * Cap(max) - 1
    ensures |es| > 0 ==>
      Accounted(Run(es, windowMs, max), AdmittedIn(es, windowMs, max, ip, from, to), es[|es| - 1].now, windowMs, max,
        ip, from, to)
  {
    if |es| == 0 {
    } else {
      var before, e := es[..|es| - 1], es[|es| - 1];
      RequestsAccounted(before, windowMs, max, ip, from, to);
      if e.now < from {
        NoneBefore(es, windowMs, max, ip, from, to);
      }
    }
  }

  /**
   In any run with a clock that does not go back, whatever the collections, no half-open interval
   of one window length sees more than 2 max - 1 admissions of one address (max counted as at
   least 1, since the first request of a window is never refused).
   */
  lemma BurstBound(es: seq<Event>, windowMs: int, max: nat, ip: Address, from: int)
    requires Monotone(es)
    ensures AdmittedIn(es, windowMs, max, ip, from, from + windowMs) <= 2 * Cap(max) - 1
  {
    var to, kept := from + windowMs, WithoutCollections(es);
    SameAdmitted(es, windowMs, max, ip, from, to);
    CollectionsRemoved(es);
    RequestsAccounted(kept, windowMs, max, ip, from, to);
  }

  function Repeat(ip: Address, now: int, k: nat): seq<Event> {
    seq(k, _ => Request(ip, now))
  }

  /** Requests of one moment fill up an open window one by one. */
  lemma {:induction false} FillsUp(
      es: seq<Event>, k: nat, windowMs: int, max: nat, ip: Address, now: int, from: int, to: int)
    requires Open(Run(es, windowMs, max), ip, now) && Run(es, windowMs, max)[ip].count + k <= max
    requires from <= now < to
    ensures
      var b := Run(es, windowMs, max)[ip];
      var es' := es + Repeat(ip, now, k);
      && ip in Run(es', windowMs, max) && Run(es', windowMs, max)[ip] == Bucket(b.count + k, b.resetAt)
      && AdmittedIn(es', windowMs, max, ip, from, to) == AdmittedIn(es, windowMs, max, ip, from, to) + k
  {
    if k == 0 {
      assert es + Repeat(ip, now, 0) == es;
    } else {
      FillsUp(es, k - 1, windowMs, max, ip, now, from, to);
      var es' := es + Repeat(ip, now, k);
      assert es'[..|es'| - 1] == es + Repeat(ip, now, k - 1);
      assert es'[|es'| - 1] == Request(ip, now);
    }
  }

  /** The run that meets the bound: one request, the rest of the window late, a full next window at once. */
  function WorstRun(ip: Address, windowMs: int, max: nat): seq<Event>
    requires max >= 1
  {
    [] + [Request(ip, 0)] + Repeat(ip, windowMs - 1, max - 1) + [Request(ip, windowMs)] + Repeat(ip, windowMs, max - 1)
  }

  /** A request of a closed window opens a new one and is admitted. */
  lemma OpensWindow(es: seq<Event>, windowMs: int, max: nat, ip: Address, now: int, from: int, to: int)
    requires !Open(Run(es, windowMs, max), ip, now)
    ensures
      var es' := es + [Request(ip, now)];
      && ip in Run(es', windowMs, max) && Run(es', windowMs, max)[ip] == Bucket(1, now + windowMs)
      && AdmittedIn(es', windowMs, max, ip, from, to)
         == AdmittedIn(es, windowMs, max, ip, from, to) + if from <= now < to then 1 else 0
  {
    var es' := es + [Request(ip, now)];
    assert es'[..|es'| - 1] == es;
  }

  lemma WorstRunMonotone(ip: Address, windowMs: int, max: nat)
    requires windowMs >= 2 && max >= 1
    ensures Monotone(WorstRun(ip, windowMs, max))
  {
    var es := WorstRun(ip, windowMs, max);
    assert forall i :: 0 <= i < |es| ==> es[i].now == if i == 0 then 0 else if i < max then windowMs - 1 else windowMs;
  }

  /** The bound is attained. */
  lemma BurstBoundIsTight(ip: Address, windowMs: int, max: nat)
    requires windowMs >= 2 && max >= 1
    ensures Monotone(WorstRun(ip, windowMs, max))
    ensures AdmittedIn(WorstRun(ip, windowMs, max), windowMs, max, ip, 1, 1 + windowMs) == 2 * max - 1
  {
    var w, to := windowMs, 1 + windowMs;
    WorstRunMonotone(ip, w, max);
    OpensWindow([], w, max, ip, 0, 1, to);
    var one := [] + [Request(ip, 0)];
    FillsUp(one, max - 1, w, max, ip, w - 1, 1, to);
    OpensThenFills(one + Repeat(ip, w - 1, max - 1), w, max, ip, w, 1, to);
  }

  lemma OpensThenFills(es: seq<Event>, windowMs: int, max: nat, ip: Address, now: int, from: int, to: int)
    requires !Open(Run(es, windowMs, max), ip, now) && from <= now < to && max >= 1 && windowMs >= 1
    ensures AdmittedIn(es + [Request(ip, now)] + Repeat(ip, now, max - 1), windowMs, max, ip, from, to)
         == AdmittedIn(es, windowMs, max, ip, from, to) + max
  {
    OpensWindow(es, windowMs, max, ip, now, from, to);
    FillsUp(es + [Request(ip, now)], max - 1, windowMs, max, ip, now, from, to);
  }

  // ---- when a request is refused ----

  /** The j-th event is a request of this address that is let through. */
  predicate AdmittedAt(es: seq<Event>, windowMs: int, max: nat, ip: Address, j: nat)
    requires j < |es|
  {
    es[j].Request? && es[j].ip == ip && Admits(Run(es[..j], windowMs, max), ip, es[j].now, max)
  }

  /** How many requests of an address are let through from the j-th event on. */
  function AdmittedFrom(es: seq<Event>, windowMs: int, max: nat, ip: Address, j: nat): nat {
    if |es| <= j then 0
    else
      AdmittedFrom(es[..|es| - 1], windowMs, max, ip, j)
      + if AdmittedAt(es, windowMs, max, ip, |es| - 1) then 1 else 0
  }

  /** The j-th event is a request that finds no open window and starts one. */
  predicate OpensAt(es: seq<Event>, windowMs: int, max: nat, ip: Address, j: nat) {
    && j < |es| && es[j].Request? && es[j].ip == ip
    && !Open(Run(es[..j], windowMs, max), ip, es[j].now)
  }

  /** A bucket's window was started by a request of its address, and its count is what was let through since. */
  lemma {:induction false} BucketMeans(es: seq<Event>, windowMs: int, max: nat, ip: Address) returns (j: nat)
    requires ip in Run(es, windowMs, max)
    ensures OpensAt(es, windowMs, max, ip, j)
    ensures Run(es, windowMs, max)[ip] == Bucket(AdmittedFrom(es, windowMs, max, ip, j), es[j].now + windowMs)
  {
    var n := |es| - 1;
    var before, e := es[..n], es[n];
    var b := Run(before, windowMs, max);
    if e.Request? && e.ip == ip && !Open(b, ip, e.now) {
      j := n;
      assert AdmittedFrom(before, windowMs, max, ip, n) == 0;
    } else {
      j := BucketMeans(before, windowMs, max, ip);
      assert before[..j] == es[..j];
    }
  }

  /** All that is let through from an event on falls between its time and the last. */
  lemma {:induction false} FromWithinInterval(
      es: seq<Event>, windowMs: int, max: nat, ip: Address, j: nat, from: int, to: int)
    requires j < |es| && Monotone(es) && from <= es[j].now && es[|es| - 1].now < to
    ensures AdmittedFrom(es, windowMs, max, ip, j) <= AdmittedIn(es, windowMs, max, ip, from, to)
  {
    var n := |es| - 1;
    if j == n {
      assert AdmittedFrom(es[..n], windowMs, max, ip, n) == 0;
    } else {
      FromWithinInterval(es[..n], windowMs, max, ip, j, from, to);
    }
  }

  /**
   The refusal law. A request is refused only if a window is open that a request of the address
   started less than `windowMs` before, and in which at least `max` requests were let through. So an
   address with fewer than `max` admissions in the last `windowMs` is let through, however often it
   was refused meanwhile.
   */
  lemma RefusedOnlyWhenFull(es: seq<Event>, windowMs: int, max: nat, ip: Address, now: int) returns (j: nat)
    requires Monotone(es + [Request(ip, now)]) && !Admits(Run(es, windowMs, max), ip, now, max)
    ensures OpensAt(es, windowMs, max, ip, j) && AdmittedAt(es, windowMs, max, ip, j)
    ensures now - windowMs < es[j].now <= now && AdmittedFrom(es, windowMs, max, ip, j) >= max
    ensures AdmittedIn(es, windowMs, max, ip, now - windowMs + 1, now + 1) >= max
  {
    j := BucketMeans(es, windowMs, max, ip);
    var all := es + [Request(ip, now)];
    assert all[|es|] == Request(ip, now);
    assert forall i :: 0 <= i < |es| ==> all[i] == es[i];
    FromWithinInterval(es, windowMs, max, ip, j, now - windowMs + 1, now + 1);
  }

  /** A collection drops exactly the windows that are over. */
  lemma CollectionDropsExpired(b: Buckets, now: int, ip: Address)
    ensures ip in AfterCollection(b, now) <==> Open(b, ip, now)
    ensures ip in AfterCollection(b, now) ==> AfterCollection(b, now)[ip] == b[ip]
  {
  }

  /** One admission per window: a client that retries all the time is let through again when the window is over. */
  lemma RetriesAreLetThrough(windowMs: int, max: nat, ip: Address, retries: nat)
    requires windowMs > 1 && max >= 1
    ensures var es := Repeat(ip, 0, max) + Repeat(ip, windowMs - 1, retries);
      && Admits(Run(es, windowMs, max), ip, windowMs, max)
      && !Admits(Run(es, windowMs, max), ip, windowMs - 1, max)
  {
    Filled(windowMs, max, ip, max);
    StaysFull(windowMs, max, ip, retries);
  }

  lemma {:induction false} Filled(windowMs: int, max: nat, ip: Address, k: nat)
    requires windowMs > 1 && 1 <= k <= max
    ensures Run(Repeat(ip, 0, k), windowMs, max) == map[ip := Bucket(k, windowMs)]
  {
    var es := Repeat(ip, 0, k);
    assert es[..k - 1] == Repeat(ip, 0, k - 1);
    if k == 1 {
      assert Run(es[..0], windowMs, max) == map[];
    } else {
      Filled(windowMs, max, ip, k - 1);
    }
  }

  lemma {:induction false} StaysFull(windowMs: int, max: nat, ip: Address, k: nat)
    requires windowMs > 1 && max >= 1 && Run(Repeat(ip, 0, max), windowMs, max) == map[ip := Bucket(max, windowMs)]
    ensures Run(Repeat(ip, 0, max) + Repeat(ip, windowMs - 1, k), windowMs, max) == map[ip := Bucket(max, windowMs)]
  {
    var es := Repeat(ip, 0, max) + Repeat(ip, windowMs - 1, k);
    if k == 0 {
      assert es == Repeat(ip, 0, max);
    } else {
      StaysFull(windowMs, max, ip, k - 1);
      assert es[..|es| - 1] == Repeat(ip, 0, max) + Repeat(ip, windowMs - 1, k - 1);
    }
  }
}
