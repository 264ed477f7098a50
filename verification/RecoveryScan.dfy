/**
 The recovery worker's scan of positions stuck in indexing: the oldest fifty rows, in the order of
 their last update. A row with a stored signature is activated and leaves the queue; a row without
 one is not written at all, so it keeps its place.
 */
module RecoveryScan {
  import RecoveryWorker

  const SCAN_BATCH_LIMIT: nat := RecoveryWorker.SCAN_BATCH_LIMIT

  /** A stuck row, and whether the indexer holds a signature for it. */
  datatype Row = Row(id: nat, signed: bool)

  /** The rows that stay. */
  function Unsigned(rows: seq<Row>): (r: seq<Row>)
    ensures |r| <= |rows|
  {
    if |rows| == 0 then []
    else if rows[0].signed then Unsigned(rows[1..])
    else [rows[0]] + Unsigned(rows[1..])
  }

  function Batch(queue: seq<Row>): nat {
    if |queue| <= SCAN_BATCH_LIMIT then |queue| else SCAN_BATCH_LIMIT
  }

  /** The queue after one scan. */
  function AfterScan(queue: seq<Row>): seq<Row> {
    Unsigned(queue[..Batch(queue)]) + queue[Batch(queue)..]
  }

  /** The queue after so many scans, with rows that have become stuck in between queued up behind. */
  function AfterScans(queue: seq<Row>, arrivals: nat -> seq<Row>, n: nat): seq<Row> {
    if n == 0 then queue else AfterScan(AfterScans(queue, arrivals, n - 1)) + arrivals(n - 1)
  }

  /** One scan: the rows of the batch are visited in order, and the signed ones are activated. */
  method Scan(queue: seq<Row>) returns (rest: seq<Row>, advanced: seq<nat>)
    ensures rest == AfterScan(queue)
    ensures forall id :: id in advanced <==> Row(id, true) in queue[..Batch(queue)]
  {
    var batch := queue[..Batch(queue)];
    var kept: seq<Row> := [];
    advanced := [];
    for i := 0 to |batch|
      invariant kept == Unsigned(batch[..i])
      invariant forall id :: id in advanced <==> Row(id, true) in batch[..i]
    {
      UnsignedAppend(batch[..i], batch[i]);
      assert batch[..i + 1] == batch[..i] + [batch[i]];
      if batch[i].signed {
        advanced := advanced + [batch[i].id];
      } else {
        kept := kept + [batch[i]];
      }
    }
    assert batch[..|batch|] == batch;
    rest := kept + queue[Batch(queue)..];
  }

  lemma {:induction false} UnsignedAppend(rows: seq<Row>, row: Row)
    ensures Unsigned(rows + [row]) == Unsigned(rows) + if row.signed then [] else [row]
  {
    if |rows| == 0 {
      assert rows + [row] == [row];
    } else {
      assert (rows + [row])[1..] == rows[1..] + [row];
      UnsignedAppend(rows[1..], row);
    }
  }

  lemma {:induction false} UnsignedConcat(a: seq<Row>, b: seq<Row>)
    ensures Unsigned(a + b) == Unsigned(a) + Unsigned(b)
  {
    if |a| == 0 {
      assert a + b == b;
    } else {
      assert (a + b)[1..] == a[1..] + b;
      UnsignedConcat(a[1..], b);
    }
  }

  lemma {:induction false} UnsignedTwice(rows: seq<Row>)
    ensures Unsigned(Unsigned(rows)) == Unsigned(rows)
  {
    if |rows| == 0 {
    } else {
      UnsignedTwice(rows[1..]);
      if !rows[0].signed {
        assert Unsigned(rows)[1..] == Unsigned(rows[1..]);
      }
    }
  }

  /** Every unsigned row stays, as often as it is there, and no signed one does. */
  lemma {:induction false} UnsignedExactly(rows: seq<Row>, row: Row)
    ensures multiset(Unsigned(rows))[row] == if row.signed then 0 else multiset(rows)[row]
    ensures row in Unsigned(rows) <==> row in rows && !row.signed
  {
    if |rows| == 0 {
    } else {
      UnsignedExactly(rows[1..], row);
      assert rows == [rows[0]] + rows[1..];
      assert row in rows <==> row == rows[0] || row in rows[1..];
    }
  }

  // ---- who is ever visited ----

  /** The queue up to a row, and what is behind it. */
  ghost predicate Waits(queue: seq<Row>, ahead: seq<Row>, row: Row) {
    |ahead| < |queue| && queue[..|ahead|] == ahead && queue[|ahead|] == row
  }

  /** The rows ahead after one scan in which the row was not visited. */
  function AheadNext(ahead: seq<Row>): seq<Row>
    requires |ahead| >= SCAN_BATCH_LIMIT
  {
    Unsigned(ahead[..SCAN_BATCH_LIMIT]) + ahead[SCAN_BATCH_LIMIT..]
  }

  lemma ScanPasses(queue: seq<Row>, ahead: seq<Row>, row: Row, more: seq<Row>)
    requires Waits(queue, ahead, row) && |ahead| >= SCAN_BATCH_LIMIT
    ensures Waits(AfterScan(queue) + more, AheadNext(ahead), row)
  {
    var tail, kept := ahead[SCAN_BATCH_LIMIT..], Unsigned(ahead[..SCAN_BATCH_LIMIT]);
    var rest := queue[SCAN_BATCH_LIMIT..];
    assert queue[..SCAN_BATCH_LIMIT] == ahead[..SCAN_BATCH_LIMIT];
    assert rest[..|tail|] == tail && rest[|tail|] == row;
    assert AfterScan(queue) + more == kept + (rest + more);
    assert (kept + (rest + more))[..|kept| + |tail|] == kept + tail;
  }

  lemma SameUnsigned(ahead: seq<Row>)
    requires |ahead| >= SCAN_BATCH_LIMIT
    ensures Unsigned(AheadNext(ahead)) == Unsigned(ahead)
    ensures |Unsigned(ahead)| < SCAN_BATCH_LIMIT ==> |AheadNext(ahead)| < |ahead|
  {
    var head, tail := ahead[..SCAN_BATCH_LIMIT], ahead[SCAN_BATCH_LIMIT..];
    assert ahead == head + tail;
    UnsignedConcat(head, tail);
    UnsignedConcat(Unsigned(head), tail);
    UnsignedTwice(head);
  }

  lemma NotInBatch(queue: seq<Row>, ahead: seq<Row>, row: Row)
    requires Waits(queue, ahead, row) && |ahead| >= SCAN_BATCH_LIMIT && row !in ahead
    ensures row !in queue[..Batch(queue)]
  {
    assert queue[..SCAN_BATCH_LIMIT] == ahead[..SCAN_BATCH_LIMIT];
  }

  /** While fifty unsigned rows are ahead, a row is never visited, however many scans there are. */
  lemma {:induction false} NeverReached(queue: seq<Row>, ahead: seq<Row>, row: Row, arrivals: nat -> seq<Row>, n: nat)
      returns (now: seq<Row>)
    requires Waits(queue, ahead, row) && |Unsigned(ahead)| >= SCAN_BATCH_LIMIT && row !in ahead
    ensures Waits(AfterScans(queue, arrivals, n), now, row) && row !in now
    ensures |now| >= SCAN_BATCH_LIMIT && Unsigned(now) == Unsigned(ahead)
  {
    if n == 0 {
      now := ahead;
    } else {
      var was := NeverReached(queue, ahead, row, arrivals, n - 1);
      ScanPasses(AfterScans(queue, arrivals, n - 1), was, row, arrivals(n - 1));
      SameUnsigned(was);
      now := AheadNext(was);
      UnsignedExactly(was[..SCAN_BATCH_LIMIT], row);
    }
  }

  /** With fewer unsigned rows ahead, each scan lets it move up until it is in the batch. */
  lemma {:induction false} Reached(queue: seq<Row>, row: Row, arrivals: nat -> seq<Row>, n: nat, was: seq<Row>)
      returns (k: nat, now: seq<Row>)
    requires Waits(AfterScans(queue, arrivals, n), was, row) && |Unsigned(was)| < SCAN_BATCH_LIMIT
    ensures n <= k && Waits(AfterScans(queue, arrivals, k), now, row) && |now| < SCAN_BATCH_LIMIT
    decreases |was|
  {
    if |was| < SCAN_BATCH_LIMIT {
      k, now := n, was;
    } else {
      ScanPasses(AfterScans(queue, arrivals, n), was, row, arrivals(n));
      SameUnsigned(was);
      k, now := Reached(queue, row, arrivals, n + 1, AheadNext(was));
    }
  }

  /** The row is in the batch of the scan that follows the first n, with its place in the queue. */
  ghost predicate VisitedAfter(queue: seq<Row>, arrivals: nat -> seq<Row>, row: Row, n: nat) {
    row in AfterScans(queue, arrivals, n)[..Batch(AfterScans(queue, arrivals, n))]
  }

  /**
   The scan starves: as long as nothing but the worker touches the rows, a stuck row is visited at
   some scan exactly when fewer than fifty rows without a signature are ahead of it.
   */
  lemma VisitedIffFewUnsignedAhead(queue: seq<Row>, ahead: seq<Row>, row: Row, arrivals: nat -> seq<Row>)
    requires Waits(queue, ahead, row) && row !in ahead
    ensures (exists n :: VisitedAfter(queue, arrivals, row, n)) <==> |Unsigned(ahead)| < SCAN_BATCH_LIMIT
  {
    if |Unsigned(ahead)| < SCAN_BATCH_LIMIT {
      var k, now := Reached(queue, row, arrivals, 0, ahead);
      var q := AfterScans(queue, arrivals, k);
      assert q[..Batch(q)][|now|] == row;
      assert VisitedAfter(queue, arrivals, row, k);
    } else {
      forall n | VisitedAfter(queue, arrivals, row, n)
        ensures false
      {
        var now := NeverReached(queue, ahead, row, arrivals, n);
        NotInBatch(AfterScans(queue, arrivals, n), now, row);
      }
    }
  }
}
