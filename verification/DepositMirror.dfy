/**
 The API's mirror of the pool: deposits and spent nullifiers, fed by re-scans of the chain's logs
 and by confirmations, in any order. What a client rebuilds from it is the pool's own tree.
 */
module DepositMirror {
  import opened Bytes
  import opened MerkleTree
  import RootHistory
  import MixerPool

  datatype DepositRecord = DepositRecord(commitment: nat, leafIndex: nat, txSignature: nat)

  /** The cache: deposits in insertion order, one per commitment, and the known nullifiers. */
  datatype Mirror = Mirror(deposits: seq<DepositRecord>, nullifiers: set<nat>)

  datatype PoolEvent = DepositSeen(commitment: nat, leafIndex: nat) | WithdrawSeen(nullifier: nat) | Unrecognised

  /** An event and the transaction it was found in. */
  datatype Sighting = Sighting(event: PoolEvent, txSignature: nat)

  // ---- payloads ----

  type Tag = b: seq<Byte> | |b| == 8 witness seq(8, _ => 0)

  /** Reads one logged payload; too short or unknown payloads are skipped. */
  function Decode(payload: seq<Byte>, depositTag: Tag, withdrawTag: Option<Tag>): PoolEvent {
    if |payload| < 40 then Unrecognised
    else if payload[..8] == depositTag then
      if |payload| < 44 then Unrecognised
      else DepositSeen(FromBe(payload[8..40]), FromLe(payload[40..44]))
    else if withdrawTag.Some? && payload[..8] == withdrawTag.value then WithdrawSeen(FromBe(payload[8..40]))
    else Unrecognised
  }

  /** What the program logs on a deposit. */
  function DepositPayload(tag: Tag, commitment: Bytes32, leafIndex: nat, timestamp: seq<Byte>): seq<Byte> {
    tag + commitment + ToLe(leafIndex, 4) + timestamp
  }

  /** What the program logs on a withdrawal; the rest is recipient, relayer, fee and time. */
  function WithdrawPayload(tag: Tag, nullifier: Bytes32, rest: seq<Byte>): seq<Byte> {
    tag + nullifier + rest
  }

  /** Four fields side by side are cut out again. */
  lemma Fields(a: seq<Byte>, b: seq<Byte>, c: seq<Byte>, d: seq<Byte>)
    requires |a| == 8 && |b| == 32
    ensures (a + b + c + d)[..8] == a && (a + b + c + d)[8..40] == b && (a + b + c + d)[40..40 + |c|] == c
  {
  }

  /** What the program logged is read back exactly, with a 32-bit leaf index. */
  lemma DepositReadsBack(
      depositTag: Tag, withdrawTag: Option<Tag>, commitment: nat, leafIndex: nat, timestamp: seq<Byte>)
    requires commitment < Pow256(32) && leafIndex < Pow256(4)
    ensures Decode(DepositPayload(depositTag, ToBe(commitment, 32), leafIndex, timestamp), depositTag, withdrawTag)
         == DepositSeen(commitment, leafIndex)
  {
    Fields(depositTag, ToBe(commitment, 32), ToLe(leafIndex, 4), timestamp);
    FromBeToBe(commitment, 32);
    FromLeToLe(leafIndex, 4);
  }

  lemma WithdrawReadsBack(depositTag: Tag, withdrawTag: Tag, nullifier: nat, rest: seq<Byte>)
    requires depositTag != withdrawTag && nullifier < Pow256(32)
    ensures Decode(WithdrawPayload(withdrawTag, ToBe(nullifier, 32), rest), depositTag, Some(withdrawTag))
         == WithdrawSeen(nullifier)
  {
    Fields(withdrawTag, ToBe(nullifier, 32), rest, []);
    assert withdrawTag + ToBe(nullifier, 32) + rest + [] == WithdrawPayload(withdrawTag, ToBe(nullifier, 32), rest);
    FromBeToBe(nullifier, 32);
  }

  /** Where the fields of a logged deposit stand. */
  lemma DepositPayloadLayout(tag: Tag, commitment: Bytes32, leafIndex: nat, timestamp: seq<Byte>)
    ensures var p := DepositPayload(tag, commitment, leafIndex, timestamp);
      && |p| == 44 + |timestamp| && p[..8] == tag && p[8..40] == commitment
      && p[40..44] == ToLe(leafIndex, 4) && p[44..] == timestamp
  {
  }

  /** Nothing reads as a deposit but what a deposit logs, whatever follows it. */
  lemma OnlyDepositsRead(payload: seq<Byte>, depositTag: Tag, withdrawTag: Option<Tag>)
    requires Decode(payload, depositTag, withdrawTag).DepositSeen?
    ensures var e := Decode(payload, depositTag, withdrawTag);
      && e.commitment < Pow256(32) && e.leafIndex < Pow256(4)
      && payload == DepositPayload(depositTag, ToBe(e.commitment, 32), e.leafIndex, payload[44..])
  {
    var c, l := payload[8..40], payload[40..44];
    FromBeBound(c);
    ToBeFromBe(c);
    LeBound4(l);
    assert payload == depositTag + c + l + payload[44..];
  }

  lemma LeBound4(l: seq<Byte>)
    requires |l| == 4
    ensures FromLe(l) < Pow256(4) && ToLe(FromLe(l), 4) == l
  {
    ToLeFromLe(l);
    FromLeBelow(l);
  }

  lemma {:induction false} ToLeFromLe(b: seq<Byte>)
    ensures ToLe(FromLe(b), |b|) == b
  {
    if |b| == 0 {
    } else {
      ToLeFromLe(b[1..]);
      assert FromLe(b) / 256 == FromLe(b[1..]);
      assert b == [b[0]] + b[1..];
    }
  }

  lemma {:induction false} FromLeBelow(b: seq<Byte>)
    ensures FromLe(b) < Pow256(|b|)
  {
    if |b| == 0 {
    } else {
      FromLeBelow(b[1..]);
    }
  }

  /** Nothing reads as a withdrawal but what starts as one. */
  lemma OnlyWithdrawalsRead(payload: seq<Byte>, depositTag: Tag, withdrawTag: Option<Tag>)
    requires Decode(payload, depositTag, withdrawTag).WithdrawSeen?
    ensures withdrawTag.Some? && depositTag != withdrawTag.value
    ensures var n := Decode(payload, depositTag, withdrawTag).nullifier;
      n < Pow256(32) && payload == WithdrawPayload(withdrawTag.value, ToBe(n, 32), payload[40..])
  {
    FromBeBound(payload[8..40]);
    ToBeFromBe(payload[8..40]);
    assert payload == payload[..8] + payload[8..40] + payload[40..];
  }

  // ---- the cache ----

  predicate Known(ds: seq<DepositRecord>, commitment: nat) {
    exists i :: 0 <= i < |ds| && ds[i].commitment == commitment
  }

  /** The first record of a commitment wins. */
  function Upsert(ds: seq<DepositRecord>, r: DepositRecord): seq<DepositRecord> {
    if Known(ds, r.commitment) then ds else ds + [r]
  }

  function Absorb(m: Mirror, s: Sighting): Mirror {
    match s.event
    case DepositSeen(c, leaf) => m.(deposits := Upsert(m.deposits, DepositRecord(c, leaf, s.txSignature)))
    case WithdrawSeen(n) => m.(nullifiers := m.nullifiers + {n})
    case Unrecognised => m
  }

  function AbsorbAll(m: Mirror, ss: seq<Sighting>): Mirror {
    if |ss| == 0 then m else Absorb(AbsorbAll(m, ss[..|ss| - 1]), ss[|ss| - 1])
  }

  ghost predicate OnePerCommitment(ds: seq<DepositRecord>) {
    forall i, j :: 0 <= i < j < |ds| ==> ds[i].commitment != ds[j].commitment
  }

  /** Every record names the leaf its commitment really has in the pool. */
  ghost predicate Truthful(leaves: seq<Word>, ds: seq<DepositRecord>) {
    forall i {:trigger ds[i]} :: 0 <= i < |ds| ==> Places(leaves, ds[i].commitment, ds[i].leafIndex)
  }

  ghost predicate Places(leaves: seq<Word>, commitment: nat, leafIndex: nat) {
    leafIndex < |leaves| && leaves[leafIndex] == commitment
  }

  ghost predicate TruthfulSightings(leaves: seq<Word>, ss: seq<Sighting>) {
    forall i {:trigger ss[i]} :: 0 <= i < |ss| && ss[i].event.DepositSeen? ==>
      Places(leaves, ss[i].event.commitment, ss[i].event.leafIndex)
  }

  /** The commitments and nullifiers a list of sightings is about. */
  ghost function CommitmentsIn(ss: seq<Sighting>): set<nat> {
    set s | s in ss && s.event.DepositSeen? :: s.event.commitment
  }

  ghost function NullifiersIn(ss: seq<Sighting>): set<nat> {
    set s | s in ss && s.event.WithdrawSeen? :: s.event.nullifier
  }

  /** A cache never holds a commitment twice, and gains exactly what was seen, true or not. */
  lemma {:induction false} AbsorbAllGains(m: Mirror, ss: seq<Sighting>)
    requires OnePerCommitment(m.deposits)
    ensures var m' := AbsorbAll(m, ss);
      && OnePerCommitment(m'.deposits)
      && m.deposits <= m'.deposits
      && m'.nullifiers == m.nullifiers + NullifiersIn(ss)
      && forall c :: Known(m'.deposits, c) <==> Known(m.deposits, c) || c in CommitmentsIn(ss)
  {
    if |ss| == 0 {
    } else {
      var init, last := ss[..|ss| - 1], ss[|ss| - 1];
      assert ss == init + [last];
      AbsorbAllGains(m, init);
      assert NullifiersIn(ss) == NullifiersIn(init) + if last.event.WithdrawSeen? then {last.event.nullifier} else {};
      assert CommitmentsIn(ss) == CommitmentsIn(init) + if last.event.DepositSeen? then {last.event.commitment} else {};
      var was := AbsorbAll(m, init);
      if last.event.DepositSeen? {
        UpsertKnows(was.deposits, DepositRecord(last.event.commitment, last.event.leafIndex, last.txSignature));
      }
    }
  }

  /** The first sighting of every commitment the cache did not know is true; later ones are ignored anyway. */
  ghost predicate FirstSightingsTrue(leaves: seq<Word>, m: Mirror, ss: seq<Sighting>) {
    forall i {:trigger ss[i]} :: 0 <= i < |ss| && IsFirst(m, ss, i) ==>
      Places(leaves, ss[i].event.commitment, ss[i].event.leafIndex)
  }

  ghost predicate IsFirst(m: Mirror, ss: seq<Sighting>, i: nat)
    requires i < |ss|
  {
    ss[i].event.DepositSeen? && !Known(m.deposits, ss[i].event.commitment) &&
      ss[i].event.commitment !in CommitmentsIn(ss[..i])
  }

  lemma FirstSightingsSplit(leaves: seq<Word>, m: Mirror, init: seq<Sighting>, last: Sighting)
    ensures FirstSightingsTrue(leaves, m, init + [last]) <==>
      && FirstSightingsTrue(leaves, m, init)
      && (IsFirst(m, init + [last], |init|) ==> Places(leaves, last.event.commitment, last.event.leafIndex))
  {
    var ss := init + [last];
    forall i | 0 <= i < |init|
      ensures ss[i] == init[i] && (IsFirst(m, ss, i) <==> IsFirst(m, init, i))
    {
      assert ss[..i] == init[..i];
    }
    assert ss[|init|] == last;
  }

  /** A cache is true exactly when it was before and every first sighting is: nothing ever mends a wrong record. */
  lemma {:induction false} TruthfulIffFirstSightingsTrue(leaves: seq<Word>, m: Mirror, ss: seq<Sighting>)
    requires OnePerCommitment(m.deposits)
    ensures Truthful(leaves, AbsorbAll(m, ss).deposits) <==>
      Truthful(leaves, m.deposits) && FirstSightingsTrue(leaves, m, ss)
  {
    if |ss| == 0 {
    } else {
      var init, last := ss[..|ss| - 1], ss[|ss| - 1];
      assert ss == init + [last];
      TruthfulIffFirstSightingsTrue(leaves, m, init);
      AbsorbAllGains(m, init);
      FirstSightingsSplit(leaves, m, init, last);
      assert ss[..|init|] == init;
      var was := AbsorbAll(m, init).deposits;
      if IsFirst(m, ss, |init|) {
        TruthfulAppend(leaves, was, DepositRecord(last.event.commitment, last.event.leafIndex, last.txSignature));
      }
    }
  }

  lemma TruthfulAppend(leaves: seq<Word>, ds: seq<DepositRecord>, r: DepositRecord)
    ensures Truthful(leaves, ds + [r]) <==> Truthful(leaves, ds) && Places(leaves, r.commitment, r.leafIndex)
  {
    var more := ds + [r];
    assert forall i :: 0 <= i < |ds| ==> more[i] == ds[i];
    assert more[|ds|] == r;
  }

  /** A cache stays truthful under truthful sightings, and gains exactly what was seen. */
  lemma AbsorbAllKeeps(leaves: seq<Word>, m: Mirror, ss: seq<Sighting>)
    requires OnePerCommitment(m.deposits) && Truthful(leaves, m.deposits) && TruthfulSightings(leaves, ss)
    ensures var m' := AbsorbAll(m, ss);
      && OnePerCommitment(m'.deposits) && Truthful(leaves, m'.deposits)
      && m.deposits <= m'.deposits
      && m'.nullifiers == m.nullifiers + NullifiersIn(ss)
      && forall c :: Known(m'.deposits, c) <==> Known(m.deposits, c) || c in CommitmentsIn(ss)
  {
    AbsorbAllGains(m, ss);
    TruthfulIffFirstSightingsTrue(leaves, m, ss);
  }

  lemma UpsertKnows(ds: seq<DepositRecord>, r: DepositRecord)
    ensures forall c :: Known(Upsert(ds, r), c) <==> Known(ds, c) || c == r.commitment
  {
    var ds' := Upsert(ds, r);
    forall c
      ensures Known(ds', c) <==> Known(ds, c) || c == r.commitment
    {
      if Known(ds, c) {
        var i :| 0 <= i < |ds| && ds[i].commitment == c;
        assert ds'[i] == ds[i];
      }
      if c == r.commitment && !Known(ds, c) {
        assert ds'[|ds|] == r;
      }
    }
  }

  /** Scanning what has been seen before loads nothing. */
  lemma {:induction false} RescanLoadsNothing(m: Mirror, ss: seq<Sighting>)
    requires NullifiersIn(ss) <= m.nullifiers && forall c :: c in CommitmentsIn(ss) ==> Known(m.deposits, c)
    ensures AbsorbAll(m, ss) == m
  {
    if |ss| == 0 {
    } else {
      var init, last := ss[..|ss| - 1], ss[|ss| - 1];
      assert forall s :: s in init ==> s in ss;
      RescanLoadsNothing(m, init);
      assert last in ss;
      assert last.event.WithdrawSeen? ==> last.event.nullifier in NullifiersIn(ss);
      assert last.event.DepositSeen? ==> last.event.commitment in CommitmentsIn(ss);
    }
  }

  /** Scanning the same part of the chain again, or any part of what was scanned, loads nothing. */
  lemma RehydrationLoadsNothing(leaves: seq<Word>, m: Mirror, ss: seq<Sighting>, again: seq<Sighting>)
    requires OnePerCommitment(m.deposits) && Truthful(leaves, m.deposits) && TruthfulSightings(leaves, ss)
    requires forall s :: s in again ==> s in ss
    ensures AbsorbAll(AbsorbAll(m, ss), again) == AbsorbAll(m, ss)
  {
    AbsorbAllKeeps(leaves, m, ss);
    RescanLoadsNothing(AbsorbAll(m, ss), again);
  }

  /** Where the cache puts each commitment. */
  ghost function Placement(ds: seq<DepositRecord>): map<nat, nat> {
    map c | c in CommitmentsOf(ds) :: LeafOf(ds, c)
  }

  function CommitmentsOf(ds: seq<DepositRecord>): (cs: seq<nat>)
    ensures |cs| == |ds| && forall i :: 0 <= i < |ds| ==> cs[i] == ds[i].commitment
  {
    seq(|ds|, i requires 0 <= i < |ds| => ds[i].commitment)
  }

  function LeafOf(ds: seq<DepositRecord>, c: nat): (leaf: nat)
    requires Known(ds, c)
    ensures exists i :: 0 <= i < |ds| && ds[i].commitment == c && ds[i].leafIndex == leaf
  {
    if ds[|ds| - 1].commitment == c then ds[|ds| - 1].leafIndex else LeafOf(ds[..|ds| - 1], c)
  }

  /** Whatever the order in which scans and confirmations came, the commitments end up at the same leaves. */
  lemma AnyOrderSamePlacement(leaves: seq<Word>, m: Mirror, ss: seq<Sighting>, tt: seq<Sighting>)
    requires RootHistory.Distinct(leaves)
    requires OnePerCommitment(m.deposits) && Truthful(leaves, m.deposits)
    requires TruthfulSightings(leaves, ss) && TruthfulSightings(leaves, tt)
    requires CommitmentsIn(ss) == CommitmentsIn(tt) && NullifiersIn(ss) == NullifiersIn(tt)
    ensures Placement(AbsorbAll(m, ss).deposits) == Placement(AbsorbAll(m, tt).deposits)
    ensures AbsorbAll(m, ss).nullifiers == AbsorbAll(m, tt).nullifiers
  {
    AbsorbAllKeeps(leaves, m, ss);
    AbsorbAllKeeps(leaves, m, tt);
    var a, b := AbsorbAll(m, ss).deposits, AbsorbAll(m, tt).deposits;
    forall c
      ensures c in CommitmentsOf(a) <==> Known(a, c)
      ensures c in CommitmentsOf(b) <==> Known(b, c)
    {
      KnownIsListed(a, c);
      KnownIsListed(b, c);
    }
    forall c | Known(a, c)
      ensures LeafOf(a, c) == LeafOf(b, c)
    {
      assert Places(leaves, c, LeafOf(a, c)) && Places(leaves, c, LeafOf(b, c));
    }
  }

  lemma KnownIsListed(ds: seq<DepositRecord>, c: nat)
    ensures c in CommitmentsOf(ds) <==> Known(ds, c)
  {
    if Known(ds, c) {
      var i :| 0 <= i < |ds| && ds[i].commitment == c;
      assert CommitmentsOf(ds)[i] == c;
    }
  }

  /** A record that was wrong when it came in is never corrected by a scan. */
  lemma {:induction false} FirstRecordSticks(m: Mirror, ss: seq<Sighting>, i: nat)
    requires i < |m.deposits|
    ensures i < |AbsorbAll(m, ss).deposits| && AbsorbAll(m, ss).deposits[i] == m.deposits[i]
  {
    if |ss| == 0 {
    } else {
      FirstRecordSticks(m, ss[..|ss| - 1], i);
    }
  }

  // ---- the listing ----

  function InsertByLeaf(r: DepositRecord, ds: seq<DepositRecord>): seq<DepositRecord> {
    if |ds| == 0 then [r]
    else if r.leafIndex < ds[0].leafIndex then [r] + ds
    else [ds[0]] + InsertByLeaf(r, ds[1..])
  }

  /** The records by leaf index; records of one leaf index keep their order. */
  function SortedByLeaf(ds: seq<DepositRecord>): seq<DepositRecord> {
    if |ds| == 0 then [] else InsertByLeaf(ds[|ds| - 1], SortedByLeaf(ds[..|ds| - 1]))
  }

  ghost predicate InOrder(ds: seq<DepositRecord>) {
    forall i, j :: 0 <= i < j < |ds| ==> ds[i].leafIndex <= ds[j].leafIndex
  }

  lemma AtLeast(leaf: nat, more: seq<DepositRecord>, ds: seq<DepositRecord>, r: DepositRecord)
    requires multiset(more) == multiset(ds) + multiset{r}
    requires leaf <= r.leafIndex && forall i :: 0 <= i < |ds| ==> leaf <= ds[i].leafIndex
    ensures forall j :: 0 <= j < |more| ==> leaf <= more[j].leafIndex
  {
    forall j | 0 <= j < |more|
      ensures leaf <= more[j].leafIndex
    {
      assert more[j] in multiset(more);
      assert more[j] == r || more[j] in ds;
    }
  }

  lemma {:induction false} InsertByLeafKeeps(r: DepositRecord, ds: seq<DepositRecord>)
    ensures multiset(InsertByLeaf(r, ds)) == multiset(ds) + multiset{r}
  {
    if |ds| == 0 {
    } else {
      assert ds == [ds[0]] + ds[1..];
      InsertByLeafKeeps(r, ds[1..]);
    }
  }

  lemma {:induction false} InsertByLeafSorts(r: DepositRecord, ds: seq<DepositRecord>)
    requires InOrder(ds)
    ensures InOrder(InsertByLeaf(r, ds))
  {
    if |ds| == 0 || r.leafIndex < ds[0].leafIndex {
    } else {
      InsertByLeafSorts(r, ds[1..]);
      InsertByLeafKeeps(r, ds[1..]);
      AtLeast(ds[0].leafIndex, InsertByLeaf(r, ds[1..]), ds[1..], r);
    }
  }

  lemma {:induction false} SortedByLeafSorts(ds: seq<DepositRecord>)
    ensures InOrder(SortedByLeaf(ds)) && multiset(SortedByLeaf(ds)) == multiset(ds)
  {
    if |ds| == 0 {
    } else {
      var init := ds[..|ds| - 1];
      SortedByLeafSorts(init);
      assert ds == init + [ds[|ds| - 1]];
      InsertByLeafSorts(ds[|ds| - 1], SortedByLeaf(init));
      InsertByLeafKeeps(ds[|ds| - 1], SortedByLeaf(init));
    }
  }

  /** The leaf indexes rise strictly, because no two records share a leaf. */
  ghost predicate Rising(ds: seq<DepositRecord>) {
    forall i, j :: 0 <= i < j < |ds| ==> ds[i].leafIndex < ds[j].leafIndex
  }

  predicate HasLeaf(ds: seq<DepositRecord>, leafIndex: nat) {
    exists i :: 0 <= i < |ds| && ds[i].leafIndex == leafIndex
  }

  lemma ListingRises(leaves: seq<Word>, ds: seq<DepositRecord>)
    requires OnePerCommitment(ds) && Truthful(leaves, ds)
    ensures Rising(SortedByLeaf(ds)) && Truthful(leaves, SortedByLeaf(ds))
    ensures forall c :: Known(SortedByLeaf(ds), c) <==> Known(ds, c)
  {
    var l := SortedByLeaf(ds);
    SortedByLeafSorts(ds);
    SameRecords(l, ds);
    forall i | 0 <= i < |l|
      ensures Places(leaves, l[i].commitment, l[i].leafIndex)
    {
      assert l[i] in ds;
    }
    forall i, j | 0 <= i < j < |l|
      ensures l[i].leafIndex < l[j].leafIndex
    {
      if l[i].leafIndex == l[j].leafIndex {
        assert Places(leaves, l[i].commitment, l[i].leafIndex) && Places(leaves, l[j].commitment, l[j].leafIndex);
        OncePerCommitmentSorted(l, ds, i, j);
      }
    }
  }

  lemma SameRecords(a: seq<DepositRecord>, b: seq<DepositRecord>)
    requires multiset(a) == multiset(b)
    ensures |a| == |b|
    ensures forall r :: r in a <==> r in b
    ensures forall c :: Known(a, c) <==> Known(b, c)
  {
    assert |multiset(a)| == |a| && |multiset(b)| == |b|;
    forall r
      ensures r in a <==> r in b
    {
      assert r in a <==> r in multiset(a);
      assert r in b <==> r in multiset(b);
    }
    forall c
      ensures Known(a, c) <==> Known(b, c)
    {
      if Known(a, c) { var i :| 0 <= i < |a| && a[i].commitment == c; assert a[i] in b; }
      if Known(b, c) { var i :| 0 <= i < |b| && b[i].commitment == c; assert b[i] in a; }
    }
  }

  /** A commitment recorded once is listed once. */
  lemma OncePerCommitmentSorted(l: seq<DepositRecord>, ds: seq<DepositRecord>, i: nat, j: nat)
    requires multiset(l) == multiset(ds) && OnePerCommitment(ds) && i < j < |l|
    ensures l[i].commitment != l[j].commitment
  {
    if l[i].commitment == l[j].commitment {
      SameRecords(l, ds);
      assert l[i] in ds && l[j] in ds;
      assert l[i] == l[j];
      var head, tail := l[..j], l[j..];
      assert l == head + tail;
      assert l[i] == head[i] && l[i] == tail[0];
      assert multiset(l)[l[i]] >= 2;
      OnceAtMost(ds, l[i]);
    }
  }

  lemma {:induction false} OnceAtMost(ds: seq<DepositRecord>, r: DepositRecord)
    requires OnePerCommitment(ds)
    ensures multiset(ds)[r] <= 1
  {
    if |ds| == 0 {
    } else {
      var init := ds[..|ds| - 1];
      assert ds == init + [ds[|ds| - 1]];
      OnceAtMost(init, r);
      if ds[|ds| - 1] == r {
        assert r !in init;
      }
    }
  }

  /** Rising indexes that miss none of the first n are exactly the first n. */
  lemma {:induction false} NoGap(ds: seq<DepositRecord>, n: nat)
    requires Rising(ds)
    requires forall k: nat {:trigger HasLeaf(ds, k)} :: k < n ==> HasLeaf(ds, k)
    ensures n <= |ds| && forall k {:trigger ds[k]} :: 0 <= k < n ==> ds[k].leafIndex == k
  {
    if n == 0 {
    } else {
      NoGap(ds, n - 1);
      assert HasLeaf(ds, n - 1);
      var i :| 0 <= i < |ds| && ds[i].leafIndex == n - 1;
      assert n >= 2 ==> ds[n - 2].leafIndex == n - 2;
    }
  }

  /**
   If no deposit among the first n is missing from the cache, the listing starts with the pool's
   first n leaves, in order and without a gap; with none missing at all it is the leaf sequence.
   */
  lemma ListingIsTheLeaves(leaves: seq<Word>, ds: seq<DepositRecord>, n: nat)
    requires RootHistory.Distinct(leaves) && OnePerCommitment(ds) && Truthful(leaves, ds) && n <= |leaves|
    requires forall k :: 0 <= k < n ==> Known(ds, leaves[k])
    ensures n <= |SortedByLeaf(ds)| && CommitmentsOf(SortedByLeaf(ds))[..n] == leaves[..n]
    ensures n == |leaves| ==> CommitmentsOf(SortedByLeaf(ds)) == leaves
  {
    var l := SortedByLeaf(ds);
    ListingRises(leaves, ds);
    forall k: nat | k < n
      ensures HasLeaf(l, k)
    {
      assert Known(l, leaves[k]);
      var i :| 0 <= i < |l| && l[i].commitment == leaves[k];
      assert Places(leaves, l[i].commitment, l[i].leafIndex);
    }
    NoGap(l, n);
    forall k | 0 <= k < n
      ensures l[k].commitment == leaves[k]
    {
      assert l[k].leafIndex == k;
    }
    assert n == |leaves| && |l| > n ==> Places(leaves, l[n].commitment, l[n].leafIndex);
  }

  /** The listing is the leaf sequence, each leaf under its own index. */
  ghost predicate ListsLeaves(listed: seq<DepositRecord>, leaves: seq<Word>) {
    |listed| == |leaves| && forall k {:trigger listed[k]} :: 0 <= k < |leaves| ==>
      listed[k].leafIndex == k && listed[k].commitment == leaves[k]
  }

  /** With no deposit missing, the listing is right exactly when every record is. */
  lemma ListingRightIffTruthful(leaves: seq<Word>, ds: seq<DepositRecord>)
    requires RootHistory.Distinct(leaves) && OnePerCommitment(ds)
    requires forall k :: 0 <= k < |leaves| ==> Known(ds, leaves[k])
    ensures ListsLeaves(SortedByLeaf(ds), leaves) <==> Truthful(leaves, ds)
  {
    var l := SortedByLeaf(ds);
    SortedByLeafSorts(ds);
    SameRecords(l, ds);
    if Truthful(leaves, ds) {
      ListingIsTheLeaves(leaves, ds, |leaves|);
      ListingRises(leaves, ds);
      forall k | 0 <= k < |leaves|
        ensures l[k].leafIndex == k && l[k].commitment == leaves[k]
      {
        assert CommitmentsOf(l)[k] == leaves[k];
        assert Places(leaves, l[k].commitment, l[k].leafIndex);
      }
    }
    if ListsLeaves(l, leaves) {
      forall i | 0 <= i < |ds|
        ensures Places(leaves, ds[i].commitment, ds[i].leafIndex)
      {
        assert ds[i] in l;
        var k :| 0 <= k < |l| && l[k] == ds[i];
      }
    }
  }

  /** A client that rebuilds the tree from a complete listing gets the pool's current root. */
  lemma RebuiltRootIsCurrent(pool: MixerPool.Pool, ds: seq<DepositRecord>)
    requires pool.Valid() && OnePerCommitment(ds) && Truthful(pool.leaves, ds)
    requires forall k :: 0 <= k < |pool.leaves| ==> Known(ds, pool.leaves[k])
    ensures TreeRoot(pool.hash, pool.filledSubtrees.Length, CommitmentsOf(SortedByLeaf(ds)))
         == pool.rootHistory[pool.currentRootIndex]
  {
    ListingIsTheLeaves(pool.leaves, ds, |pool.leaves|);
    MixerPool.CurrentIsLast(pool.hash, pool.leaves, pool.Stored());
  }
}
