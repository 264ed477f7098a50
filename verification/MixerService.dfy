/** The mixer service: the cached mirror of the pool, updated in place, and its gate. */
module MixerService {
  import opened Bytes
  import opened Sets
  import opened MerkleTree
  import opened DepositMirror
  import MixerPool
  import RootHistory
  import Gate = AnonymityGate

  /** One transaction of the pool: its signature, whether it failed, and the payloads it logged. */
  datatype Tx = Tx(signature: nat, failed: bool, payloads: seq<seq<Byte>>)

  /**
   The node as the scan meets it. The chain may grow between the calls for successive pages; a call
   for a page, or for a transaction, may fail.
   */
  datatype Node = Node(chainAt: nat -> seq<Tx>, up: nat -> bool, fetches: nat -> bool)

  /** What is on the chain when the first page is read stays, and signatures are unique. */
  ghost predicate Consistent(node: Node) {
    forall p: nat {:trigger node.chainAt(p)} :: node.chainAt(0) <= node.chainAt(p) && UniqueSignatures(node.chainAt(p))
  }

  ghost predicate UniqueSignatures(chain: seq<Tx>) {
    forall i, j :: 0 <= i < j < |chain| ==> chain[i].signature != chain[j].signature
  }

  const PAGE: nat := 1000

  function Position(chain: seq<Tx>, signature: nat): (k: nat)
    ensures k <= |chain|
  {
    if |chain| == 0 then 0
    else if chain[0].signature == signature then 0
    else 1 + Position(chain[1..], signature)
  }

  lemma {:induction false} PositionOf(chain: seq<Tx>, k: nat)
    requires UniqueSignatures(chain) && k < |chain|
    ensures Position(chain, chain[k].signature) == k
  {
    if k == 0 {
    } else {
      PositionOf(chain[1..], k - 1);
      assert chain[0].signature != chain[k].signature;
    }
  }

  function Newest(txs: seq<Tx>, count: nat): seq<Tx> {
    if |txs| <= count then txs else txs[|txs| - count..]
  }

  function Reversed(txs: seq<Tx>): (r: seq<Tx>)
    ensures |r| == |txs| && forall i :: 0 <= i < |r| ==> r[i] == txs[|txs| - 1 - i]
  {
    seq(|txs|, i requires 0 <= i < |txs| => txs[|txs| - 1 - i])
  }

  /** The node's answer to one page: newest first, at most a page, older than `before` if given. */
  function PageOf(chain: seq<Tx>, before: Option<nat>): seq<Tx> {
    var end := if before.Some? then Position(chain, before.value) else |chain|;
    Reversed(Newest(chain[..end], PAGE))
  }

  /** The pages that were answered before the first failure. */
  ghost predicate AnsweredPages(node: Node, maxPages: nat, pages: nat) {
    && pages <= maxPages
    && UpBefore(node, pages)
    && (pages < maxPages ==> !node.up(pages))
  }

  /** The newest transactions down to a number of them, newest first. */
  ghost predicate Collected(chain: seq<Tx>, newestFirst: seq<Tx>, count: nat) {
    Reversed(newestFirst) == Newest(chain, count)
  }

  /** A page joins on to what has been read; a short one reaches the start of the chain. */
  ghost predicate Continues(chain: seq<Tx>, newestFirst: seq<Tx>, batch: seq<Tx>, count: nat) {
    && Collected(chain, newestFirst + batch, count + PAGE)
    && |batch| <= PAGE && (|batch| < PAGE ==> |chain| <= count + PAGE)
    && (|batch| == PAGE ==>
         count + PAGE <= |chain| && Some(batch[|batch| - 1].signature) == Cursor(chain, count + PAGE))
  }

  /** Where the next page starts. */
  function Cursor(chain: seq<Tx>, count: nat): Option<nat>
    requires count <= |chain|
  {
    if count == 0 then None else Some(chain[|chain| - count].signature)
  }

  ghost predicate UpBefore(node: Node, page: nat) {
    forall p: nat {:trigger node.up(p)} :: p < page ==> node.up(p)
  }

  /** One call for a page; None is the error that ends the paging. */
  method ReadPage(
      node: Node, page: nat, before: Option<nat>, ghost newestFirst: seq<Tx>) returns (batch: Option<seq<Tx>>)
    requires Consistent(node) && PAGE * page <= |node.chainAt(0)| && before == Cursor(node.chainAt(0), PAGE * page)
    requires |newestFirst| == PAGE * page && Collected(node.chainAt(0), newestFirst, PAGE * page)
    ensures batch.Some? <==> node.up(page)
    ensures batch.Some? ==> Continues(node.chainAt(0), newestFirst, batch.value, PAGE * page)
  {
    if !node.up(page) {
      return None;
    }
    var answer := PageOf(node.chainAt(page), before);
    PageContinues(node, page, before);
    AppendOlder(node.chainAt(0), newestFirst, answer, PAGE * page);
    return Some(answer);
  }

  /** Full pages have been read so far, and the next one starts at the cursor. */
  ghost predicate Reading(node: Node, page: nat, signatures: seq<Tx>, before: Option<nat>) {
    var chain := node.chainAt(0);
    && UpBefore(node, page)
    && |signatures| == PAGE * page <= |chain| && Collected(chain, signatures, PAGE * page)
    && before == Cursor(chain, PAGE * page)
  }

  /** The paging is over: the last page allowed, a page that failed, or the start of the chain. */
  ghost predicate Ended(node: Node, maxPages: nat, page: nat, signatures: seq<Tx>) {
    && page <= maxPages && UpBefore(node, page) && Collected(node.chainAt(0), signatures, PAGE * page)
    && (page == maxPages || !node.up(page) || |node.chainAt(0)| <= PAGE * page)
  }

  /** A full page leads to the next one; a short one ends the paging. */
  lemma NextPage(node: Node, maxPages: nat, page: nat, signatures: seq<Tx>, before: Option<nat>, batch: seq<Tx>)
    requires Reading(node, page, signatures, before) && page < maxPages && node.up(page)
    requires Continues(node.chainAt(0), signatures, batch, PAGE * page)
    ensures |batch| < PAGE ==> Ended(node, maxPages, page + 1, signatures + batch)
    ensures |batch| >= PAGE ==> Reading(node, page + 1, signatures + batch, Some(batch[|batch| - 1].signature))
  {
    assert PAGE * (page + 1) == PAGE * page + PAGE;
  }

  /**
   Paging backwards and reversing gives the most recent transactions in the order they happened:
   one page's worth for each page answered, however the chain grows meanwhile.
   */
  method CollectTransactions(node: Node, maxPages: nat) returns (signatures: seq<Tx>)
    requires Consistent(node)
    ensures forall pages {:trigger AnsweredPages(node, maxPages, pages)} :: AnsweredPages(node, maxPages, pages) ==>
      signatures == Newest(node.chainAt(0), PAGE * pages)
  {
    signatures := [];
    var before: Option<nat> := None;
    var page := 0;
    ghost var end := 0;
    while page < maxPages
      invariant 0 <= page <= maxPages && end == page && Reading(node, page, signatures, before)
    {
      var answer := ReadPage(node, page, before, signatures);
      if answer.None? {
        break;
      }
      var batch := answer.value;
      NextPage(node, maxPages, page, signatures, before, batch);
      end := page + 1;
      if |batch| == 0 {
        assert signatures + batch == signatures;
        break;
      }
      signatures := signatures + batch;
      if |batch| < PAGE {
        break;
      }
      before := Some(batch[|batch| - 1].signature);
      page := page + 1;
    }
    PagesEnough(node, maxPages, end, signatures);
    signatures := Reversed(signatures);
  }

  /** A scan that stopped early had reached the start of the chain, or a page that failed. */
  lemma PagesEnough(node: Node, maxPages: nat, page: nat, signatures: seq<Tx>)
    requires Ended(node, maxPages, page, signatures)
    ensures forall pages {:trigger AnsweredPages(node, maxPages, pages)} :: AnsweredPages(node, maxPages, pages) ==>
      Reversed(signatures) == Newest(node.chainAt(0), PAGE * pages)
  {
    forall pages | AnsweredPages(node, maxPages, pages)
      ensures Reversed(signatures) == Newest(node.chainAt(0), PAGE * pages)
    {
      assert page <= pages;
      assert page == maxPages || !node.up(page) ==> page == pages;
      assert PAGE * page <= PAGE * pages;
    }
  }

  /** Each page starts where the last one ended, in the chain as it was at the start. */
  lemma PageContinues(node: Node, page: nat, before: Option<nat>)
    requires Consistent(node)
    requires PAGE * page <= |node.chainAt(0)| && before == Cursor(node.chainAt(0), PAGE * page)
    ensures var chain := node.chainAt(0);
      PageOf(node.chainAt(page), before) ==
        Reversed(Newest(if page == 0 then node.chainAt(page) else chain[..|chain| - PAGE * page], PAGE))
  {
    var chain := node.chainAt(0);
    var later := node.chainAt(page);
    var end := |chain| - PAGE * page;
    assert chain <= later;
    if page > 0 {
      assert later[end] == chain[end];
      PositionOf(later, end);
      assert later[..end] == chain[..end];
    } else {
      assert later[..|later|] == later;
    }
  }

  /** An older page continues the newest transactions; a short one reaches the start of the chain. */
  lemma AppendOlder(chain: seq<Tx>, newestFirst: seq<Tx>, batch: seq<Tx>, count: nat)
    requires count <= |chain| && |newestFirst| == count && Collected(chain, newestFirst, count)
    requires batch == Reversed(Newest(chain[..|chain| - count], PAGE))
    ensures Continues(chain, newestFirst, batch, count)
  {
    var older := Newest(chain[..|chain| - count], PAGE);
    ReversedConcat(newestFirst, older);
    NewestAndOlder(chain, count, PAGE);
  }

  lemma ReversedConcat(a: seq<Tx>, b: seq<Tx>)
    ensures Reversed(a + Reversed(b)) == b + Reversed(a)
  {
    var r := Reversed(b);
    assert forall i :: 0 <= i < |b| ==> r[|b| - 1 - i] == b[i];
    assert forall i :: 0 <= i < |b| ==> Reversed(a + r)[i] == r[|b| - 1 - i];
  }

  lemma NewestAndOlder(chain: seq<Tx>, count: nat, more: nat)
    requires count <= |chain|
    ensures Newest(chain[..|chain| - count], more) + Newest(chain, count) == Newest(chain, count + more)
  {
  }

  // ---- what a scan finds ----

  /** The sightings in one transaction's payloads, in order. */
  function Decoded(payloads: seq<seq<Byte>>, signature: nat, depositTag: Tag, withdrawTag: Option<Tag>): seq<Sighting> {
    if |payloads| == 0 then []
    else
      Decoded(payloads[..|payloads| - 1], signature, depositTag, withdrawTag)
      + [Sighting(Decode(payloads[|payloads| - 1], depositTag, withdrawTag), signature)]
  }

  /** Failed transactions and those that cannot be fetched show nothing. */
  function Shown(tx: Tx, fetches: nat -> bool, depositTag: Tag, withdrawTag: Option<Tag>): seq<Sighting> {
    if tx.failed || !fetches(tx.signature) then [] else Decoded(tx.payloads, tx.signature, depositTag, withdrawTag)
  }

  function ShownBy(txs: seq<Tx>, fetches: nat -> bool, depositTag: Tag, withdrawTag: Option<Tag>): seq<Sighting> {
    if |txs| == 0 then []
    else
      ShownBy(txs[..|txs| - 1], fetches, depositTag, withdrawTag)
      + Shown(txs[|txs| - 1], fetches, depositTag, withdrawTag)
  }

  lemma {:induction false} AbsorbOn(m: Mirror, ss: seq<Sighting>, tt: seq<Sighting>)
    ensures AbsorbAll(m, ss + tt) == AbsorbAll(AbsorbAll(m, ss), tt)
  {
    if |tt| == 0 {
      assert ss + tt == ss;
    } else {
      assert (ss + tt)[..|ss + tt| - 1] == ss + tt[..|tt| - 1];
      AbsorbOn(m, ss, tt[..|tt| - 1]);
    }
  }

  class Service {
    var deposits: seq<DepositRecord>
    var knownNullifiers: set<nat>

    constructor ()
      ensures Contents() == Mirror([], {})
    {
      deposits := [];
      knownNullifiers := {};
    }

    ghost function Contents(): Mirror
      reads this
    {
      Mirror(deposits, knownNullifiers)
    }

    method RecordDeposit(commitment: nat, leafIndex: nat, txSignature: nat)
      modifies this
      ensures Contents() == Absorb(old(Contents()), Sighting(DepositSeen(commitment, leafIndex), txSignature))
    {
      if !Known(deposits, commitment) {
        deposits := deposits + [DepositRecord(commitment, leafIndex, txSignature)];
      }
    }

    method RecordWithdrawal(nullifier: nat)
      modifies this
      ensures Contents() == Absorb(old(Contents()), Sighting(WithdrawSeen(nullifier), 0))
    {
      knownNullifiers := knownNullifiers + {nullifier};
    }

    /** The records by leaf index, each listed as often as it is cached. */
    method ListDeposits() returns (listed: seq<DepositRecord>)
      ensures listed == SortedByLeaf(deposits)
      ensures InOrder(listed) && multiset(listed) == multiset(deposits)
    {
      SortedByLeafSorts(deposits);
      return SortedByLeaf(deposits);
    }

    /** One logged payload, recorded unless it is known. */
    method AbsorbPayload(payload: seq<Byte>, signature: nat, depositTag: Tag, withdrawTag: Option<Tag>)
      returns (newDeposits: nat, newWithdrawals: nat)
      modifies this
      ensures Contents() == Absorb(old(Contents()), Sighting(Decode(payload, depositTag, withdrawTag), signature))
      ensures newDeposits == |deposits| - |old(deposits)|
      ensures newWithdrawals == |knownNullifiers| - |old(knownNullifiers)|
    {
      newDeposits, newWithdrawals := 0, 0;
      match Decode(payload, depositTag, withdrawTag) {
        case DepositSeen(commitment, leafIndex) =>
          if !Known(deposits, commitment) {
            deposits := deposits + [DepositRecord(commitment, leafIndex, signature)];
            newDeposits := 1;
          }
        case WithdrawSeen(nullifier) =>
          if nullifier !in knownNullifiers {
            knownNullifiers := knownNullifiers + {nullifier};
            newWithdrawals := 1;
          }
        case Unrecognised =>
      }
    }

    /** One fetched transaction: every payload is decoded and recorded. */
    method AbsorbTransaction(
        tx: Tx, depositTag: Tag, withdrawTag: Option<Tag>) returns (newDeposits: nat, newWithdrawals: nat)
      modifies this
      ensures Contents() == AbsorbAll(old(Contents()), Decoded(tx.payloads, tx.signature, depositTag, withdrawTag))
      ensures newDeposits == |deposits| - |old(deposits)|
      ensures newWithdrawals == |knownNullifiers| - |old(knownNullifiers)|
    {
      newDeposits, newWithdrawals := 0, 0;
      var i := 0;
      while i < |tx.payloads|
        invariant 0 <= i <= |tx.payloads|
        invariant Contents() == AbsorbAll(old(Contents()),
          Decoded(tx.payloads[..i], tx.signature, depositTag, withdrawTag))
        invariant newDeposits == |deposits| - |old(deposits)|
        invariant newWithdrawals == |knownNullifiers| - |old(knownNullifiers)|
      {
        assert tx.payloads[..i + 1][..i] == tx.payloads[..i];
        var d, w := AbsorbPayload(tx.payloads[i], tx.signature, depositTag, withdrawTag);
        newDeposits, newWithdrawals := newDeposits + d, newWithdrawals + w;
        i := i + 1;
      }
      assert tx.payloads[..|tx.payloads|] == tx.payloads;
    }

    /**
     A re-scan of the chain: everything shown by the scanned transactions is recorded, oldest
     first, and the counts say how much of it was new.
     */
    method HydrateFromChain(node: Node, maxPages: nat, depositTag: Option<Tag>, withdrawTag: Option<Tag>)
      returns (scanned: seq<Tx>, depositsLoaded: nat, withdrawalsLoaded: nat)
      requires Consistent(node)
      modifies this
      ensures depositTag.None? ==> scanned == [] && Contents() == old(Contents())
      ensures depositTag.Some? ==>
        && (forall pages {:trigger AnsweredPages(node, maxPages, pages)} :: AnsweredPages(node, maxPages, pages) ==>
             scanned == Newest(node.chainAt(0), PAGE * pages))
        && Contents() == AbsorbAll(old(Contents()), ShownBy(scanned, node.fetches, depositTag.value, withdrawTag))
      ensures depositsLoaded == |deposits| - |old(deposits)|
      ensures withdrawalsLoaded == |knownNullifiers| - |old(knownNullifiers)|
    {
      depositsLoaded, withdrawalsLoaded := 0, 0;
      if depositTag.None? {
        return [], 0, 0;
      }
      scanned := CollectTransactions(node, maxPages);
      var i := 0;
      while i < |scanned|
        invariant 0 <= i <= |scanned|
        invariant Contents() == AbsorbAll(old(Contents()),
          ShownBy(scanned[..i], node.fetches, depositTag.value, withdrawTag))
        invariant depositsLoaded == |deposits| - |old(deposits)|
        invariant withdrawalsLoaded == |knownNullifiers| - |old(knownNullifiers)|
      {
        var tx := scanned[i];
        assert scanned[..i + 1][..i] == scanned[..i];
        ghost var shown := ShownBy(scanned[..i], node.fetches, depositTag.value, withdrawTag);
        AbsorbOn(old(Contents()), shown, Shown(tx, node.fetches, depositTag.value, withdrawTag));
        i := i + 1;
        if tx.failed || !node.fetches(tx.signature) {
          continue;
        }
        var d, w := AbsorbTransaction(tx, depositTag.value, withdrawTag);
        depositsLoaded, withdrawalsLoaded := depositsLoaded + d, withdrawalsLoaded + w;
      }
      assert scanned[..|scanned|] == scanned;
    }

    /** The gate in front of a withdrawal; an unreadable pool counts as one without deposits. */
    method AnonymitySetSatisfied(min: int, nextLeafIndex: Option<nat>) returns (ok: bool)
      ensures ok <==> min <= 0 || (nextLeafIndex.Some? && nextLeafIndex.value - |knownNullifiers| >= min)
      ensures ok == Gate.Opens(min, if nextLeafIndex.Some? then nextLeafIndex.value else 0, |knownNullifiers|)
    {
      if min <= 0 {
        return true;
      }
      var leaves := if nextLeafIndex.Some? then nextLeafIndex.value else 0;
      var anonymitySet := if leaves < |knownNullifiers| then 0 else leaves - |knownNullifiers|;
      return !(anonymitySet < min);
    }
  }

  // ---- a scan that loses some transactions ----

  lemma {:induction false} DecodedAt(
      payloads: seq<seq<Byte>>, signature: nat, depositTag: Tag, withdrawTag: Option<Tag>)
    ensures var d := Decoded(payloads, signature, depositTag, withdrawTag);
      |d| == |payloads| && forall p {:trigger d[p]} :: 0 <= p < |d| ==>
        d[p] == Sighting(Decode(payloads[p], depositTag, withdrawTag), signature)
  {
    if |payloads| == 0 {
    } else {
      DecodedAt(payloads[..|payloads| - 1], signature, depositTag, withdrawTag);
    }
  }

  /** A sighting is one payload of this transaction, which succeeded and was fetched. */
  ghost predicate SeenIn(tx: Tx, fetches: nat -> bool, depositTag: Tag, withdrawTag: Option<Tag>, s: Sighting, p: nat) {
    && !tx.failed && fetches(tx.signature) && p < |tx.payloads|
    && s == Sighting(Decode(tx.payloads[p], depositTag, withdrawTag), tx.signature)
  }

  ghost predicate SeenAt(
      txs: seq<Tx>, fetches: nat -> bool, depositTag: Tag, withdrawTag: Option<Tag>, s: Sighting, i: nat, p: nat)
  {
    i < |txs| && SeenIn(txs[i], fetches, depositTag, withdrawTag, s, p)
  }

  lemma ShownIn(tx: Tx, fetches: nat -> bool, depositTag: Tag, withdrawTag: Option<Tag>, s: Sighting)
    ensures s in Shown(tx, fetches, depositTag, withdrawTag) <==>
      exists p: nat :: SeenIn(tx, fetches, depositTag, withdrawTag, s, p)
  {
    DecodedAt(tx.payloads, tx.signature, depositTag, withdrawTag);
    var shown := Shown(tx, fetches, depositTag, withdrawTag);
    if s in shown {
      var p :| 0 <= p < |shown| && shown[p] == s;
      assert SeenIn(tx, fetches, depositTag, withdrawTag, s, p);
    }
    if exists p: nat :: SeenIn(tx, fetches, depositTag, withdrawTag, s, p) {
      var p: nat :| SeenIn(tx, fetches, depositTag, withdrawTag, s, p);
      assert shown[p] == s;
    }
  }

  lemma ShownAppend(txs: seq<Tx>, tx: Tx, fetches: nat -> bool, depositTag: Tag, withdrawTag: Option<Tag>)
    ensures ShownBy(txs + [tx], fetches, depositTag, withdrawTag)
         == ShownBy(txs, fetches, depositTag, withdrawTag) + Shown(tx, fetches, depositTag, withdrawTag)
  {
    assert (txs + [tx])[..|txs|] == txs;
  }

  /** One transaction more: what was seen before, and what is seen in it. */
  lemma SeenAppend(txs: seq<Tx>, tx: Tx, fetches: nat -> bool, depositTag: Tag, withdrawTag: Option<Tag>, s: Sighting)
    ensures (exists i: nat, p: nat :: SeenAt(txs + [tx], fetches, depositTag, withdrawTag, s, i, p)) <==>
      || (exists i: nat, p: nat :: SeenAt(txs, fetches, depositTag, withdrawTag, s, i, p))
      || (exists p: nat :: SeenIn(tx, fetches, depositTag, withdrawTag, s, p))
  {
    var more := txs + [tx];
    if exists i: nat, p: nat :: SeenAt(txs, fetches, depositTag, withdrawTag, s, i, p) {
      var i: nat, p: nat :| SeenAt(txs, fetches, depositTag, withdrawTag, s, i, p);
      assert more[i] == txs[i] && SeenAt(more, fetches, depositTag, withdrawTag, s, i, p);
    }
    if exists p: nat :: SeenIn(tx, fetches, depositTag, withdrawTag, s, p) {
      var p: nat :| SeenIn(tx, fetches, depositTag, withdrawTag, s, p);
      assert more[|txs|] == tx && SeenAt(more, fetches, depositTag, withdrawTag, s, |txs|, p);
    }
    if exists i: nat, p: nat :: SeenAt(more, fetches, depositTag, withdrawTag, s, i, p) {
      var i: nat, p: nat :| SeenAt(more, fetches, depositTag, withdrawTag, s, i, p);
      assert i < |txs| ==> SeenAt(txs, fetches, depositTag, withdrawTag, s, i, p);
    }
  }

  /** Whatever transactions fail to be fetched, the scan shows exactly the payloads of the others. */
  lemma {:induction false} ShownExactly(
      txs: seq<Tx>, fetches: nat -> bool, depositTag: Tag, withdrawTag: Option<Tag>, s: Sighting)
    ensures s in ShownBy(txs, fetches, depositTag, withdrawTag) <==>
      exists i: nat, p: nat :: SeenAt(txs, fetches, depositTag, withdrawTag, s, i, p)
  {
    if |txs| == 0 {
    } else {
      var before, last := txs[..|txs| - 1], txs[|txs| - 1];
      ShownExactly(before, fetches, depositTag, withdrawTag, s);
      ShownIn(last, fetches, depositTag, withdrawTag, s);
      SeenAppend(before, last, fetches, depositTag, withdrawTag, s);
      assert txs == before + [last];
    }
  }

  lemma ShownInOrderOneMore(
      whole: seq<Tx>, head: seq<Tx>, tail: seq<Tx>, tx: Tx, fetches: nat -> bool, depositTag: Tag,
      withdrawTag: Option<Tag>)
    requires ShownBy(whole, fetches, depositTag, withdrawTag)
          == ShownBy(head, fetches, depositTag, withdrawTag) + ShownBy(tail, fetches, depositTag, withdrawTag)
    ensures ShownBy(whole + [tx], fetches, depositTag, withdrawTag)
         == ShownBy(head, fetches, depositTag, withdrawTag) + ShownBy(tail + [tx], fetches, depositTag, withdrawTag)
  {
    var h, t := ShownBy(head, fetches, depositTag, withdrawTag), ShownBy(tail, fetches, depositTag, withdrawTag);
    var more := Shown(tx, fetches, depositTag, withdrawTag);
    ShownAppend(whole, tx, fetches, depositTag, withdrawTag);
    ShownAppend(tail, tx, fetches, depositTag, withdrawTag);
    assert (h + t) + more == h + (t + more);
  }

  lemma SplitLast(txs: seq<Tx>, k: nat)
    requires k < |txs|
    ensures var init, last := txs[..|txs| - 1], txs[|txs| - 1];
      txs == init + [last] && txs[..k] == init[..k] && txs[k..] == init[k..] + [last]
  {
  }

  /** One part of the chain is shown after the other, and neither depends on what the other loses. */
  lemma {:induction false} ShownInOrder(
      txs: seq<Tx>, k: nat, fetches: nat -> bool, depositTag: Tag, withdrawTag: Option<Tag>)
    requires k <= |txs|
    ensures ShownBy(txs, fetches, depositTag, withdrawTag)
         == ShownBy(txs[..k], fetches, depositTag, withdrawTag) + ShownBy(txs[k..], fetches, depositTag, withdrawTag)
    decreases |txs|
  {
    if k == |txs| {
      assert txs[..k] == txs && txs[k..] == [];
    } else {
      var init, last := txs[..|txs| - 1], txs[|txs| - 1];
      SplitLast(txs, k);
      ShownInOrder(init, k, fetches, depositTag, withdrawTag);
      ShownInOrderOneMore(init, init[..k], init[k..], last, fetches, depositTag, withdrawTag);
    }
  }

  lemma {:induction false} LoggedAt(txs: seq<PoolTx>, i: nat, depositTag: Tag, withdrawTag: Tag)
    requires i < |txs|
    ensures LoggedBy(txs, depositTag, withdrawTag)[i] ==
      Tx(i, txs[i].failed, Payloads(txs[i].lines, |LeavesIn(Landed(txs[..i]))|, depositTag, withdrawTag))
  {
    var init := txs[..|txs| - 1];
    if i < |init| {
      LoggedAt(init, i, depositTag, withdrawTag);
      assert LoggedBy(txs, depositTag, withdrawTag)[i] == LoggedBy(init, depositTag, withdrawTag)[i];
      assert init[..i] == txs[..i] && init[i] == txs[i];
    }
  }

  /** The lines have room after the leaves already taken, and their fields fit. */
  ghost predicate Fitting(lines: seq<Line>, taken: nat) {
    taken + |LeavesIn(lines)| <= Pow256(4) && forall i {:trigger lines[i]} :: 0 <= i < |lines| ==> InField(lines[i])
  }

  /** The lines of one transaction that took effect come after what landed before it. */
  lemma {:induction false} LandedOne(txs: seq<PoolTx>, i: nat)
    requires i < |txs| && !txs[i].failed
    ensures Landed(txs[..i]) + txs[i].lines <= Landed(txs)
  {
    var init := txs[..|txs| - 1];
    if i < |init| {
      LandedOne(init, i);
      assert init[..i] == txs[..i] && init[i] == txs[i];
      PrefixOfMore(Landed(txs[..i]) + txs[i].lines, Landed(init), NewsOf(txs[|txs| - 1]));
    }
  }

  lemma PrefixOfMore(a: seq<Line>, b: seq<Line>, more: seq<Line>)
    requires a <= b
    ensures a <= b + more
  {
  }

  lemma FittingPart(before: seq<Line>, lines: seq<Line>, all: seq<Line>)
    requires before + lines <= all && AllInField(all)
    ensures Fitting(lines, |LeavesIn(before)|)
  {
    var rest := all[|before + lines|..];
    assert all == before + lines + rest;
    AllInFieldParts(before + lines, rest);
    AllInFieldParts(before, lines);
  }

  lemma LeavesInPrefix(part: seq<Line>, all: seq<Line>)
    requires part <= all
    ensures LeavesIn(part) <= LeavesIn(all)
  {
    assert all == part + all[|part|..];
    LeavesInConcat(part, all[|part|..]);
  }

  lemma {:induction false} EventsOfAt(lines: seq<Line>, taken: nat, l: nat, depositTag: Tag, withdrawTag: Tag)
    requires l < |lines|
    ensures EventsOf(lines, taken, depositTag, withdrawTag)[l] ==
      EventOf(lines[l], taken + |LeavesIn(lines[..l])|, depositTag, withdrawTag)
  {
    var n := |lines| - 1;
    if l == n {
    } else {
      EventsOfAt(lines[..n], taken, l, depositTag, withdrawTag);
      assert lines[..n][..l] == lines[..l];
    }
  }

  /** What the l-th line of the i-th transaction is read as, at the leaf index it logged. */
  function LineSighting(txs: seq<PoolTx>, i: nat, l: nat, depositTag: Tag, withdrawTag: Tag): Sighting
    requires i < |txs| && l < |txs[i].lines|
  {
    var leaf := |LeavesIn(Landed(txs[..i]))| + |LeavesIn(txs[i].lines[..l])|;
    Sighting(EventOf(txs[i].lines[l], leaf, depositTag, withdrawTag), i)
  }

  ghost predicate LineShown(
      txs: seq<PoolTx>, fetches: nat -> bool, depositTag: Tag, withdrawTag: Tag, s: Sighting, i: nat, l: nat)
  {
    && i < |txs| && !txs[i].failed && fetches(i) && l < |txs[i].lines|
    && s == LineSighting(txs, i, l, depositTag, withdrawTag)
  }

  lemma LineReadAt(lines: seq<Line>, taken: nat, signature: nat, l: nat, depositTag: Tag, withdrawTag: Tag)
    requires depositTag != withdrawTag && Fitting(lines, taken) && l < |lines|
    ensures var payloads := Payloads(lines, taken, depositTag, withdrawTag);
      && |payloads| == |lines|
      && Decode(payloads[l], depositTag, Some(withdrawTag)) ==
           EventOf(lines[l], taken + |LeavesIn(lines[..l])|, depositTag, withdrawTag)
  {
    var payloads := Payloads(lines, taken, depositTag, withdrawTag);
    var d := Decoded(payloads, signature, depositTag, Some(withdrawTag));
    LinesReadBack(lines, taken, signature, depositTag, withdrawTag);
    DecodedAt(payloads, signature, depositTag, Some(withdrawTag));
    EventsOfAt(lines, taken, l, depositTag, withdrawTag);
    PayloadsLength(lines, taken, depositTag, withdrawTag);
    assert d[l].event == EventsOf(lines, taken, depositTag, withdrawTag)[l];
  }

  lemma LineSeen(txs: seq<PoolTx>, i: nat, l: nat, depositTag: Tag, withdrawTag: Tag)
    requires depositTag != withdrawTag && AllInField(Landed(txs))
    requires i < |txs| && !txs[i].failed && l < |txs[i].lines|
    ensures var payloads := Payloads(txs[i].lines, |LeavesIn(Landed(txs[..i]))|, depositTag, withdrawTag);
      && |payloads| == |txs[i].lines|
      && Sighting(Decode(payloads[l], depositTag, Some(withdrawTag)), i)
         == LineSighting(txs, i, l, depositTag, withdrawTag)
  {
    LandedOne(txs, i);
    FittingPart(Landed(txs[..i]), txs[i].lines, Landed(txs));
    LineReadAt(txs[i].lines, |LeavesIn(Landed(txs[..i]))|, i, l, depositTag, withdrawTag);
  }

  /** A line is shown exactly as its payload is seen. */
  lemma ShownAsSeen(
      txs: seq<PoolTx>, fetches: nat -> bool, depositTag: Tag, withdrawTag: Tag, s: Sighting, i: nat, l: nat)
    requires depositTag != withdrawTag && AllInField(Landed(txs))
    ensures LineShown(txs, fetches, depositTag, withdrawTag, s, i, l) <==>
      SeenAt(LoggedBy(txs, depositTag, withdrawTag), fetches, depositTag, Some(withdrawTag), s, i, l)
  {
    if i < |txs| {
      LoggedAt(txs, i, depositTag, withdrawTag);
      PayloadsLength(txs[i].lines, |LeavesIn(Landed(txs[..i]))|, depositTag, withdrawTag);
      if !txs[i].failed && l < |txs[i].lines| {
        LineSeen(txs, i, l, depositTag, withdrawTag);
      }
    }
  }

  /**
   A lossy scan, exactly: it shows the lines of the transactions that took effect and were fetched,
   each at the leaf it logged, and nothing else, whichever other transactions fail to be fetched.
   */
  lemma LossyScanShows(txs: seq<PoolTx>, fetches: nat -> bool, depositTag: Tag, withdrawTag: Tag, s: Sighting)
    requires depositTag != withdrawTag && AllInField(Landed(txs))
    ensures s in ShownBy(LoggedBy(txs, depositTag, withdrawTag), fetches, depositTag, Some(withdrawTag)) <==>
      exists i: nat, l: nat :: LineShown(txs, fetches, depositTag, withdrawTag, s, i, l)
  {
    var logged := LoggedBy(txs, depositTag, withdrawTag);
    ShownExactly(logged, fetches, depositTag, Some(withdrawTag), s);
    forall i: nat, l: nat
      ensures LineShown(txs, fetches, depositTag, withdrawTag, s, i, l) <==>
        SeenAt(logged, fetches, depositTag, Some(withdrawTag), s, i, l)
    {
      ShownAsSeen(txs, fetches, depositTag, withdrawTag, s, i, l);
    }
  }

  lemma {:induction false} PayloadsLength(lines: seq<Line>, taken: nat, depositTag: Tag, withdrawTag: Tag)
    ensures |Payloads(lines, taken, depositTag, withdrawTag)| == |lines|
  {
    if |lines| == 0 {
    } else {
      PayloadsLength(lines[..|lines| - 1], taken, depositTag, withdrawTag);
    }
  }

  /** What was shown is known afterwards. */
  lemma ShownIsKnown(before: Mirror, shown: seq<Sighting>, s: Sighting)
    requires OnePerCommitment(before.deposits) && s in shown
    ensures s.event.DepositSeen? ==> Known(AbsorbAll(before, shown).deposits, s.event.commitment)
    ensures s.event.WithdrawSeen? ==> s.event.nullifier in AbsorbAll(before, shown).nullifiers
  {
    AbsorbAllGains(before, shown);
    assert s.event.DepositSeen? ==> s.event.commitment in CommitmentsIn(shown);
    assert s.event.WithdrawSeen? ==> s.event.nullifier in NullifiersIn(shown);
  }

  /** A leaf is known, and shown at its true index, whenever its own transaction was fetched; a nullifier too. */
  lemma FetchedIsKnown(
      txs: seq<PoolTx>, fetches: nat -> bool, depositTag: Tag, withdrawTag: Tag, before: Mirror, i: nat, l: nat)
    requires depositTag != withdrawTag && AllInField(Landed(txs)) && OnePerCommitment(before.deposits)
    requires i < |txs| && !txs[i].failed && fetches(i) && l < |txs[i].lines|
    ensures
      var shown := ShownBy(LoggedBy(txs, depositTag, withdrawTag), fetches, depositTag, Some(withdrawTag));
      var after, line := AbsorbAll(before, shown), txs[i].lines[l];
      && (line.Deposited? ==> Known(after.deposits, line.commitment))
      && (line.Withdrew? ==> line.nullifier in after.nullifiers)
  {
    var shown := ShownBy(LoggedBy(txs, depositTag, withdrawTag), fetches, depositTag, Some(withdrawTag));
    var s := LineSighting(txs, i, l, depositTag, withdrawTag);
    assert LineShown(txs, fetches, depositTag, withdrawTag, s, i, l);
    LossyScanShows(txs, fetches, depositTag, withdrawTag, s);
    ShownIsKnown(before, shown, s);
  }

  /** The leaf index a deposit is shown with is the place of its commitment among the pool's leaves. */
  lemma DepositShownAtItsLeaf(txs: seq<PoolTx>, depositTag: Tag, withdrawTag: Tag, i: nat, l: nat)
    requires i < |txs| && !txs[i].failed && l < |txs[i].lines| && txs[i].lines[l].Deposited?
    ensures var event := LineSighting(txs, i, l, depositTag, withdrawTag).event;
      event.DepositSeen? && Places(LeavesIn(Landed(txs)), event.commitment, event.leafIndex)
  {
    LandedOne(txs, i);
    LeafAmongAll(Landed(txs[..i]), txs[i].lines, Landed(txs), l);
  }

  lemma LeafAmongAll(before: seq<Line>, lines: seq<Line>, all: seq<Line>, l: nat)
    requires before + lines <= all && l < |lines| && lines[l].Deposited?
    ensures Places(LeavesIn(all), lines[l].commitment, |LeavesIn(before)| + |LeavesIn(lines[..l])|)
  {
    LeafOfLine(before, lines, l);
    LeavesInPrefix(before + lines, all);
  }

  /** The deposit on a line takes the leaf after those on the lines before it. */
  lemma LeafOfLine(before: seq<Line>, lines: seq<Line>, l: nat)
    requires l < |lines| && lines[l].Deposited?
    ensures Places(LeavesIn(before + lines), lines[l].commitment, |LeavesIn(before)| + |LeavesIn(lines[..l])|)
  {
    var head, tail := lines[..l], lines[l + 1..];
    assert lines == head + [lines[l]] + tail;
    LeavesInConcat(head, [lines[l]]);
    LeavesInConcat(head + [lines[l]], tail);
    LeavesInConcat(before, lines);
    assert [lines[l]][..0] == [];
    assert LeavesIn([lines[l]]) == [lines[l].commitment];
  }

  /** How far the scan reaches by default: fifty pages of signatures. */
  const MAX_PAGES: nat := 50

  lemma DefaultReach()
    ensures PAGE * MAX_PAGES == 50_000
  {
  }

  // ---- a scan that loses nothing ----

  /** The deposits shown are the pool's leaves, each at its own index. */
  ghost predicate ShowsLeaves(leaves: seq<Word>, ss: seq<Sighting>) {
    TruthfulSightings(leaves, ss) && forall k :: 0 <= k < |leaves| ==> leaves[k] in CommitmentsIn(ss)
  }

  /**
   One logged payload of a transaction that touches the pool: the program's own deposit and
   withdrawal events, or anything else, be it another event or another program's line.
   */
  datatype Line =
    | Deposited(commitment: nat, timestamp: seq<Byte>)
    | Withdrew(nullifier: nat, rest: seq<Byte>)
    | Foreign(payload: seq<Byte>)

  /** A transaction that touches the pool, with all its lines; one without lines is an initialize or a transfer. */
  datatype PoolTx = PoolTx(failed: bool, lines: seq<Line>)

  /** The lines of a transaction that took effect. */
  function NewsOf(tx: PoolTx): seq<Line> {
    if tx.failed then [] else tx.lines
  }

  /** The lines of the transactions that took effect. */
  function Landed(txs: seq<PoolTx>): seq<Line> {
    if |txs| == 0 then []
    else Landed(txs[..|txs| - 1]) + NewsOf(txs[|txs| - 1])
  }

  /** The leaves the deposits among some lines make. */
  function LeavesIn(lines: seq<Line>): seq<Word> {
    if |lines| == 0 then []
    else
      var last := lines[|lines| - 1];
      LeavesIn(lines[..|lines| - 1]) + if last.Deposited? then [last.commitment] else []
  }

  /** The nullifiers the withdrawals among some lines spend. */
  function SpentIn(lines: seq<Line>): set<nat> {
    set line | line in lines && line.Withdrew? :: line.nullifier
  }

  /** A deposit logs the next free leaf index. */
  function PayloadOf(line: Line, leafIndex: nat, depositTag: Tag, withdrawTag: Tag): seq<Byte> {
    match line
    case Deposited(c, timestamp) => DepositPayload(depositTag, ToBe(c, 32), leafIndex, timestamp)
    case Withdrew(n, rest) => WithdrawPayload(withdrawTag, ToBe(n, 32), rest)
    case Foreign(payload) => payload
  }

  /** The payloads of some lines, with so many leaves already taken. */
  function Payloads(lines: seq<Line>, taken: nat, depositTag: Tag, withdrawTag: Tag): seq<seq<Byte>> {
    if |lines| == 0 then []
    else
      var before := lines[..|lines| - 1];
      Payloads(before, taken, depositTag, withdrawTag)
      + [PayloadOf(lines[|lines| - 1], taken + |LeavesIn(before)|, depositTag, withdrawTag)]
  }

  /** The transactions as the node returns them. */
  function LoggedBy(txs: seq<PoolTx>, depositTag: Tag, withdrawTag: Tag): (logged: seq<Tx>)
    ensures |logged| == |txs|
  {
    if |txs| == 0 then []
    else
      var before, last := txs[..|txs| - 1], txs[|txs| - 1];
      LoggedBy(before, depositTag, withdrawTag)
      + [Tx(|before|, last.failed, Payloads(last.lines, |LeavesIn(Landed(before))|, depositTag, withdrawTag))]
  }

  predicate InField(line: Line) {
    match line
    case Deposited(c, _) => c < Pow256(32)
    case Withdrew(n, _) => n < Pow256(32)
    case Foreign(_) => true
  }

  predicate AllInField(lines: seq<Line>) {
    |LeavesIn(lines)| <= Pow256(4) && forall i {:trigger lines[i]} :: 0 <= i < |lines| ==> InField(lines[i])
  }

  // ---- what the scan makes of the lines ----

  /** How one line is read: the program's own events as what they are, any other line as whatever it decodes to. */
  function EventOf(line: Line, leafIndex: nat, depositTag: Tag, withdrawTag: Tag): PoolEvent {
    match line
    case Deposited(c, _) => DepositSeen(c, leafIndex)
    case Withdrew(n, _) => WithdrawSeen(n)
    case Foreign(payload) => Decode(payload, depositTag, Some(withdrawTag))
  }

  function EventsOf(lines: seq<Line>, taken: nat, depositTag: Tag, withdrawTag: Tag): (events: seq<PoolEvent>)
    ensures |events| == |lines|
  {
    if |lines| == 0 then []
    else
      var before := lines[..|lines| - 1];
      EventsOf(before, taken, depositTag, withdrawTag)
      + [EventOf(lines[|lines| - 1], taken + |LeavesIn(before)|, depositTag, withdrawTag)]
  }

  /** The sightings carry these events, in this order. */
  ghost predicate Carries(ss: seq<Sighting>, events: seq<PoolEvent>) {
    |ss| == |events| && forall i {:trigger ss[i]} {:trigger events[i]} :: 0 <= i < |ss| ==> ss[i].event == events[i]
  }

  lemma LineReadsBack(line: Line, leafIndex: nat, depositTag: Tag, withdrawTag: Tag)
    requires depositTag != withdrawTag && InField(line) && (line.Deposited? ==> leafIndex < Pow256(4))
    ensures Decode(PayloadOf(line, leafIndex, depositTag, withdrawTag), depositTag, Some(withdrawTag))
         == EventOf(line, leafIndex, depositTag, withdrawTag)
  {
    match line
    case Deposited(c, timestamp) => DepositReadsBack(depositTag, Some(withdrawTag), c, leafIndex, timestamp);
    case Withdrew(n, rest) => WithdrawReadsBack(depositTag, withdrawTag, n, rest);
    case Foreign(_) =>
  }

  lemma CarriesMore(ss: seq<Sighting>, events: seq<PoolEvent>, s: Sighting, event: PoolEvent)
    requires Carries(ss, events) && s.event == event
    ensures Carries(ss + [s], events + [event])
  {
  }

  lemma OneMoreLineReadsBack(
      before: seq<Line>, last: Line, taken: nat, signature: nat, depositTag: Tag, withdrawTag: Tag)
    requires depositTag != withdrawTag && InField(last) && (last.Deposited? ==> taken + |LeavesIn(before)| < Pow256(4))
    requires Carries(
      Decoded(Payloads(before, taken, depositTag, withdrawTag), signature, depositTag, Some(withdrawTag)),
                     EventsOf(before, taken, depositTag, withdrawTag))
    ensures Carries(
      Decoded(Payloads(before + [last], taken, depositTag, withdrawTag), signature, depositTag, Some(withdrawTag)),
                    EventsOf(before + [last], taken, depositTag, withdrawTag))
  {
    var leaf := taken + |LeavesIn(before)|;
    var was := Payloads(before, taken, depositTag, withdrawTag);
    var payload := PayloadOf(last, leaf, depositTag, withdrawTag);
    assert (before + [last])[..|before|] == before;
    assert Payloads(before + [last], taken, depositTag, withdrawTag) == was + [payload];
    LineReadsBack(last, leaf, depositTag, withdrawTag);
    DecodedAppend(was, payload, signature, depositTag, Some(withdrawTag));
    CarriesMore(
      Decoded(was, signature, depositTag, Some(withdrawTag)), EventsOf(before, taken, depositTag, withdrawTag),
      Sighting(Decode(payload, depositTag, Some(withdrawTag)), signature),
      EventOf(last, leaf, depositTag, withdrawTag));
  }

  lemma {:induction false} LinesReadBack(
      lines: seq<Line>, taken: nat, signature: nat, depositTag: Tag, withdrawTag: Tag)
    requires depositTag != withdrawTag && taken + |LeavesIn(lines)| <= Pow256(4)
    requires forall i {:trigger lines[i]} :: 0 <= i < |lines| ==> InField(lines[i])
    ensures Carries(Decoded(Payloads(lines, taken, depositTag, withdrawTag), signature, depositTag, Some(withdrawTag)),
                    EventsOf(lines, taken, depositTag, withdrawTag))
  {
    if |lines| == 0 {
    } else {
      var before, last := lines[..|lines| - 1], lines[|lines| - 1];
      LinesReadBack(before, taken, signature, depositTag, withdrawTag);
      OneMoreLineReadsBack(before, last, taken, signature, depositTag, withdrawTag);
      assert before + [last] == lines;
    }
  }

  lemma DecodedAppend(
      payloads: seq<seq<Byte>>, payload: seq<Byte>, signature: nat, depositTag: Tag, withdrawTag: Option<Tag>)
    ensures Decoded(payloads + [payload], signature, depositTag, withdrawTag)
         == Decoded(payloads, signature, depositTag, withdrawTag)
            + [Sighting(Decode(payload, depositTag, withdrawTag), signature)]
  {
    assert (payloads + [payload])[..|payloads|] == payloads;
  }

  lemma {:induction false} LeavesInConcat(a: seq<Line>, b: seq<Line>)
    ensures LeavesIn(a + b) == LeavesIn(a) + LeavesIn(b)
  {
    if |b| == 0 {
      assert a + b == a;
    } else {
      assert (a + b)[..|a + b| - 1] == a + b[..|b| - 1];
      LeavesInConcat(a, b[..|b| - 1]);
    }
  }

  lemma {:induction false} EventsOfConcat(a: seq<Line>, b: seq<Line>, depositTag: Tag, withdrawTag: Tag)
    ensures EventsOf(a + b, 0, depositTag, withdrawTag)
         == EventsOf(a, 0, depositTag, withdrawTag) + EventsOf(b, |LeavesIn(a)|, depositTag, withdrawTag)
  {
    if |b| == 0 {
      assert a + b == a;
    } else {
      var init := b[..|b| - 1];
      assert (a + b)[..|a + b| - 1] == a + init;
      EventsOfConcat(a, init, depositTag, withdrawTag);
      LeavesInConcat(a, init);
    }
  }

  lemma AllInFieldParts(a: seq<Line>, b: seq<Line>)
    requires AllInField(a + b)
    ensures AllInField(a) && |LeavesIn(a)| + |LeavesIn(b)| <= Pow256(4)
    ensures forall i {:trigger b[i]} :: 0 <= i < |b| ==> InField(b[i])
  {
    LeavesInConcat(a, b);
    forall i | 0 <= i < |a| ensures InField(a[i]) { assert (a + b)[i] == a[i]; }
    forall i | 0 <= i < |b| ensures InField(b[i]) { assert (a + b)[|a| + i] == b[i]; }
  }

  /** One part of what is seen after the other. */
  lemma CarriesBoth(ss: seq<Sighting>, tt: seq<Sighting>, events: seq<PoolEvent>, more: seq<PoolEvent>)
    requires Carries(ss, events) && Carries(tt, more)
    ensures Carries(ss + tt, events + more)
  {
  }

  /** A fetched transaction shows its lines. */
  lemma LastSeen(before: seq<PoolTx>, last: PoolTx, fetches: nat -> bool, depositTag: Tag, withdrawTag: Tag)
    requires depositTag != withdrawTag && AllInField(Landed(before) + NewsOf(last)) && fetches(|before|)
    ensures var taken := |LeavesIn(Landed(before))|;
      var tx := Tx(|before|, last.failed, Payloads(last.lines, taken, depositTag, withdrawTag));
      Carries(Shown(tx, fetches, depositTag, Some(withdrawTag)),
              EventsOf(NewsOf(last), taken, depositTag, withdrawTag))
  {
    AllInFieldParts(Landed(before), NewsOf(last));
    LinesReadBack(NewsOf(last), |LeavesIn(Landed(before))|, |before|, depositTag, withdrawTag);
  }

  /** If every transaction can be fetched, the scan sees the lines that took effect, one by one. */
  lemma {:induction false} ScanSeesLines(txs: seq<PoolTx>, fetches: nat -> bool, depositTag: Tag, withdrawTag: Tag)
    requires depositTag != withdrawTag && AllInField(Landed(txs))
    requires forall i {:trigger fetches(i)} :: 0 <= i < |txs| ==> fetches(i)
    ensures Carries(ShownBy(LoggedBy(txs, depositTag, withdrawTag), fetches, depositTag, Some(withdrawTag)),
                    EventsOf(Landed(txs), 0, depositTag, withdrawTag))
  {
    if |txs| == 0 {
    } else {
      var before, last := txs[..|txs| - 1], txs[|txs| - 1];
      AllInFieldParts(Landed(before), NewsOf(last));
      ScanSeesLines(before, fetches, depositTag, withdrawTag);
      assert fetches(|before|);
      LastSeen(before, last, fetches, depositTag, withdrawTag);
      EventsOfConcat(Landed(before), NewsOf(last), depositTag, withdrawTag);
      var logged, init := LoggedBy(txs, depositTag, withdrawTag), LoggedBy(before, depositTag, withdrawTag);
      assert logged[..|logged| - 1] == init;
      CarriesBoth(ShownBy(init, fetches, depositTag, Some(withdrawTag)),
        Shown(logged[|logged| - 1], fetches, depositTag, Some(withdrawTag)),
        EventsOf(Landed(before), 0, depositTag, withdrawTag),
        EventsOf(NewsOf(last), |LeavesIn(Landed(before))|, depositTag, withdrawTag));
    }
  }

  // ---- when the logs show the pool ----

  /** No other line reads as a deposit at a leaf where the pool has none such. */
  ghost predicate NoForgedDeposit(lines: seq<Line>, depositTag: Tag, withdrawTag: Tag) {
    forall i {:trigger lines[i]} :: 0 <= i < |lines| && lines[i].Foreign? ==>
      var e := Decode(lines[i].payload, depositTag, Some(withdrawTag));
      e.DepositSeen? ==> Places(LeavesIn(lines), e.commitment, e.leafIndex)
  }

  /** No other line reads as the withdrawal of a nullifier the pool has not seen. */
  ghost predicate NoForgedSpend(lines: seq<Line>, depositTag: Tag, withdrawTag: Tag) {
    forall i {:trigger lines[i]} :: 0 <= i < |lines| && lines[i].Foreign? ==>
      var e := Decode(lines[i].payload, depositTag, Some(withdrawTag));
      e.WithdrawSeen? ==> e.nullifier in SpentIn(lines)
  }

  /** A leaf is among the events, under its own index. */
  predicate HasLeafEvent(events: seq<PoolEvent>, leaves: seq<Word>, k: nat)
    requires k < |leaves|
  {
    DepositSeen(leaves[k], k) in events
  }

  /** An event is what its line says: the program's own are true of these leaves. */
  predicate ReadTrue(line: Line, event: PoolEvent, leaves: seq<Word>, depositTag: Tag, withdrawTag: Tag) {
    match line
    case Deposited(c, _) =>
      event.DepositSeen? && event.commitment == c && event.leafIndex < |leaves| && leaves[event.leafIndex] == c
    case Withdrew(n, _) => event == WithdrawSeen(n)
    case Foreign(payload) => event == Decode(payload, depositTag, Some(withdrawTag))
  }

  ghost predicate EventsTrue(
      lines: seq<Line>, events: seq<PoolEvent>, leaves: seq<Word>, depositTag: Tag, withdrawTag: Tag) {
    && |events| == |lines|
    && (forall k: nat {:trigger HasLeafEvent(events, leaves, k)} :: k < |leaves| ==> HasLeafEvent(events, leaves, k))
    && (forall i {:trigger events[i]} {:trigger lines[i]} :: 0 <= i < |lines| ==>
         ReadTrue(lines[i], events[i], leaves, depositTag, withdrawTag))
  }

  lemma EventsTrueAppend(
      lines: seq<Line>, events: seq<PoolEvent>, leaves: seq<Word>, line: Line, event: PoolEvent, more: seq<Word>,
        depositTag: Tag, withdrawTag: Tag)
    requires EventsTrue(lines, events, leaves, depositTag, withdrawTag)
    requires event == EventOf(line, |leaves|, depositTag, withdrawTag)
    requires more == leaves + if line.Deposited? then [line.commitment] else []
    ensures EventsTrue(lines + [line], events + [event], more, depositTag, withdrawTag)
  {
    var lines', events' := lines + [line], events + [event];
    forall k: nat | k < |more|
      ensures HasLeafEvent(events', more, k)
    {
      if k < |leaves| {
        assert HasLeafEvent(events, leaves, k) && more[k] == leaves[k];
      } else {
        assert events'[|events|] == event;
      }
    }
    forall i | 0 <= i < |lines'|
      ensures ReadTrue(lines'[i], events'[i], more, depositTag, withdrawTag)
    {
      if i < |lines| {
        assert ReadTrue(lines[i], events[i], leaves, depositTag, withdrawTag);
      }
    }
  }

  /** Every leaf is among the events under its own index, and every event of the program is true. */
  lemma {:induction false} OwnEventsTrue(lines: seq<Line>, depositTag: Tag, withdrawTag: Tag)
    ensures EventsTrue(lines, EventsOf(lines, 0, depositTag, withdrawTag), LeavesIn(lines), depositTag, withdrawTag)
  {
    if |lines| == 0 {
    } else {
      var before, last := lines[..|lines| - 1], lines[|lines| - 1];
      OwnEventsTrue(before, depositTag, withdrawTag);
      EventsTrueAppend(before, EventsOf(before, 0, depositTag, withdrawTag), LeavesIn(before),
        last, EventOf(last, |LeavesIn(before)|, depositTag, withdrawTag), LeavesIn(lines), depositTag, withdrawTag);
      assert before + [last] == lines;
    }
  }

  /**
   If every transaction can be fetched, the logs show the pool's leaves exactly when no line but
   the program's own reads as a deposit the pool does not have.
   */
  lemma LogsShowLeaves(txs: seq<PoolTx>, fetches: nat -> bool, depositTag: Tag, withdrawTag: Tag)
    requires depositTag != withdrawTag && AllInField(Landed(txs))
    requires forall i {:trigger fetches(i)} :: 0 <= i < |txs| ==> fetches(i)
    ensures ShowsLeaves(LeavesIn(Landed(txs)),
      ShownBy(LoggedBy(txs, depositTag, withdrawTag), fetches, depositTag, Some(withdrawTag)))
        <==> NoForgedDeposit(Landed(txs), depositTag, withdrawTag)
    ensures forall k :: 0 <= k < |LeavesIn(Landed(txs))| ==>
      LeavesIn(Landed(txs))[k] in
        CommitmentsIn(ShownBy(LoggedBy(txs, depositTag, withdrawTag), fetches, depositTag, Some(withdrawTag)))
  {
    var lines := Landed(txs);
    var shown := ShownBy(LoggedBy(txs, depositTag, withdrawTag), fetches, depositTag, Some(withdrawTag));
    ScanSeesLines(txs, fetches, depositTag, withdrawTag);
    EventsShowLeaves(lines, shown, depositTag, withdrawTag);
  }

  lemma EventsShowLeaves(lines: seq<Line>, shown: seq<Sighting>, depositTag: Tag, withdrawTag: Tag)
    requires Carries(shown, EventsOf(lines, 0, depositTag, withdrawTag))
    ensures forall k :: 0 <= k < |LeavesIn(lines)| ==> LeavesIn(lines)[k] in CommitmentsIn(shown)
    ensures TruthfulSightings(LeavesIn(lines), shown) <==> NoForgedDeposit(lines, depositTag, withdrawTag)
  {
    var events, leaves := EventsOf(lines, 0, depositTag, withdrawTag), LeavesIn(lines);
    OwnEventsTrue(lines, depositTag, withdrawTag);
    forall k | 0 <= k < |leaves|
      ensures leaves[k] in CommitmentsIn(shown)
    {
      assert HasLeafEvent(events, leaves, k);
      var i :| 0 <= i < |events| && events[i] == DepositSeen(leaves[k], k);
      assert shown[i].event == events[i] && shown[i] in shown;
    }
    if NoForgedDeposit(lines, depositTag, withdrawTag) {
      forall i | 0 <= i < |shown| && shown[i].event.DepositSeen?
        ensures Places(leaves, shown[i].event.commitment, shown[i].event.leafIndex)
      {
        assert shown[i].event == events[i];
        assert lines[i].Foreign? || lines[i].Deposited?;
      }
    }
    if TruthfulSightings(leaves, shown) {
      forall i | 0 <= i < |lines| && lines[i].Foreign?
        ensures var e := Decode(lines[i].payload, depositTag, Some(withdrawTag));
          e.DepositSeen? ==> Places(leaves, e.commitment, e.leafIndex)
      {
        assert shown[i].event == events[i];
      }
    }
  }

  /** The nullifiers shown are the pool's exactly when no other line reads as a spend the pool has not seen. */
  lemma LogsShowSpends(txs: seq<PoolTx>, fetches: nat -> bool, depositTag: Tag, withdrawTag: Tag)
    requires depositTag != withdrawTag && AllInField(Landed(txs))
    requires forall i {:trigger fetches(i)} :: 0 <= i < |txs| ==> fetches(i)
    ensures var shown := ShownBy(LoggedBy(txs, depositTag, withdrawTag), fetches, depositTag, Some(withdrawTag));
      NullifiersIn(shown) == SpentIn(Landed(txs)) <==> NoForgedSpend(Landed(txs), depositTag, withdrawTag)
  {
    ScanSeesLines(txs, fetches, depositTag, withdrawTag);
    EventsShowSpends(Landed(txs),
      ShownBy(LoggedBy(txs, depositTag, withdrawTag), fetches, depositTag, Some(withdrawTag)), depositTag, withdrawTag);
  }

  lemma EventsShowSpends(lines: seq<Line>, shown: seq<Sighting>, depositTag: Tag, withdrawTag: Tag)
    requires Carries(shown, EventsOf(lines, 0, depositTag, withdrawTag))
    ensures NullifiersIn(shown) == SpentIn(lines) <==> NoForgedSpend(lines, depositTag, withdrawTag)
  {
    var events := EventsOf(lines, 0, depositTag, withdrawTag);
    OwnEventsTrue(lines, depositTag, withdrawTag);
    forall n | n in SpentIn(lines)
      ensures n in NullifiersIn(shown)
    {
      var i :| 0 <= i < |lines| && lines[i].Withdrew? && lines[i].nullifier == n;
      assert ReadTrue(lines[i], events[i], LeavesIn(lines), depositTag, withdrawTag);
      assert shown[i].event == events[i] && shown[i] in shown;
    }
    if NoForgedSpend(lines, depositTag, withdrawTag) {
      forall n | n in NullifiersIn(shown)
        ensures n in SpentIn(lines)
      {
        var i :| 0 <= i < |shown| && shown[i].event == WithdrawSeen(n);
        assert shown[i].event == events[i];
        assert lines[i].Foreign? || lines[i] in lines;
      }
    }
    if NullifiersIn(shown) == SpentIn(lines) {
      forall i | 0 <= i < |lines| && lines[i].Foreign?
        ensures var e := Decode(lines[i].payload, depositTag, Some(withdrawTag));
          e.WithdrawSeen? ==> e.nullifier in SpentIn(lines)
      {
        assert shown[i].event == events[i] && shown[i] in shown;
      }
    }
  }

  // ---- a scan that loses nothing ----

  /** What the cache holds after a scan of the whole chain as it was at the first page. */
  function AfterScan(
      before: Mirror, txs: seq<PoolTx>, node: Node, maxPages: nat, depositTag: Tag, withdrawTag: Tag): Mirror {
    AbsorbAll(before, ShownBy(Newest(node.chainAt(0), PAGE * maxPages), node.fetches, depositTag, Some(withdrawTag)))
  }

  /** Every page and transaction is answered, and the pages reach the start of the chain. */
  ghost predicate Lossless(txs: seq<PoolTx>, node: Node, maxPages: nat, depositTag: Tag, withdrawTag: Tag) {
    && depositTag != withdrawTag && AllInField(Landed(txs))
    && node.chainAt(0) == LoggedBy(txs, depositTag, withdrawTag) && |txs| <= PAGE * maxPages
    && AnsweredPages(node, maxPages, maxPages)
    && forall i {:trigger node.fetches(i)} :: 0 <= i < |txs| ==> node.fetches(i)
  }

  /**
   After such a scan the listing is the pool's leaf sequence exactly when every record that was
   there before is true and so is the first sighting of every other commitment. Without look-alike
   lines only the records from before matter; and a client that rebuilds the tree from a right
   listing gets the pool's current root.
   */
  lemma HydratedListingRebuildsRoot(
      pool: MixerPool.Pool, txs: seq<PoolTx>, before: Mirror, node: Node, maxPages: nat, depositTag: Tag,
        withdrawTag: Tag)
    requires pool.Valid() && pool.leaves == LeavesIn(Landed(txs)) &&
      Lossless(txs, node, maxPages, depositTag, withdrawTag)
    requires OnePerCommitment(before.deposits)
    ensures
      var listed := SortedByLeaf(AfterScan(before, txs, node, maxPages, depositTag, withdrawTag).deposits);
      var shown := ShownBy(LoggedBy(txs, depositTag, withdrawTag), node.fetches, depositTag, Some(withdrawTag));
      && (ListsLeaves(listed, pool.leaves) <==>
           Truthful(pool.leaves, before.deposits) && FirstSightingsTrue(pool.leaves, before, shown))
      && (NoForgedDeposit(Landed(txs), depositTag, withdrawTag) ==>
           (ListsLeaves(listed, pool.leaves) <==> Truthful(pool.leaves, before.deposits)))
      && (ListsLeaves(listed, pool.leaves) ==>
           TreeRoot(pool.hash, pool.filledSubtrees.Length, CommitmentsOf(listed)) ==
             pool.rootHistory[pool.currentRootIndex])
  {
    var shown := ShownBy(LoggedBy(txs, depositTag, withdrawTag), node.fetches, depositTag, Some(withdrawTag));
    LogsShowLeaves(txs, node.fetches, depositTag, withdrawTag);
    AbsorbAllGains(before, shown);
    var ds := AbsorbAll(before, shown).deposits;
    assert forall k :: 0 <= k < |pool.leaves| ==> Known(ds, pool.leaves[k]);
    TruthfulIffFirstSightingsTrue(pool.leaves, before, shown);
    ListingRightIffTruthful(pool.leaves, ds);
    if NoForgedDeposit(Landed(txs), depositTag, withdrawTag) {
      assert TruthfulSightings(pool.leaves, shown);
    }
    if Truthful(pool.leaves, ds) {
      RebuiltRootIsCurrent(pool, ds);
    }
  }

  /** After such a scan the gate counts the pool's true unspent deposits, exactly when no line forges a spend. */
  lemma HydratedGateCountsUnspent(
      pool: MixerPool.Pool, txs: seq<PoolTx>, before: Mirror, node: Node, maxPages: nat, depositTag: Tag,
        withdrawTag: Tag)
    requires pool.Valid() && pool.nullifiers == SpentIn(Landed(txs)) &&
      Lossless(txs, node, maxPages, depositTag, withdrawTag)
    requires OnePerCommitment(before.deposits) && before.nullifiers <= pool.nullifiers
    ensures
      var known := AfterScan(before, txs, node, maxPages, depositTag, withdrawTag).nullifiers;
      && pool.nullifiers <= known
      && (known == pool.nullifiers <==> NoForgedSpend(Landed(txs), depositTag, withdrawTag))
      && (Gate.AnonymitySet(pool.nextLeafIndex, |known|) == |pool.leaves| - |pool.nullifiers| <==>
           |pool.nullifiers| == |pool.leaves| || NoForgedSpend(Landed(txs), depositTag, withdrawTag))
  {
    var shown := ShownBy(LoggedBy(txs, depositTag, withdrawTag), node.fetches, depositTag, Some(withdrawTag));
    LogsShowSpends(txs, node.fetches, depositTag, withdrawTag);
    ScanSeesLines(txs, node.fetches, depositTag, withdrawTag);
    OwnSpendsShown(Landed(txs), shown, depositTag, withdrawTag);
    AbsorbAllGains(before, shown);
    CountsUnspent(|pool.leaves|, pool.nullifiers, before.nullifiers + NullifiersIn(shown));
  }

  /** A set that holds all the spends counts the unspent deposits rightly when it holds nothing else. */
  lemma CountsUnspent(leaves: nat, spent: set<nat>, known: set<nat>)
    requires spent <= known && |spent| <= leaves
    ensures Gate.AnonymitySet(leaves, |known|) == leaves - |spent| <==> |spent| == leaves || known == spent
  {
    SubsetSize(spent, known);
    if |known| == |spent| {
      SameSizeSubset(spent, known);
    }
  }

  lemma OwnSpendsShown(lines: seq<Line>, shown: seq<Sighting>, depositTag: Tag, withdrawTag: Tag)
    requires Carries(shown, EventsOf(lines, 0, depositTag, withdrawTag))
    ensures SpentIn(lines) <= NullifiersIn(shown)
  {
    OwnEventsTrue(lines, depositTag, withdrawTag);
    forall n | n in SpentIn(lines)
      ensures n in NullifiersIn(shown)
    {
      var i :| 0 <= i < |lines| && lines[i].Withdrew? && lines[i].nullifier == n;
      assert ReadTrue(lines[i], EventsOf(lines, 0, depositTag, withdrawTag)[i], LeavesIn(lines), depositTag,
        withdrawTag);
      assert shown[i].event == EventsOf(lines, 0, depositTag, withdrawTag)[i] && shown[i] in shown;
    }
  }

  // ---- a look-alike line ----

  /**
   An initialize, a line of another program that reads as a deposit of `second` at leaf 0, then the two real
   deposits.
   */
  function LookAlikeChain(depositTag: Tag, first: nat, second: nat, time: Time): seq<PoolTx> {
    [PoolTx(false, []), PoolTx(false, [LookAlike(depositTag, second, time)]),
     PoolTx(false, [Deposited(first, time)]), PoolTx(false, [Deposited(second, time)])]
  }

  /** The time of a block as it is logged. */
  type Time = b: seq<Byte> | |b| == 8 witness seq(8, _ => 0)

  function LookAlike(depositTag: Tag, commitment: nat, time: Time): Line {
    Foreign(DepositPayload(depositTag, ToBe(commitment, 32), 0, time))
  }

  lemma LookAlikeLanded(depositTag: Tag, first: nat, second: nat, time: Time)
    ensures Landed(LookAlikeChain(depositTag, first, second, time))
         == [LookAlike(depositTag, second, time), Deposited(first, time), Deposited(second, time)]
  {
    var txs := LookAlikeChain(depositTag, first, second, time);
    LandedChain(txs[0], txs[1], txs[2], txs[3]);
  }

  lemma LookAlikeReads(depositTag: Tag, withdrawTag: Tag, commitment: nat, time: Time)
    requires commitment < Pow256(32)
    ensures EventOf(LookAlike(depositTag, commitment, time), 0, depositTag, withdrawTag) == DepositSeen(commitment, 0)
  {
    assert 0 < Pow256(4);
    DepositReadsBack(depositTag, Some(withdrawTag), commitment, 0, time);
  }

  lemma LookAlikeLines(depositTag: Tag, withdrawTag: Tag, first: nat, second: nat, time: Time)
    requires depositTag != withdrawTag && first < Pow256(32) && second < Pow256(32)
    ensures var lines := Landed(LookAlikeChain(depositTag, first, second, time));
      && lines == [LookAlike(depositTag, second, time), Deposited(first, time), Deposited(second, time)]
      && LeavesIn(lines) == [first, second] && AllInField(lines)
      && EventsOf(lines, 0, depositTag, withdrawTag) ==
           [DepositSeen(second, 0), DepositSeen(first, 0), DepositSeen(second, 1)]
  {
    var a, b, c := LookAlike(depositTag, second, time), Deposited(first, time), Deposited(second, time);
    LookAlikeLanded(depositTag, first, second, time);
    LeavesOfThree(a, b, c);
    EventsOfThree(a, b, c, depositTag, withdrawTag);
    LookAlikeReads(depositTag, withdrawTag, second, time);
    ThreeInField(a, b, c);
  }

  lemma ThreeInField(a: Line, b: Line, c: Line)
    requires a.Foreign? && b.Deposited? && c.Deposited? && InField(b) && InField(c)
    ensures AllInField([a, b, c])
  {
    LeavesOfThree(a, b, c);
    assert Pow256(4) >= 2 by { assert Pow256(1) == 256; }
  }

  lemma EventsOfThree(a: Line, b: Line, c: Line, depositTag: Tag, withdrawTag: Tag)
    requires a.Foreign? && b.Deposited? && c.Deposited?
    ensures EventsOf([a, b, c], 0, depositTag, withdrawTag)
         == [EventOf(a, 0, depositTag, withdrawTag), DepositSeen(b.commitment, 0), DepositSeen(c.commitment, 1)]
  {
    LeavesOfThree(a, b, c);
    assert [a][..0] == [] && [a, b][..1] == [a] && [a, b, c][..2] == [a, b];
    assert EventsOf([a], 0, depositTag, withdrawTag) == [EventOf(a, 0, depositTag, withdrawTag)];
    assert EventsOf([a, b], 0, depositTag, withdrawTag)
        == [EventOf(a, 0, depositTag, withdrawTag), DepositSeen(b.commitment, 0)];
  }

  lemma LandedChain(t0: PoolTx, t1: PoolTx, t2: PoolTx, t3: PoolTx)
    requires !t0.failed && !t1.failed && !t2.failed && !t3.failed
    ensures Landed([t0, t1, t2, t3]) == t0.lines + t1.lines + t2.lines + t3.lines
  {
    assert [t0][..0] == [] && [t0, t1][..1] == [t0] && [t0, t1, t2][..2] == [t0, t1] &&
      [t0, t1, t2, t3][..3] == [t0, t1, t2];
    assert Landed([t0]) == t0.lines;
    assert Landed([t0, t1]) == t0.lines + t1.lines;
    assert Landed([t0, t1, t2]) == t0.lines + t1.lines + t2.lines;
  }

  lemma LeavesOfThree(a: Line, b: Line, c: Line)
    requires a.Foreign? && b.Deposited? && c.Deposited?
    ensures LeavesIn([a]) == [] && LeavesIn([a, b]) == [b.commitment] &&
      LeavesIn([a, b, c]) == [b.commitment, c.commitment]
  {
    assert [a][..0] == [] && [a, b][..1] == [a] && [a, b, c][..2] == [a, b];
  }

  /** The look-alike comes first, so the cache lists the two leaves the wrong way round, and no later scan mends it. */
  lemma LookAlikeMisleads(
      depositTag: Tag, withdrawTag: Tag, fetches: nat -> bool, first: nat, second: nat, time: Time,
        later: seq<Sighting>)
    requires depositTag != withdrawTag && first < Pow256(32) && second < Pow256(32) && first != second
    requires forall i :: fetches(i)
    ensures var txs := LookAlikeChain(depositTag, first, second, time);
      var shown := ShownBy(LoggedBy(txs, depositTag, withdrawTag), fetches, depositTag, Some(withdrawTag));
      var cache := AbsorbAll(Mirror([], {}), shown);
      && LeavesIn(Landed(txs)) == [first, second]
      && !NoForgedDeposit(Landed(txs), depositTag, withdrawTag)
      && CommitmentsOf(SortedByLeaf(cache.deposits)) == [second, first]
      && |AbsorbAll(cache, later).deposits| >= 2 && AbsorbAll(cache, later).deposits[0] == cache.deposits[0]
      && cache.deposits[0].commitment == second && cache.deposits[0].leafIndex == 0
  {
    var txs := LookAlikeChain(depositTag, first, second, time);
    var lines := Landed(txs);
    LookAlikeLines(depositTag, withdrawTag, first, second, time);
    ScanSeesLines(txs, fetches, depositTag, withdrawTag);
    var shown := ShownBy(LoggedBy(txs, depositTag, withdrawTag), fetches, depositTag, Some(withdrawTag));
    WrongWayRound(shown, first, second);
    var cache := AbsorbAll(Mirror([], {}), shown);
    FirstRecordSticks(cache, later, 0);
    FirstRecordSticks(cache, later, 1);
    DepositReadsBack(depositTag, Some(withdrawTag), second, 0, time);
    assert lines[0].Foreign? && !Places(LeavesIn(lines), second, 0);
  }

  lemma AbsorbOneMore(m: Mirror, ss: seq<Sighting>, s: Sighting)
    ensures AbsorbAll(m, ss + [s]) == Absorb(AbsorbAll(m, ss), s)
  {
    assert (ss + [s])[..|ss|] == ss;
  }

  lemma ThreeSightings(s0: Sighting, s1: Sighting, s2: Sighting, first: nat, second: nat)
    requires first != second
    requires s0.event == DepositSeen(second, 0) && s1.event == DepositSeen(first, 0) &&
      s2.event == DepositSeen(second, 1)
    ensures AbsorbAll(Mirror([], {}), [] + [s0] + [s1] + [s2]).deposits
         == [DepositRecord(second, 0, s0.txSignature), DepositRecord(first, 0, s1.txSignature)]
  {
    var m := Mirror([], {});
    var r0, r1 := DepositRecord(second, 0, s0.txSignature), DepositRecord(first, 0, s1.txSignature);
    AbsorbOneMore(m, [], s0);
    AbsorbOneMore(m, [] + [s0], s1);
    AbsorbOneMore(m, [] + [s0] + [s1], s2);
    UpsertKnows([], r0);
    UpsertKnows([r0], r1);
    assert Upsert([], r0) == [r0] && Upsert([r0], r1) == [r0, r1];
  }

  lemma TwoStay(r0: DepositRecord, r1: DepositRecord)
    requires r0.leafIndex == r1.leafIndex
    ensures SortedByLeaf([r0, r1]) == [r0, r1]
  {
    assert [r0, r1][..1] == [r0] && [r0][..0] == [];
    assert SortedByLeaf([r0]) == [r0];
    assert [r0][1..] == [] && InsertByLeaf(r1, []) == [r1];
    assert InsertByLeaf(r1, [r0]) == [r0] + [r1];
  }

  lemma WrongWayRound(ss: seq<Sighting>, first: nat, second: nat)
    requires first != second && Carries(ss, [DepositSeen(second, 0), DepositSeen(first, 0), DepositSeen(second, 1)])
    ensures var ds := AbsorbAll(Mirror([], {}), ss).deposits;
      && |ds| == 2 && ds[0].commitment == second && ds[0].leafIndex == 0
      && CommitmentsOf(SortedByLeaf(ds)) == [second, first]
  {
    assert ss[0].event == DepositSeen(second, 0) && ss[1].event == DepositSeen(first, 0) &&
      ss[2].event == DepositSeen(second, 1);
    ThreeSightings(ss[0], ss[1], ss[2], first, second);
    assert ss == [] + [ss[0]] + [ss[1]] + [ss[2]];
    TwoStay(DepositRecord(second, 0, ss[0].txSignature), DepositRecord(first, 0, ss[1].txSignature));
  }

  // ---- a wrong confirmation ----

  /**
   A confirmation that names the wrong leaf comes before the deposit is scanned: the deposit itself,
   shown truly by the chain as often as one likes, does not mend the record.
   */
  lemma WrongConfirmationStays(leaves: seq<Word>, k: nat, wrong: nat, signature: nat, shown: seq<Sighting>)
    requires RootHistory.Distinct(leaves) && k < |leaves| && wrong != k
    ensures var confirmed := Absorb(Mirror([], {}), Sighting(DepositSeen(leaves[k], wrong), signature));
      var ds := AbsorbAll(confirmed, shown).deposits;
      && |ds| > 0 && ds[0].commitment == leaves[k] && ds[0].leafIndex == wrong
      && !Truthful(leaves, ds)
      && ((forall i :: 0 <= i < |leaves| ==> leaves[i] in CommitmentsIn(shown)) ==>
           !ListsLeaves(SortedByLeaf(ds), leaves))
  {
    var confirmed := Absorb(Mirror([], {}), Sighting(DepositSeen(leaves[k], wrong), signature));
    var ds := AbsorbAll(confirmed, shown).deposits;
    FirstRecordSticks(confirmed, shown, 0);
    AbsorbAllGains(confirmed, shown);
    assert !Places(leaves, ds[0].commitment, ds[0].leafIndex);
    if forall i :: 0 <= i < |leaves| ==> leaves[i] in CommitmentsIn(shown) {
      ListingRightIffTruthful(leaves, ds);
    }
  }
}
